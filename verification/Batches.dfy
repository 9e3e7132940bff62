/** Stores after any number of appends at one time that fit one block, and after a tick two intervals later, down to the replay order. */
module Batches {
  import opened Types
  import opened Timeline
  import opened Invariant
  import opened Preservation
  import opened Clock
  import opened History
  import opened Replay
  import opened ReplayOrder
  import opened SmallRuns
  import opened Incidents

  function SumBytes(events: seq<Event>, n: nat): nat
    requires n <= |events|
  {
    if n == 0 then 0 else SumBytes(events, n - 1) + EventBytes(events[n - 1])
  }

  /** Events of one time that pass the checks of `append_event` then, and fit one block together. */
  predicate Batch(cfg: Config, events: seq<Event>, ts: int) {
    && events != [] && UniqueIds(events) && |events| <= cfg.maxBlockEvents
    && SumBytes(events, |events|) <= cfg.maxBlockBytes
    && forall e | e in events :: Fit(cfg, e) && e.ts == ts
  }

  function Appends(events: seq<Event>): (ops: seq<Op>)
    ensures |ops| == |events| && forall i | 0 <= i < |events| :: ops[i] == AppendAt(events[i])
  {
    if events == [] then [] else Appends(events[..|events| - 1]) + [AppendAt(events[|events| - 1])]
  }

  /** One open block with exactly these events. */
  ghost predicate Lone(cfg: Config, c: Chain, events: seq<Event>, ts: int) {
    && Valid(cfg, c) && PrefixConfirmed(c.blocks) && WaitingInOrder(c.blocks)
    && c.events == events && |c.blocks| == 1 && !c.blocks[0].confirmed
    && c.blocks[0].openedUnix == ts && c.blocks[0].eventIds == EventIds(events, |events|)
  }

  lemma {:induction false} PrefixIds(events: seq<Event>, m: nat, n: nat)
    requires n <= m <= |events|
    ensures EventIds(events[..m], n) == EventIds(events, n)
  {
    if n > 0 {
      PrefixIds(events, m, n - 1);
    }
  }

  lemma {:induction false} BytesAreSum(events: seq<Event>, m: nat, n: nat)
    requires UniqueIds(events) && n <= m <= |events|
    ensures BlockBytes(events, EventIds(events, m), n) == SumBytes(events, n)
  {
    hide IdBytes, EventBytes, UniqueIds;
    if n > 0 {
      BytesAreSum(events, m, n - 1);
      IdBytesOf(events, n - 1);
    }
  }

  lemma {:induction false} SumRises(events: seq<Event>, m: nat, n: nat)
    requires m <= n <= |events|
    ensures SumBytes(events, m) <= SumBytes(events, n)
  {
    hide EventBytes;
    if m < n {
      SumRises(events, m, n - 1);
    }
  }

  lemma {:induction false} PrefixSum(events: seq<Event>, m: nat, n: nat)
    requires n <= m <= |events|
    ensures SumBytes(events[..m], n) == SumBytes(events, n)
  {
    hide EventBytes;
    if n > 0 {
      PrefixSum(events, m, n - 1);
    }
  }

  lemma RoomInFirst(cfg: Config, c: Chain, events: seq<Event>, e: Event, ts: int)
    requires Lone(cfg, c, events, ts) && UniqueIds(events + [e]) && |events| < cfg.maxBlockEvents
    requires SumBytes(events + [e], |events| + 1) <= cfg.maxBlockBytes
    ensures FindSlot(cfg, events + [e], c.blocks, EventBytes(e), 0) == 0
  {
    hide Valid, EventBytes, UniqueIds;
    var more := events + [e];
    assert more[..|events|] == events;
    PrefixIds(more, |events|, |events|);
    BytesAreSum(more, |events|, |events|);
    PrefixSum(more, |events|, |events|);
    assert Fits(cfg, more, c.blocks[0], EventBytes(e));
  }

  lemma LoneAppend(cfg: Config, c: Chain, events: seq<Event>, e: Event, ts: int)
    requires Lone(cfg, c, events, ts) && Fit(cfg, e) && e.ts == ts && UniqueIds(events + [e])
    requires |events| < cfg.maxBlockEvents && SumBytes(events + [e], |events| + 1) <= cfg.maxBlockBytes
    ensures Lone(cfg, Append(cfg, c, e, ts, ts), events + [e], ts)
  {
    hide Append, Valid, Fit, Settle, EventBytes, FindSlot, PrefixConfirmed, WaitingInOrder;
    var more := events + [e];
    forall i | 0 <= i < |events| ensures events[i].id != e.id {
      assert more[i] == events[i] && more[|events|] == e;
    }
    RoomInFirst(cfg, c, events, e, ts);
    FitJudged(cfg, events, e);
    AppendIs(cfg, c, e, ts, ts);
    UnsettledIs(cfg, c, e, ts);
    AppendValid(cfg, c, e, ts, ts);
    var d := Unsettled(cfg, c, e, ts);
    assert d.blocks == [Put(c.blocks[0], e.id)];
    SettleShape(cfg, d);
    assert Shape(Settle(cfg, d).blocks[0]) == Shape(d.blocks[0]);
    IdsOfAppend(events, e);
    OneBlockOrder(Settle(cfg, d).blocks);
  }

  lemma OneBlockOrder(blocks: seq<Block>)
    requires |blocks| <= 1
    ensures PrefixConfirmed(blocks) && WaitingInOrder(blocks)
  {
  }

  lemma {:induction false} BatchIs(cfg: Config, psz: string, events: seq<Event>, ts: int, n: nat)
    requires Batch(cfg, events, ts) && 1 <= n <= |events|
    ensures Lone(cfg, Run(cfg, Blank(psz), Appends(events), n), events[..n], ts)
  {
    hide Append, Valid, Fit, Lone, Run, SumBytes, EventBytes;
    var e := events[n - 1];
    OneOp(cfg, Blank(psz), Appends(events), n);
    assert e in events;
    if n == 1 {
      OneOp(cfg, Blank(psz), Appends(events), 0);
      FirstLone(cfg, psz, e);
      assert events[..1] == [e];
    } else {
      BatchIs(cfg, psz, events, ts, n - 1);
      assert events[..n - 1] + [e] == events[..n];
      SumRises(events, n, |events|);
      PrefixSum(events, n, n);
      LoneAppend(cfg, Run(cfg, Blank(psz), Appends(events), n - 1), events[..n - 1], e, ts);
    }
  }

  lemma FirstLone(cfg: Config, psz: string, e: Event)
    requires Fit(cfg, e)
    ensures Lone(cfg, Append(cfg, Blank(psz), e, e.ts, e.ts), [e], e.ts)
  {
    hide Append, Valid, Fit;
    FirstStep(cfg, psz, e);
    IdsOfAppend([], e);
    assert [] + [e] == [e];
  }

  /** The whole run: the appends, and one tick two intervals later. */
  function BatchRun(cfg: Config, events: seq<Event>, ts: int): seq<Op> {
    Appends(events) + [TickOp(ts + cfg.interval + cfg.interval)]
  }

  lemma {:induction false} RunPrefix(cfg: Config, c: Chain, ops: seq<Op>, op: Op, n: nat)
    requires n <= |ops|
    ensures Run(cfg, c, ops + [op], n) == Run(cfg, c, ops, n)
  {
    hide Step;
    if n > 0 {
      RunPrefix(cfg, c, ops, op, n - 1);
    }
  }

  lemma RunAndTick(cfg: Config, c: Chain, ops: seq<Op>, now: int)
    ensures var all := ops + [TickOp(now)]; Run(cfg, c, all, |all|) == Tick(cfg, Run(cfg, c, ops, |ops|), now)
  {
    hide Run, Tick;
    RunPrefix(cfg, c, ops, TickOp(now), |ops|);
    OneOp(cfg, c, ops + [TickOp(now)], |ops| + 1);
  }

  /** All events in genesis, which is confirmed, as is the block after it. */
  lemma BatchWaits(cfg: Config, psz: string, events: seq<Event>, ts: int)
    requires Batch(cfg, events, ts)
    ensures var ops := BatchRun(cfg, events, ts); var r := Run(cfg, Blank(psz), ops, |ops|);
            && Valid(cfg, r) && r.events == events && |r.blocks| == 3 && r.blocks[0].eventIds == EventIds(events, |events|)
            && r.blocks[0].confirmed && r.blocks[1].confirmed
  {
    hide Run, Tick, Valid, Fit, Behind, Batch;
    var now := ts + cfg.interval + cfg.interval;
    var c := Run(cfg, Blank(psz), Appends(events), |events|);
    RunAndTick(cfg, Blank(psz), Appends(events), now);
    assert events != [] by { BatchSome(cfg, events, ts); }
    BatchIs(cfg, psz, events, ts, |events|);
    assert events[..|events|] == events;
    TwoBehind(cfg, c.blocks, now);
    AfterTwo(ts, cfg.interval);
    TickConfirms(cfg, c, now);
    TickOpens(cfg, c, now);
    TickValid(cfg, c, now);
    TickEvents(cfg, c, now);
  }

  lemma BatchSome(cfg: Config, events: seq<Event>, ts: int)
    requires Batch(cfg, events, ts)
    ensures events != []
  {
  }

  /** If the events come as claims, transfers and the rest, and by id in each group, they replay as they are. */
  lemma BatchOrdered(cfg: Config, psz: string, events: seq<Event>, s: seq<Event>, ts: int)
    requires Batch(cfg, events, ts) && multiset(s) == multiset(events)
    requires forall i, j | 0 <= i < j < |s| :: Precedes(s[i], s[j])
    ensures var ops := BatchRun(cfg, events, ts); Ordered(Run(cfg, Blank(psz), ops, |ops|)) == s
  {
    hide Run, Valid, Batch, Precedes, Ordered;
    BatchWaits(cfg, psz, events, ts);
    var ops := BatchRun(cfg, events, ts);
    var r := Run(cfg, Blank(psz), ops, |ops|);
    assert Placed(cfg, r) by { ValidIsPlaced(cfg, r); }
    forall i, j, p, q | 0 <= i < j < |s| && LiesIn(r, s[i], p) && LiesIn(r, s[j], q) ensures p == q == 0 {
      InGenesis(cfg, r, events, s, i, p);
      InGenesis(cfg, r, events, s, j, q);
    }
    ReplayIsInOrder(cfg, r, s);
  }

  lemma ValidIsPlaced(cfg: Config, c: Chain)
    requires Valid(cfg, c)
    ensures Placed(cfg, c)
  {
  }

  lemma InGenesis(cfg: Config, c: Chain, events: seq<Event>, s: seq<Event>, i: nat, p: nat)
    requires Placed(cfg, c) && c.events == events && c.blocks != [] && c.blocks[0].eventIds == EventIds(events, |events|)
    requires multiset(s) == multiset(events) && i < |s| && LiesIn(c, s[i], p)
    ensures p == 0
  {
    hide Placed;
    assert s[i] in multiset(s);
    var k :| 0 <= k < |events| && events[k] == s[i];
    assert EventIds(events, |events|)[k] == s[i].id;
    OneBlock(cfg, c, 0, p, s[i].id);
  }
}
