/** Whole runs of the store. */
module History {
  import opened Types
  import opened Timeline
  import opened Invariant
  import opened Preservation
  import opened Checkpoint

  datatype Op =
    | AppendOp(e: Event, now: int, later: int)
    | TickOp(now: int)
    | RollbackOp(now: int)

  function Step(cfg: Config, c: Chain, op: Op): Chain {
    match op
    case AppendOp(e, now, later) => Append(cfg, c, e, now, later)
    case TickOp(now) => Tick(cfg, c, now)
    case RollbackOp(now) => Rollback(cfg, c, now)
  }

  /** The chain after the first `n` operations. */
  function Run(cfg: Config, c: Chain, ops: seq<Op>, n: nat): Chain
    requires n <= |ops|
  {
    if n == 0 then c else Step(cfg, Run(cfg, c, ops, n - 1), ops[n - 1])
  }

  /** A store nothing has been written to. */
  predicate New(c: Chain) { c.events == [] && c.blocks == [] }

  lemma NewValid(cfg: Config, c: Chain)
    requires New(c)
    ensures Valid(cfg, c)
  {
  }

  lemma StepValid(cfg: Config, c: Chain, op: Op)
    requires Valid(cfg, c)
    ensures Valid(cfg, Step(cfg, c, op))
  {
    match op
    case AppendOp(e, now, later) => AppendValid(cfg, c, e, now, later);
    case TickOp(now) => TickValid(cfg, c, now);
    case RollbackOp(now) => RollbackValid(cfg, c, now);
  }

  /** Every chain a run reaches from a valid one is valid. */
  lemma {:induction false} RunValid(cfg: Config, c: Chain, ops: seq<Op>, n: nat)
    requires Valid(cfg, c) && n <= |ops|
    ensures Valid(cfg, Run(cfg, c, ops, n))
  {
    hide Step, Placed, Linked;
    if n > 0 {
      RunValid(cfg, c, ops, n - 1);
      StepValid(cfg, Run(cfg, c, ops, n - 1), ops[n - 1]);
    }
  }

  // ----- confirmed history

  predicate PrefixConfirmed(blocks: seq<Block>) {
    forall i, j | 0 <= i < j < |blocks| && blocks[j].confirmed :: blocks[i].confirmed
  }

  /** A block still waiting for confirmation opened no later than any block after it. */
  predicate WaitingInOrder(blocks: seq<Block>) {
    forall i, j | 0 <= i < j < |blocks| && !blocks[i].confirmed :: blocks[i].openedUnix <= blocks[j].openedUnix
  }

  predicate LastAllows(blocks: seq<Block>, ts: int) {
    blocks == [] || blocks[|blocks| - 1].confirmed || ts >= blocks[|blocks| - 1].openedUnix
  }

  /** An event that needs a new block must not open it before the last block, if that one is still waiting. */
  predicate Timely(cfg: Config, c: Chain, e: Event) {
    LastAllows(c.blocks, e.ts) || FindSlot(cfg, c.events + [e], c.blocks, EventBytes(e), 0) < |c.blocks|
  }

  lemma OrderOfPrefix(a: seq<Block>, b: seq<Block>)
    requires |a| <= |b| && forall i | 0 <= i < |a| :: b[i] == a[i]
    ensures WaitingInOrder(b) ==> WaitingInOrder(a)
  {
    assert forall i, j | 0 <= i < j < |a| :: b[i] == a[i] && b[j] == a[j];
  }

  lemma {:induction false} SlotsExtend(cfg: Config, blocks: seq<Block>, now: int, budget: nat)
    ensures var r := Slots(cfg, blocks, now, budget);
            && (forall i | 0 <= i < |blocks| :: r[i] == blocks[i])
            && (forall i | |blocks| <= i < |r| :: !r[i].confirmed)
            && (WaitingInOrder(blocks) <==> WaitingInOrder(r))
    decreases budget
  {
    if !(blocks == [] || now - blocks[|blocks| - 1].openedUnix < cfg.interval || budget == 0) {
      var last := blocks[|blocks| - 1];
      var more := blocks + [EmptyBlock(last.index + 1, last.openedUnix + cfg.interval)];
      SlotsExtend(cfg, more, now, budget - 1);
      OrderOfPrefix(blocks, more);
    }
  }

  lemma PlaceExtends(cfg: Config, events: seq<Event>, blocks: seq<Block>, e: Event)
    ensures var r := Place(cfg, events, blocks, e);
            && |blocks| <= |r|
            && (forall i | |blocks| <= i < |r| :: !r[i].confirmed)
            && (forall i | 0 <= i < |blocks| :: r[i].confirmed == blocks[i].confirmed)
            && (forall i | 0 <= i < |blocks| && blocks[i].confirmed :: r[i] == blocks[i])
    ensures PrefixConfirmed(blocks) && WaitingInOrder(blocks) ==>
            (WaitingInOrder(Place(cfg, events, blocks, e)) <==>
             LastAllows(blocks, e.ts) || FindSlot(cfg, events, blocks, EventBytes(e), 0) < |blocks|)
  {
    hide BlockBytes, EventBytes;
    var k := FindSlot(cfg, events, blocks, EventBytes(e), 0);
    var r := Place(cfg, events, blocks, e);
    if k == |blocks| && blocks != [] && WaitingInOrder(r) && !blocks[k - 1].confirmed {
      assert r[k - 1].openedUnix <= r[k].openedUnix;
    }
  }

  /** The chain an append hands to the hashing step. */
  function Unsettled(cfg: Config, c: Chain, e: Event, later: int): Chain {
    EnsureSlots(cfg, Assign(cfg, c.(events := c.events + [e])), later)
  }

  /** What an append does to the blocks before hashing, on a valid chain that has blocks. */
  lemma UnsettledIs(cfg: Config, c: Chain, e: Event, later: int)
    requires Valid(cfg, c) && c.blocks != [] && !HasEvent(c.events, e.id)
    ensures var events := c.events + [e];
            Unsettled(cfg, c, e, later) ==
              Chain(events, Slots(cfg, Place(cfg, events, c.blocks, e), later, MAX_RESERVE_PER_CHECK), c.psz)
  {
    hide Place, Slots, Sealed, PayloadHashes, Limits, IdBag;
    AllAssigned(cfg, c);
    PlacedIds(cfg, c, e.id);
    AssignFresh(cfg, c, e);
    FrontPsz(cfg, c, e, later);
  }

  lemma FrontPsz(cfg: Config, c: Chain, e: Event, now: int)
    requires Valid(cfg, c) && c.blocks != []
    ensures forall events :: EnsureGenesis(cfg, c.(events := events), now) == c.(events := events)
    ensures var events := c.events + [e]; var c1 := c.(events := events);
            EnsureGenesis(cfg, c1, c1.events[0].ts) == c1
    ensures var placed := c.(events := c.events + [e], blocks := Place(cfg, c.events + [e], c.blocks, e));
            EnsureGenesis(cfg, placed, now) == placed
  {
    hide Slots, Sealed, PayloadHashes, Limits, IdBag, BlockBytes, EventBytes;
    assert SealedAt(cfg, Payloads(cfg, c.events), c.blocks, 0);
    var placed := Place(cfg, c.events + [e], c.blocks, e);
    assert placed[0].psz == c.blocks[0].psz;
  }

  /** How far the leading confirmed blocks reach. */
  function ConfirmedCount(blocks: seq<Block>, i: nat): (n: nat)
    requires i <= |blocks|
    ensures i <= n <= |blocks|
    ensures forall j | i <= j < n :: blocks[j].confirmed
    ensures n < |blocks| ==> !blocks[n].confirmed
    decreases |blocks| - i
  {
    if i == |blocks| || !blocks[i].confirmed then i else ConfirmedCount(blocks, i + 1)
  }

  /** Leading blocks that did not change are still sealed once another event has been added. */
  lemma PrefixSealed(cfg: Config, c: Chain, events: seq<Event>, blocks: seq<Block>, k: nat)
    requires Valid(cfg, c) && k <= |c.blocks| && k <= |blocks|
    requires forall i | 0 <= i < k :: blocks[i] == c.blocks[i]
    requires events == c.events || exists e :: events == c.events + [e] && !HasEvent(c.events, e.id)
    ensures forall i | 0 <= i < k :: SealedAt(cfg, Payloads(cfg, events), blocks, i)
  {
    hide Sealed, PayloadHashes, Limits, IdBag;
    forall i | 0 <= i < k ensures SealedAt(cfg, Payloads(cfg, events), blocks, i) {
      assert SealedAt(cfg, Payloads(cfg, c.events), c.blocks, i);
      assert PrevHash(blocks, i) == PrevHash(c.blocks, i);
      if events != c.events {
        var e :| events == c.events + [e] && !HasEvent(c.events, e.id);
        forall id | id in blocks[i].eventIds
          ensures Field(Payloads(cfg, events), id, "missing") == Field(Payloads(cfg, c.events), id, "missing")
        {
          assert Assigned(c.blocks, id);
          PlacedIds(cfg, c, id);
          PayloadsGrow(cfg, c.events, e, id);
        }
      }
      SealedAgree(cfg, Payloads(cfg, events), Payloads(cfg, c.events), blocks, i);
    }
  }

  lemma PayloadsGrow(cfg: Config, events: seq<Event>, e: Event, id: string)
    requires HasEvent(events, id) && !HasEvent(events, e.id)
    ensures Field(Payloads(cfg, events + [e]), id, "missing") == Field(Payloads(cfg, events), id, "missing")
  {
    PayloadsAppend(cfg.h, events, e, |events|);
  }

  /** Settling keeps the leading confirmed blocks of a chain it started from. */
  lemma SettleKeepsPrefix(cfg: Config, c: Chain, d: Chain)
    requires Valid(cfg, c) && PrefixConfirmed(c.blocks) && |c.blocks| <= |d.blocks|
    requires forall i | 0 <= i < |c.blocks| && c.blocks[i].confirmed :: d.blocks[i] == c.blocks[i]
    requires d.events == c.events || exists e :: d.events == c.events + [e] && !HasEvent(c.events, e.id)
    ensures forall i | 0 <= i < |c.blocks| && c.blocks[i].confirmed :: Settle(cfg, d).blocks[i] == c.blocks[i]
  {
    hide Sealed, PayloadHashes, Limits, IdBag, Relinked;
    var k := ConfirmedCount(c.blocks, 0);
    assert forall i | 0 <= i < |c.blocks| && c.blocks[i].confirmed :: i < k;
    PrefixSealed(cfg, c, d.events, d.blocks, k);
    RelinkedKeeps(cfg, Payloads(cfg, d.events), d.blocks, |d.blocks|, k, d.psz);
  }

  lemma SettleShape(cfg: Config, d: Chain)
    ensures |Settle(cfg, d).blocks| == |d.blocks| && Settle(cfg, d).events == d.events
    ensures forall i | 0 <= i < |d.blocks| :: Shape(Settle(cfg, d).blocks[i]) == Shape(d.blocks[i])
    ensures PrefixConfirmed(d.blocks) ==> PrefixConfirmed(Settle(cfg, d).blocks)
    ensures WaitingInOrder(d.blocks) <==> WaitingInOrder(Settle(cfg, d).blocks)
  {
    hide Sealed, PayloadHashes, Relinked;
    RelinkedLinked(cfg, Payloads(cfg, d.events), d.blocks, |d.blocks|, d.psz);
    var r := Settle(cfg, d).blocks;
    forall i | 0 <= i < |r| ensures r[i].confirmed == d.blocks[i].confirmed && r[i].openedUnix == d.blocks[i].openedUnix {
      assert Shape(r[i]) == Shape(d.blocks[i]);
    }
  }

  /** Appending never changes a confirmed block, keeps the confirmed blocks a prefix, and keeps order iff timely. */
  lemma AppendKeepsHistory(cfg: Config, c: Chain, e: Event, now: int, later: int)
    requires Valid(cfg, c) && PrefixConfirmed(c.blocks) && WaitingInOrder(c.blocks) && c.blocks != []
    ensures var r := Append(cfg, c, e, now, later);
            && |c.blocks| <= |r.blocks| && PrefixConfirmed(r.blocks) && c.events <= r.events
            && (forall i | 0 <= i < |c.blocks| && c.blocks[i].confirmed :: r.blocks[i] == c.blocks[i])
            && (WaitingInOrder(r.blocks) <==> Judge(cfg, c.events, e, now).Appended? ==> Timely(cfg, c, e))
  {
    hide Place, Slots, Sealed, PayloadHashes, Limits, IdBag, Relinked, Settle, EventBytes, FindSlot, Assign, EnsureSlots, Positions;
    if Judge(cfg, c.events, e, now).Appended? {
      var events := c.events + [e];
      UnsettledIs(cfg, c, e, later);
      var d := Unsettled(cfg, c, e, later);
      PlaceExtends(cfg, events, c.blocks, e);
      var placed := Place(cfg, events, c.blocks, e);
      SlotsExtend(cfg, placed, later, MAX_RESERVE_PER_CHECK);
      SettleKeepsPrefix(cfg, c, d);
      SettleShape(cfg, d);
    }
  }

  /** The first append to a new store. */
  lemma FirstAppend(cfg: Config, c: Chain, e: Event, now: int, later: int)
    requires Valid(cfg, c) && c.blocks == []
    ensures var r := Append(cfg, c, e, now, later); PrefixConfirmed(r.blocks) && WaitingInOrder(r.blocks) && c.events <= r.events
  {
    hide Slots, Sealed, PayloadHashes, Limits, Relinked, Settle, EventBytes;
    if Judge(cfg, c.events, e, now).Appended? {
      assert |EventIds(c.events, |c.events|)| == |multiset(EventIds(c.events, |c.events|))| == 0;
      var events := c.events + [e];
      AllAssigned(cfg, c);
      AssignFresh(cfg, c, e);
      var c1 := EnsureGenesis(cfg, c.(events := events), e.ts);
      PlaceExtends(cfg, events, c1.blocks, e);
      var placed := Place(cfg, events, c1.blocks, e);
      var c2 := Assign(cfg, c.(events := events));
      assert c2.blocks == placed;
      SlotsExtend(cfg, EnsureGenesis(cfg, c2, later).blocks, later, MAX_RESERVE_PER_CHECK);
      SettleShape(cfg, EnsureSlots(cfg, c2, later));
    }
  }

  // ----- ticks

  ghost predicate AlwaysPrefix(cfg: Config, blocks: seq<Block>) {
    forall now :: PrefixConfirmed(ConfirmUpTo(cfg, blocks, now, |blocks|))
  }

  /** The confirmed blocks stay a prefix at every clock reading exactly when the waiting blocks opened in order. */
  lemma ConfirmsPrefix(cfg: Config, blocks: seq<Block>)
    requires PrefixConfirmed(blocks)
    ensures AlwaysPrefix(cfg, blocks) <==> WaitingInOrder(blocks)
  {
    if AlwaysPrefix(cfg, blocks) {
      forall i, j | 0 <= i < j < |blocks| && !blocks[i].confirmed ensures blocks[i].openedUnix <= blocks[j].openedUnix {
        var now := blocks[j].openedUnix + cfg.interval;
        var r := ConfirmUpTo(cfg, blocks, now, |blocks|);
        assert PrefixConfirmed(r) && r[j].confirmed && r[i].confirmed;
      }
    }
    if WaitingInOrder(blocks) {
      forall now ensures PrefixConfirmed(ConfirmUpTo(cfg, blocks, now, |blocks|)) {
        var r := ConfirmUpTo(cfg, blocks, now, |blocks|);
        assert forall i | 0 <= i < |blocks| :: r[i].confirmed == (blocks[i].confirmed || Due(cfg, blocks[i], now));
      }
    }
  }

  lemma TickIs(cfg: Config, c: Chain, now: int)
    requires Valid(cfg, c) && c.blocks != []
    ensures Tick(cfg, c, now) == Settle(cfg, Confirm(cfg, c.(blocks := Slots(cfg, c.blocks, now, MAX_RESERVE_PER_CHECK)), now))
  {
    hide Slots, Sealed, PayloadHashes, Limits, IdBag, Settle;
    GenesisIdle(cfg, c, now);
    TickSteps(cfg, c, now);
    SlotsExtend(cfg, c.blocks, now, MAX_RESERVE_PER_CHECK);
    assert SealedAt(cfg, Payloads(cfg, c.events), c.blocks, 0);
  }

  /** Ticking never changes a confirmed block and keeps the confirmed blocks a prefix. */
  lemma TickKeepsHistory(cfg: Config, c: Chain, now: int)
    requires Valid(cfg, c) && PrefixConfirmed(c.blocks) && WaitingInOrder(c.blocks) && c.blocks != []
    ensures var r := Tick(cfg, c, now);
            && |c.blocks| <= |r.blocks| && PrefixConfirmed(r.blocks) && WaitingInOrder(r.blocks) && c.events <= r.events
            && (forall i | 0 <= i < |c.blocks| && c.blocks[i].confirmed :: r.blocks[i] == c.blocks[i])
  {
    hide Slots, Sealed, PayloadHashes, Limits, IdBag, Relinked, Settle, Positions;
    TickIs(cfg, c, now);
    SlotsExtend(cfg, c.blocks, now, MAX_RESERVE_PER_CHECK);
    var slots := Slots(cfg, c.blocks, now, MAX_RESERVE_PER_CHECK);
    assert PrefixConfirmed(slots);
    ConfirmsPrefix(cfg, slots);
    var d := Confirm(cfg, c.(blocks := slots), now);
    assert AlwaysPrefix(cfg, slots);
    assert PrefixConfirmed(d.blocks) && WaitingInOrder(d.blocks);
    SettleKeepsPrefix(cfg, c, d);
    SettleShape(cfg, d);
  }

  lemma FirstTick(cfg: Config, c: Chain, now: int)
    requires Valid(cfg, c) && c.blocks == []
    ensures var r := Tick(cfg, c, now); PrefixConfirmed(r.blocks) && WaitingInOrder(r.blocks) && c.events <= r.events
  {
    hide Slots, Sealed, PayloadHashes, Limits, Relinked, Settle;
    assert |EventIds(c.events, |c.events|)| == |multiset(EventIds(c.events, |c.events|))| == 0;
    TickSteps(cfg, c, now);
    var c1 := EnsureGenesis(cfg, c, now);
    SlotsExtend(cfg, EnsureGenesis(cfg, c1, now).blocks, now, MAX_RESERVE_PER_CHECK);
    var c2 := EnsureSlots(cfg, c1, now);
    ConfirmsPrefix(cfg, c2.blocks);
    assert AlwaysPrefix(cfg, c2.blocks);
    var d := Confirm(cfg, c2, now);
    assert WaitingInOrder(d.blocks);
    SettleShape(cfg, d);
  }

  /** An untimely append is where it goes wrong: some clock reading then confirms a block before an earlier one. */
  lemma UntimelyBreaks(cfg: Config, c: Chain, e: Event, now: int, later: int) returns (tick: int)
    requires Settled(cfg, c) && Judge(cfg, c.events, e, now).Appended? && !Timely(cfg, c, e)
    ensures !PrefixConfirmed(Tick(cfg, Append(cfg, c, e, now, later), tick).blocks)
  {
    hide Place, Slots, Sealed, PayloadHashes, Limits, IdBag, Relinked, Settle, EventBytes, Positions, Append, Tick, FindSlot;
    var r := Append(cfg, c, e, now, later);
    AppendKeepsHistory(cfg, c, e, now, later);
    AppendValid(cfg, c, e, now, later);
    var i, j :| 0 <= i < j < |r.blocks| && !r.blocks[i].confirmed && r.blocks[i].openedUnix > r.blocks[j].openedUnix;
    tick := r.blocks[j].openedUnix + cfg.interval;
    TickIs(cfg, r, tick);
    var slots := Slots(cfg, r.blocks, tick, MAX_RESERVE_PER_CHECK);
    SlotsExtend(cfg, r.blocks, tick, MAX_RESERVE_PER_CHECK);
    var d := Confirm(cfg, r.(blocks := slots), tick);
    assert d.blocks[j].confirmed && !d.blocks[i].confirmed;
    SettleShape(cfg, d);
    assert Shape(Settle(cfg, d).blocks[i]) == Shape(d.blocks[i]) && Shape(Settle(cfg, d).blocks[j]) == Shape(d.blocks[j]);
  }

  // ----- runs

  /** Appends and ticks only, every append timely. */
  predicate TimelyRun(cfg: Config, c: Chain, ops: seq<Op>, n: nat)
    requires n <= |ops|
  {
    n == 0 ||
    (TimelyRun(cfg, c, ops, n - 1) &&
     match ops[n - 1] {
       case AppendOp(e, now, later) =>
         var before := Run(cfg, c, ops, n - 1);
         Judge(cfg, before.events, e, now).Appended? ==> Timely(cfg, before, e)
       case TickOp(_) => true
       case RollbackOp(_) => false
     })
  }

  /** A timeline whose confirmed blocks cannot change any more. */
  ghost predicate Settled(cfg: Config, c: Chain) {
    Valid(cfg, c) && PrefixConfirmed(c.blocks) && WaitingInOrder(c.blocks)
  }

  lemma StepKeepsHistory(cfg: Config, c: Chain, op: Op)
    requires Settled(cfg, c) && !op.RollbackOp?
    requires op.AppendOp? && Judge(cfg, c.events, op.e, op.now).Appended? ==> Timely(cfg, c, op.e)
    ensures var r := Step(cfg, c, op);
            && Settled(cfg, r) && |c.blocks| <= |r.blocks| && c.events <= r.events
            && (forall i | 0 <= i < |c.blocks| && c.blocks[i].confirmed :: r.blocks[i] == c.blocks[i])
  {
    hide Append, Tick, Valid, Rollback, Timely;
    StepValid(cfg, c, op);
    match op {
      case AppendOp(e, now, later) =>
        if c.blocks == [] {
          FirstAppend(cfg, c, e, now, later);
        } else {
          AppendKeepsHistory(cfg, c, e, now, later);
        }
      case TickOp(now) =>
        if c.blocks == [] {
          FirstTick(cfg, c, now);
        } else {
          TickKeepsHistory(cfg, c, now);
        }
    }
  }

  /** Over any timely run, every block confirmed at the start is the same record at the end, hashes included. */
  lemma {:induction false} ConfirmedHistoryImmutable(cfg: Config, c: Chain, ops: seq<Op>, n: nat)
    requires Settled(cfg, c) && n <= |ops| && TimelyRun(cfg, c, ops, n)
    ensures var r := Run(cfg, c, ops, n);
            && Settled(cfg, r) && |c.blocks| <= |r.blocks| && c.events <= r.events
            && (forall i | 0 <= i < |c.blocks| && c.blocks[i].confirmed :: r.blocks[i] == c.blocks[i])
  {
    hide Step, Settled, Timely;
    if n > 0 {
      ConfirmedHistoryImmutable(cfg, c, ops, n - 1);
      StepKeepsHistory(cfg, Run(cfg, c, ops, n - 1), ops[n - 1]);
    }
  }
}
