/** Stores after one or two appends: small runs in full, down to the blocks, the genesis text and the replay order of the events. */
module SmallRuns {
  import opened Types
  import opened Text
  import opened Merkle
  import opened Sorting
  import opened Timeline
  import opened Invariant
  import opened Preservation
  import opened History
  import opened Replay
  import opened Growth

  /** A store nothing has been written to. */
  function Blank(psz: string): Chain { Chain([], [], psz) }

  /** An event that passes the checks of `append_event` at its own time, and fits a block. */
  predicate Fit(cfg: Config, e: Event) {
    e.id != "" && e.payload != "" && e.signature != "" && |e.payload| <= cfg.maxEventBytes && EventBytes(e) <= cfg.maxBlockBytes
  }

  /** Appends an event while the clock shows the event's own time. */
  function AppendAt(e: Event): Op { AppendOp(e, e.ts, e.ts) }

  lemma FitJudged(cfg: Config, events: seq<Event>, e: Event)
    requires Fit(cfg, e) && !HasEvent(events, e.id)
    ensures Judge(cfg, events, e, e.ts).Appended?
  {
  }

  lemma OneOp(cfg: Config, c: Chain, ops: seq<Op>, n: nat)
    requires n <= |ops|
    ensures Run(cfg, c, ops, n) == if n == 0 then c else Step(cfg, Run(cfg, c, ops, n - 1), ops[n - 1])
  {
  }

  lemma TwoOps(cfg: Config, c: Chain, a: Op, b: Op)
    ensures Run(cfg, c, [a], |[a]|) == Step(cfg, c, a)
    ensures Run(cfg, c, [a, b], |[a, b]|) == Step(cfg, Step(cfg, c, a), b)
  {
    hide Run, Step;
    OneOp(cfg, c, [a], 0);
    OneOp(cfg, c, [a], 1);
    OneOp(cfg, c, [a, b], 0);
    OneOp(cfg, c, [a, b], 1);
    OneOp(cfg, c, [a, b], 2);
  }

  function GenesisText(cfg: Config, psz: string, ts: int): (s: string)
    ensures s != ""
  {
    if psz == "" then DefaultPsz(cfg, ts) else psz
  }

  lemma {:induction false} RelinkedPsz(cfg: Config, payloads: map<string, string>, blocks: seq<Block>, n: nat, psz: string)
    requires n <= |blocks| && forall i | 0 <= i < n :: blocks[i].index == 0 ==> blocks[i].psz != ""
    ensures forall i | 0 <= i < n :: Relinked(cfg, payloads, blocks, n, psz).0[i].psz == blocks[i].psz
  {
    hide Root, Leaves, Parts, Join, DigestText;
    if n > 0 {
      RelinkedPsz(cfg, payloads, blocks, n - 1, psz);
    }
  }

  /** Settling leaves genesis texts that are there. */
  lemma SettlePsz(cfg: Config, d: Chain)
    requires forall i | 0 <= i < |d.blocks| :: d.blocks[i].index == 0 ==> d.blocks[i].psz != ""
    ensures |Settle(cfg, d).blocks| == |d.blocks| && forall i | 0 <= i < |d.blocks| :: Settle(cfg, d).blocks[i].psz == d.blocks[i].psz
  {
    hide Relinked, PayloadHashes;
    RelinkedPsz(cfg, Payloads(cfg, d.events), d.blocks, |d.blocks|, d.psz);
  }

  /** The chain before hashing, after the first event. */
  lemma FirstPlaced(cfg: Config, psz: string, e: Event)
    requires Fit(cfg, e)
    ensures var c := Blank(psz); var r := Assign(cfg, c.(events := [e]));
            && r.events == [e] && |r.blocks| == 1 && r.blocks[0].index == 0 && r.blocks[0].psz == GenesisText(cfg, psz, e.ts)
            && r.blocks[0].eventIds == [e.id] && r.blocks[0].openedUnix == e.ts && !r.blocks[0].confirmed
  {
    hide EventBytes;
    var c := Blank(psz);
    assert [] + [e] == [e];
    AssignFresh(cfg, c, e);
    var c2 := EnsureGenesis(cfg, c.(events := [e]), e.ts);
    assert c2.blocks[0].eventIds == [] && BlockBytes([e], c2.blocks[0].eventIds, |c2.blocks[0].eventIds|) == 0;
    assert Fits(cfg, [e], c2.blocks[0], EventBytes(e));
  }

  /** One append to a new store: one open block that holds the event. */
  lemma FirstStep(cfg: Config, psz: string, e: Event)
    requires Fit(cfg, e)
    ensures var r := Append(cfg, Blank(psz), e, e.ts, e.ts);
            && Settled(cfg, r) && r.events == [e] && |r.blocks| == 1
            && r.blocks[0].eventIds == [e.id] && r.blocks[0].openedUnix == e.ts && !r.blocks[0].confirmed
            && r.blocks[0].index == 0 && r.blocks[0].psz == GenesisText(cfg, psz, e.ts)
  {
    hide Assign, Settle, Place, Valid, EventBytes;
    var c := Blank(psz);
    NewValid(cfg, c);
    FitJudged(cfg, c.events, e);
    FirstAppend(cfg, c, e, e.ts, e.ts);
    AppendValid(cfg, c, e, e.ts, e.ts);
    FirstPlaced(cfg, psz, e);
    assert [] + [e] == [e];
    var d := EnsureSlots(cfg, Assign(cfg, c.(events := [e])), e.ts);
    assert d.blocks == Assign(cfg, c.(events := [e])).blocks;
    SettleShape(cfg, d);
    assert Shape(Settle(cfg, d).blocks[0]) == Shape(d.blocks[0]);
    SettlePsz(cfg, d);
  }

  /** Two appends to a new store: a valid chain with both events and without confirmed blocks. */
  lemma SecondStep(cfg: Config, psz: string, a: Event, b: Event)
    requires Fit(cfg, a) && Fit(cfg, b) && a.id != b.id
    ensures var c := Append(cfg, Blank(psz), a, a.ts, a.ts); var r := Append(cfg, c, b, b.ts, b.ts);
            && Valid(cfg, r) && r.events == [a, b] && r.blocks != []
            && Position(IndexOf(r.blocks), a.id) == 0
            && forall i | 0 <= i < |r.blocks| :: !r.blocks[i].confirmed
  {
    hide Append, Valid, Extends, Fit, Position, IndexUpTo;
    FirstStep(cfg, psz, a);
    var c := Append(cfg, Blank(psz), a, a.ts, a.ts);
    assert Judge(cfg, c.events, b, b.ts).Appended? by { FitJudged(cfg, c.events, b); }
    AppendExtends(cfg, c, b, b.ts, b.ts);
    var r := Append(cfg, c, b, b.ts, b.ts);
    KeepsFirst(cfg, c, r, a.id);
    assert [a] + [b] == [a, b];
  }

  /** Two events of one time: no slot opens, so there are at most two blocks, all opened at that time. */
  lemma TiedStep(cfg: Config, psz: string, a: Event, b: Event)
    requires Fit(cfg, a) && Fit(cfg, b) && a.id != b.id && a.ts == b.ts
    ensures var r := Append(cfg, Append(cfg, Blank(psz), a, a.ts, a.ts), b, b.ts, b.ts);
            && |r.blocks| <= 2
            && forall i | 0 <= i < |r.blocks| ::
                 r.blocks[i].index == i && r.blocks[i].openedUnix == a.ts &&
                 r.blocks[i].psz == if i == 0 then GenesisText(cfg, psz, a.ts) else ""
  {
    hide Append, Valid, Fit, Settle, BlockBytes, EventBytes, GenesisText, FindSlot;
    FirstStep(cfg, psz, a);
    var c := Append(cfg, Blank(psz), a, a.ts, a.ts);
    FitJudged(cfg, c.events, b);
    AppendIs(cfg, c, b, b.ts, b.ts);
    UnsettledIs(cfg, c, b, b.ts);
    var d := Unsettled(cfg, c, b, b.ts);
    assert d.blocks == Place(cfg, c.events + [b], c.blocks, b);
    SettleShape(cfg, d);
    SettlePsz(cfg, d);
    var r := Settle(cfg, d);
    forall i | 0 <= i < |d.blocks| ensures r.blocks[i].index == d.blocks[i].index && r.blocks[i].openedUnix == d.blocks[i].openedUnix {
      assert Shape(r.blocks[i]) == Shape(d.blocks[i]);
    }
  }

  lemma AppendIs(cfg: Config, c: Chain, e: Event, now: int, later: int)
    requires Judge(cfg, c.events, e, now).Appended?
    ensures Append(cfg, c, e, now, later) == Settle(cfg, Unsettled(cfg, c, e, later))
  {
    hide Settle, Assign, EnsureSlots;
  }

  lemma KeepsFirst(cfg: Config, c: Chain, r: Chain, id: string)
    requires Valid(cfg, r) && Extends(c.blocks, r.blocks) && |c.blocks| == 1 && !c.blocks[0].confirmed
    requires id in c.blocks[0].eventIds
    ensures Position(IndexOf(r.blocks), id) == 0 && forall i | 0 <= i < |r.blocks| :: !r.blocks[i].confirmed
  {
    hide Placed, Linked, Position, IndexUpTo;
    PositionIs(cfg, r, 0, id);
  }

  /** Two events in a valid chain, the first one at the start of the replay. */
  lemma TwoOrdered(c: Chain, a: Event, b: Event)
    requires c.events == [a, b] && Before(IndexOf(c.blocks), a, b)
    ensures Ordered(c) == [a, b]
  {
    hide Before, IndexUpTo;
    var less := ByReplay(IndexOf(c.blocks));
    var one := [b];
    assert c.events[1..] == one && one[1..] == [];
    assert Sort(less, one) == one;
    assert Sort(less, c.events) == Insert(less, a, one);
  }

  /** Two events of one time and priority replay in the order of their ids, over the blocks and over no blocks. */
  lemma TiedOrder(cfg: Config, psz: string, a: Event, b: Event)
    requires Fit(cfg, a) && Fit(cfg, b) && a.ts == b.ts && Priority(a.kind) == Priority(b.kind) && LexLess(a.id, b.id)
    ensures var r := Append(cfg, Append(cfg, Blank(psz), a, a.ts, a.ts), b, b.ts, b.ts);
            Valid(cfg, r) && r.blocks != [] && r.events == [a, b] && Ordered(r) == [a, b]
    ensures forall text :: Ordered(Chain([a, b], [], text)) == [a, b]
  {
    hide Append, Valid, Fit, IndexUpTo;
    LexTotal(a.id, b.id);
    SecondStep(cfg, psz, a, b);
    TwoOrdered(Append(cfg, Append(cfg, Blank(psz), a, a.ts, a.ts), b, b.ts, b.ts), a, b);
    forall text ensures Ordered(Chain([a, b], [], text)) == [a, b] {
      assert IndexOf([]) == map[] by { NothingIndexed(); }
      TwoOrdered(Chain([a, b], [], text), a, b);
    }
  }

  lemma NothingIndexed()
    ensures IndexOf([]) == map[]
  {
  }

  /** A second event that fits beside the first one shares its block. */
  lemma SharedBlock(cfg: Config, psz: string, a: Event, b: Event)
    requires Fit(cfg, a) && Fit(cfg, b) && a.id != b.id && cfg.maxBlockEvents >= 2
    requires EventBytes(a) + EventBytes(b) <= cfg.maxBlockBytes
    ensures var c := Append(cfg, Append(cfg, Blank(psz), a, a.ts, a.ts), b, b.ts, b.ts);
            Position(IndexOf(c.blocks), a.id) == 0 && Position(IndexOf(c.blocks), b.id) == 0
  {
    hide Append, Valid, Fit, IndexUpTo, EventBytes, Position, Extends, FindSlot;
    SecondStep(cfg, psz, a, b);
    FirstStep(cfg, psz, a);
    var c1 := Append(cfg, Blank(psz), a, a.ts, a.ts);
    FitJudged(cfg, c1.events, b);
    AppendExtends(cfg, c1, b, b.ts, b.ts);
    RoomBeside(cfg, c1, a, b);
    var c := Append(cfg, c1, b, b.ts, b.ts);
    InFirst(cfg, c, b.id);
  }

  lemma InFirst(cfg: Config, c: Chain, id: string)
    requires Valid(cfg, c) && Holds(c.blocks, 0, id)
    ensures Position(IndexOf(c.blocks), id) == 0
  {
    hide Placed, Linked, Position, IndexUpTo;
    PositionIs(cfg, c, 0, id);
  }

  lemma RoomBeside(cfg: Config, c: Chain, a: Event, b: Event)
    requires |c.blocks| == 1 && c.blocks[0].eventIds == [a.id] && !c.blocks[0].confirmed && c.events == [a]
    requires a.id != b.id && cfg.maxBlockEvents >= 2 && EventBytes(a) + EventBytes(b) <= cfg.maxBlockBytes
    ensures FindSlot(cfg, c.events + [b], c.blocks, EventBytes(b), 0) == 0
  {
    hide EventBytes;
    var events := c.events + [b];
    assert UniqueIds(events);
    IdBytesOf(events, 0);
    assert events[0] == a;
    var ids := c.blocks[0].eventIds;
    assert BlockBytes(events, ids, 0) == 0;
    assert BlockBytes(events, ids, |ids|) == BlockBytes(events, ids, 0) + IdBytes(events, ids[0]);
    assert Fits(cfg, events, c.blocks[0], EventBytes(b));
  }
}
