/** What the hashes of the chain leave open. */
module Unbound {
  import opened Types
  import opened Text
  import opened Merkle
  import opened Sha256
  import opened Timeline
  import opened Invariant
  import opened History
  import opened Ledger
  import opened Replay
  import opened Producer
  import opened Binding
  import opened SmallRuns
  import opened Checkpoint
  import opened Sorting
  import opened Incidents

  /** The same id, payload and signature; kind, author and time may differ. */
  predicate SameText(a: Event, b: Event) { a.id == b.id && a.payload == b.payload && a.signature == b.signature }

  predicate SameTexts(a: seq<Event>, b: seq<Event>) { |a| == |b| && forall i | 0 <= i < |a| :: SameText(a[i], b[i]) }

  lemma {:induction false} SamePayloads(h: HashFn, a: seq<Event>, b: seq<Event>, n: nat)
    requires SameTexts(a, b) && n <= |a|
    ensures PayloadHashes(h, a, n) == PayloadHashes(h, b, n) && EventIds(a, n) == EventIds(b, n)
  {
    if n > 0 {
      SamePayloads(h, a, b, n - 1);
    }
  }

  lemma {:induction false} SameFind(a: seq<Event>, b: seq<Event>, id: string, i: nat)
    requires SameTexts(a, b) && i <= |a|
    ensures FindEvent(a, id, i) == FindEvent(b, id, i)
    decreases |a| - i
  {
    if i < |a| && a[i].id != id {
      SameFind(a, b, id, i + 1);
    }
  }

  lemma {:induction false} SameBytes(a: seq<Event>, b: seq<Event>, ids: seq<string>, n: nat)
    requires SameTexts(a, b) && n <= |ids|
    ensures BlockBytes(a, ids, n) == BlockBytes(b, ids, n)
  {
    if n > 0 {
      SameBytes(a, b, ids, n - 1);
      SameFind(a, b, ids[n - 1], 0);
    }
  }

  /** Replacing kinds, authors and times leaves a valid chain valid, with every block and hash as it was. */
  lemma HashesMissKinds(cfg: Config, c: Chain, events: seq<Event>)
    requires Valid(cfg, c) && SameTexts(c.events, events)
    ensures Valid(cfg, c.(events := events))
  {
    hide Linked, BlockBytes, IdBag;
    SamePayloads(cfg.h, c.events, events, |events|);
    forall i | 0 <= i < |c.blocks| ensures WithinLimits(cfg, events, c.blocks[i]) {
      assert WithinLimits(cfg, c.events, c.blocks[i]);
      SameBytes(c.events, events, c.blocks[i].eventIds, |c.blocks[i].eventIds|);
    }
  }

  // ----- runs

  /** The same text, and the same time. */
  predicate Alike(a: Event, b: Event) { SameText(a, b) && a.ts == b.ts }

  predicate AlikeEvents(a: seq<Event>, b: seq<Event>) { |a| == |b| && forall i | 0 <= i < |a| :: Alike(a[i], b[i]) }

  /** One timeline, over events that may differ in kind and author. */
  predicate OneTimeline(c: Chain, d: Chain) { c.blocks == d.blocks && c.psz == d.psz && AlikeEvents(c.events, d.events) }

  predicate AlikeOp(a: Op, b: Op) {
    a == b || (a.AppendOp? && b.AppendOp? && Alike(a.e, b.e) && a.now == b.now && a.later == b.later)
  }

  predicate AlikeOps(a: seq<Op>, b: seq<Op>) { |a| == |b| && forall i | 0 <= i < |a| :: AlikeOp(a[i], b[i]) }

  lemma {:induction false} AlikeSlot(cfg: Config, a: seq<Event>, b: seq<Event>, blocks: seq<Block>, bytes: nat, i: nat)
    requires SameTexts(a, b) && i <= |blocks|
    ensures FindSlot(cfg, a, blocks, bytes, i) == FindSlot(cfg, b, blocks, bytes, i)
    decreases |blocks| - i
  {
    hide BlockBytes;
    if i < |blocks| {
      SameBytes(a, b, blocks[i].eventIds, |blocks[i].eventIds|);
      AlikeSlot(cfg, a, b, blocks, bytes, i + 1);
    }
  }

  lemma AlikePlace(cfg: Config, a: seq<Event>, b: seq<Event>, blocks: seq<Block>, e: Event, f: Event)
    requires SameTexts(a, b) && Alike(e, f)
    ensures Place(cfg, a, blocks, e) == Place(cfg, b, blocks, f)
  {
    hide FindSlot;
    AlikeSlot(cfg, a, b, blocks, EventBytes(e), 0);
  }

  lemma {:induction false} AlikeAssigned(cfg: Config, a: seq<Event>, b: seq<Event>, blocks: seq<Block>, n: nat)
    requires AlikeEvents(a, b) && n <= |a|
    ensures AssignUpTo(cfg, a, blocks, n) == AssignUpTo(cfg, b, blocks, n)
  {
    hide Place;
    if n > 0 {
      AlikeAssigned(cfg, a, b, blocks, n - 1);
      AlikePlace(cfg, a, b, AssignUpTo(cfg, a, blocks, n - 1), a[n - 1], b[n - 1]);
    }
  }

  lemma AlikeAssign(cfg: Config, c: Chain, d: Chain)
    requires OneTimeline(c, d)
    ensures OneTimeline(Assign(cfg, c), Assign(cfg, d))
  {
    hide AssignUpTo;
    if c.events != [] {
      var c', d' := EnsureGenesis(cfg, c, c.events[0].ts), EnsureGenesis(cfg, d, d.events[0].ts);
      AlikeAssigned(cfg, c'.events, d'.events, c'.blocks, |c'.events|);
    }
  }

  lemma AlikeSlots(cfg: Config, c: Chain, d: Chain, now: int)
    requires OneTimeline(c, d)
    ensures OneTimeline(EnsureGenesis(cfg, c, now), EnsureGenesis(cfg, d, now))
    ensures OneTimeline(EnsureSlots(cfg, c, now), EnsureSlots(cfg, d, now))
  {
    hide Slots;
  }

  lemma AlikeSettle(cfg: Config, c: Chain, d: Chain)
    requires OneTimeline(c, d)
    ensures OneTimeline(Settle(cfg, c), Settle(cfg, d))
  {
    hide Relinked, PayloadHashes;
    SamePayloads(cfg.h, c.events, d.events, |c.events|);
  }

  lemma AlikeAppend(cfg: Config, c: Chain, d: Chain, e: Event, f: Event, now: int, later: int)
    requires OneTimeline(c, d) && Alike(e, f)
    ensures OneTimeline(Append(cfg, c, e, now, later), Append(cfg, d, f, now, later))
  {
    hide Assign, EnsureSlots, Settle;
    var c1, d1 := c.(events := c.events + [e]), d.(events := d.events + [f]);
    AlikeAssign(cfg, c1, d1);
    AlikeSlots(cfg, Assign(cfg, c1), Assign(cfg, d1), later);
    AlikeSettle(cfg, EnsureSlots(cfg, Assign(cfg, c1), later), EnsureSlots(cfg, Assign(cfg, d1), later));
  }

  lemma AlikeTick(cfg: Config, c: Chain, d: Chain, now: int)
    requires OneTimeline(c, d)
    ensures OneTimeline(Tick(cfg, c, now), Tick(cfg, d, now))
  {
    hide EnsureGenesis, Assign, EnsureSlots, Settle, ConfirmUpTo;
    AlikeSlots(cfg, c, d, now);
    var c1, d1 := EnsureGenesis(cfg, c, now), EnsureGenesis(cfg, d, now);
    AlikeSlots(cfg, c1, d1, now);
    var c2, d2 := EnsureSlots(cfg, c1, now), EnsureSlots(cfg, d1, now);
    AlikeAssign(cfg, c2, d2);
    AlikeSettle(cfg, Confirm(cfg, Assign(cfg, c2), now), Confirm(cfg, Assign(cfg, d2), now));
  }

  lemma {:induction false} AlikeKept(a: seq<Event>, b: seq<Event>, blocks: seq<Block>, n: nat)
    requires AlikeEvents(a, b) && n <= |a|
    ensures AlikeEvents(KeptEvents(a, blocks, n), KeptEvents(b, blocks, n))
  {
    hide Assigned;
    if n > 0 {
      AlikeKept(a, b, blocks, n - 1);
    }
  }

  lemma AlikeRollback(cfg: Config, c: Chain, d: Chain, now: int)
    requires OneTimeline(c, d)
    ensures OneTimeline(Rollback(cfg, c, now), Rollback(cfg, d, now))
  {
    hide EnsureGenesis, Settle, KeptEvents, RollbackTarget, RetainedUpTo;
    AlikeSlots(cfg, c, d, now);
    var c0, d0 := EnsureGenesis(cfg, c, now), EnsureGenesis(cfg, d, now);
    var target := RollbackTarget(cfg, c0.blocks);
    var retained, rest := RetainedUpTo(c0.blocks, target, |c0.blocks|), Remaining(c0, target, now);
    AlikeKept(c0.events, d0.events, retained, |c0.events|);
    assert rest == Remaining(d0, target, now);
    AlikeSettle(cfg,
      Chain(KeptEvents(c0.events, retained, |c0.events|), rest, c0.psz),
      Chain(KeptEvents(d0.events, retained, |d0.events|), rest, d0.psz));
  }

  lemma AlikeStep(cfg: Config, c: Chain, d: Chain, a: Op, b: Op)
    requires OneTimeline(c, d) && AlikeOp(a, b)
    ensures OneTimeline(Step(cfg, c, a), Step(cfg, d, b))
  {
    hide Append, Tick, Rollback, OneTimeline;
    match a
    case AppendOp(e, now, later) => AlikeAppend(cfg, c, d, e, b.e, now, later);
    case TickOp(now) => AlikeTick(cfg, c, d, now);
    case RollbackOp(now) => AlikeRollback(cfg, c, d, now);
  }

  /**
   * Kinds and authors never reach the timeline: two runs that differ in nothing else have the same blocks, with every
   * hash, and the same genesis text after each operation.
   */
  lemma {:induction false} RunsMissKinds(cfg: Config, c: Chain, d: Chain, a: seq<Op>, b: seq<Op>, n: nat)
    requires OneTimeline(c, d) && AlikeOps(a, b) && n <= |a|
    ensures OneTimeline(Run(cfg, c, a, n), Run(cfg, d, b, n))
  {
    hide Step, OneTimeline, AlikeOp;
    if n > 0 {
      RunsMissKinds(cfg, c, d, a, b, n - 1);
      AlikeStep(cfg, Run(cfg, c, a, n - 1), Run(cfg, d, b, n - 1), a[n - 1], b[n - 1]);
    }
  }

  /** Nor do they reach the consensus hash. */
  lemma {:induction false} ConsensusMissesKinds(h: HashFn, a: seq<Event>, b: seq<Event>)
    requires SameTexts(a, b)
    ensures ConsensusHash(h, a) == ConsensusHash(h, b)
  {
    assert Chunks(h, a, |a|) == Chunks(h, b, |b|);
  }

  // ----- one tip hash, two ledgers

  /**
   * Two stores, each after one append and one tick, with the same blocks, tip hash and consensus hash: one has paid a
   * reward, the other has an empty ledger.
   */
  lemma SameHashesOtherLedger(cfg: Config, econ: Econ, psz: string, id: Identity, b: Block, ts: int) returns (c: Chain, d: Chain)
    requires HexHash(econ.h) && econ.units >= 1 && b.index == 1 && Fit(cfg, FreeClaim(econ, id, b, ts))
    ensures var ops := WaitTwo(cfg, FreeClaim(econ, id, b, ts)); c == Run(cfg, Blank(psz), ops, |ops|)
    ensures var ops := WaitTwo(cfg, FreeClaim(econ, id, b, ts).(kind := ProfileUpdated)); d == Run(cfg, Blank(psz), ops, |ops|)
    ensures Valid(cfg, c) && Valid(cfg, d) && c.blocks == d.blocks && AlikeEvents(c.events, d.events)
    ensures ConsensusHash(cfg.h, c.events) == ConsensusHash(cfg.h, d.events)
    ensures Materialized(econ, c).issued > 0 && Materialized(econ, d) == EMPTY
  {
    hide Run, Fit, WaitTwo, FreeClaim, Ordered, Economy, Valid, ExpectedReward, ConfirmedTip;
    var e := FreeClaim(econ, id, b, ts);
    FreeClaimPaid(cfg, econ, psz, id, b, ts);
    c, d := Renamed(cfg, econ, psz, e);
  }

  /** Two stores with the same blocks and the same ledger, that replay different events. */
  lemma SameLedgerOtherReplay(cfg: Config, econ: Econ, psz: string, e: Event) returns (c: Chain, d: Chain)
    requires Fit(cfg, e) && e.kind.KeyRotated?
    ensures var ops := WaitTwo(cfg, e); c == Run(cfg, Blank(psz), ops, |ops|)
    ensures var ops := WaitTwo(cfg, e.(kind := ProfileUpdated)); d == Run(cfg, Blank(psz), ops, |ops|)
    ensures Valid(cfg, c) && Valid(cfg, d) && c.blocks == d.blocks
    ensures Materialized(econ, c) == Materialized(econ, d) == EMPTY && Ordered(c) != Ordered(d)
  {
    hide Run, Fit, WaitTwo, Ordered, Economy, Valid, ConfirmedTip;
    c, d := Renamed(cfg, econ, psz, e);
    NeutralReplay(econ, c, e);
  }

  /** One append and one tick with an event, and with the event turned into a profile update. */
  lemma Renamed(cfg: Config, econ: Econ, psz: string, e: Event) returns (c: Chain, d: Chain)
    requires Fit(cfg, e)
    ensures c == Run(cfg, Blank(psz), WaitTwo(cfg, e), |WaitTwo(cfg, e)|)
    ensures var ops := WaitTwo(cfg, e.(kind := ProfileUpdated)); d == Run(cfg, Blank(psz), ops, |ops|)
    ensures Valid(cfg, c) && Valid(cfg, d) && OneTimeline(c, d)
    ensures c.events == [e] && Ordered(c) == [e] && Ordered(d) == [e.(kind := ProfileUpdated)]
    ensures ConsensusHash(cfg.h, c.events) == ConsensusHash(cfg.h, d.events) && Materialized(econ, d) == EMPTY
  {
    hide Run, Ordered, Economy, Valid, ConfirmedTip, ConsensusHash;
    var f := e.(kind := ProfileUpdated);
    var a, b := WaitTwo(cfg, e), WaitTwo(cfg, f);
    c, d := Run(cfg, Blank(psz), a, |a|), Run(cfg, Blank(psz), b, |b|);
    WaitTwoIs(cfg, psz, e);
    WaitTwoIs(cfg, psz, f);
    RunsMissKinds(cfg, Blank(psz), Blank(psz), a, b, |a|);
    ConsensusMissesKinds(cfg.h, c.events, d.events);
    LoneOrder(c, e);
    NeutralReplay(econ, d, f);
  }

  lemma NeutralReplay(econ: Econ, c: Chain, e: Event)
    requires c.events == [e] && (e.kind.ProfileUpdated? || e.kind.KeyRotated?)
    ensures Ordered(c) == [e] && Materialized(econ, c) == EMPTY
  {
    hide Ordered, Economy, JudgeClaim, JudgeTransfer, JudgePost;
    LoneOrder(c, e);
    LoneEconomy(econ, c.blocks, e);
  }

  // ----- what has to be added

  /** One id, one event in both logs. */
  predicate SameById(a: seq<Event>, b: seq<Event>) { forall x, y | x in a && y in b && x.id == y.id :: x == y }

  lemma SameEvents(cfg: Config, c: Chain, d: Chain)
    requires Placed(cfg, c) && Placed(cfg, d) && c.blocks == d.blocks && SameById(c.events, d.events)
    ensures multiset(c.events) == multiset(d.events)
  {
    hide Limits, IdBag, EventIds;
    assert c.events[..|c.events|] == c.events && d.events[..|d.events|] == d.events;
    forall x: Event ensures multiset(c.events)[x] == multiset(d.events)[x] {
      EventsOnce(c.events, |c.events|, x);
      EventsOnce(d.events, |d.events|, x);
      if x in c.events {
        Shared(cfg, c, d, x);
      }
      if x in d.events {
        Shared(cfg, d, c, x);
      }
    }
  }

  lemma Shared(cfg: Config, c: Chain, d: Chain, x: Event)
    requires Placed(cfg, c) && Placed(cfg, d) && c.blocks == d.blocks && x in c.events
    requires forall y | y in d.events && y.id == x.id :: x == y
    ensures x in d.events
  {
    hide Limits, IdBag, EventIds, UniqueIds;
    var i :| 0 <= i < |c.events| && c.events[i] == x;
    PlacedIds(cfg, c, x.id);
    PlacedIds(cfg, d, x.id);
    var j :| 0 <= j < |d.events| && d.events[j].id == x.id;
    assert d.events[j] in d.events;
  }

  /** What two chains must share, beyond a tip hash, for one replay. */
  predicate SharedRest(c: Chain, d: Chain)
    requires c.blocks != [] && d.blocks != []
  {
    c.blocks[0] == d.blocks[0] &&
    forall x, y | x in c.events && y in d.events && x.id == y.id ::
      x.kind == y.kind && x.author == y.author && x.ts == y.ts && x.signature == y.signature &&
      (x.id in c.blocks[0].eventIds ==> x.payload == y.payload)
  }

  lemma RestFixesReplay(cfg: Config, c: Chain, d: Chain)
    requires Valid(cfg, c) && Valid(cfg, d) && HexHash(cfg.h) && CommaFree(c.events) && CommaFree(d.events)
    requires c.blocks != [] && |c.blocks| == |d.blocks| && Lacks(c.blocks[0].blockHash, '|')
    requires InjectiveOn(cfg.h, HashedFor(cfg, c) + HashedFor(cfg, d))
    requires c.blocks[|c.blocks| - 1].blockHash == d.blocks[|d.blocks| - 1].blockHash
    requires SharedRest(c, d)
    ensures c.blocks == d.blocks && Ordered(c) == Ordered(d)
  {
    hide Linked, Limits, IdBag, EventIds, HexHash, HashedFor, InjectiveOn, CommaFree, Ordered;
    var n := |c.blocks|;
    forall i | 0 <= i < n ensures c.blocks[i] == d.blocks[i] {
      TipBindsHistory(cfg, c, d, n, i);
    }
    forall x, y | x in c.events && y in d.events && x.id == y.id ensures x == y {
      var k :| 0 <= k < |c.events| && c.events[k] == x;
      PlacedIds(cfg, c, x.id);
      var i :| 0 <= i < n && x.id in c.blocks[i].eventIds;
      TipBindsHistory(cfg, c, d, n, i);
    }
    SameEvents(cfg, c, d);
    ArrivalIrrelevant(c, d);
  }

  lemma ReplayFixesRest(c: Chain, d: Chain)
    requires UniqueIds(d.events) && c.blocks == d.blocks && c.blocks != [] && Ordered(c) == Ordered(d)
    ensures SharedRest(c, d)
  {
    hide Sort, IndexUpTo;
    SortBag(ByReplay(IndexOf(c.blocks)), c.events);
    SortBag(ByReplay(IndexOf(d.blocks)), d.events);
    forall x, y | x in c.events && y in d.events && x.id == y.id ensures x == y {
      assert x in multiset(d.events);
      var i :| 0 <= i < |d.events| && d.events[i] == x;
      var j :| 0 <= j < |d.events| && d.events[j] == y;
    }
  }

  /**
   * When a tip hash fixes the replay: of two valid chains with one tip hash, over texts on which the digest function does
   * not collide, the blocks and the replay are the same if and only if the genesis blocks, the kind, author, time and
   * signature of each id, and the payloads in the genesis block are. The ledger then is the same too.
   */
  lemma TipFixesReplay(cfg: Config, econ: Econ, c: Chain, d: Chain)
    requires Valid(cfg, c) && Valid(cfg, d) && HexHash(cfg.h) && CommaFree(c.events) && CommaFree(d.events)
    requires c.blocks != [] && |c.blocks| == |d.blocks| && Lacks(c.blocks[0].blockHash, '|')
    requires InjectiveOn(cfg.h, HashedFor(cfg, c) + HashedFor(cfg, d))
    requires c.blocks[|c.blocks| - 1].blockHash == d.blocks[|d.blocks| - 1].blockHash
    ensures c.blocks == d.blocks && Ordered(c) == Ordered(d) <==> SharedRest(c, d)
    ensures SharedRest(c, d) ==> Materialized(econ, c) == Materialized(econ, d)
  {
    hide Linked, Limits, IdBag, EventIds, HexHash, HashedFor, InjectiveOn, CommaFree, Ordered, Economy, SharedRest;
    if SharedRest(c, d) {
      RestFixesReplay(cfg, c, d);
    }
    if c.blocks == d.blocks && Ordered(c) == Ordered(d) {
      ReplayFixesRest(c, d);
    }
  }
}
