/** The replay order of events, cut and kept. */
module Replay {
  import opened Types
  import opened Text
  import opened Sorting
  import Canonical
  import opened Timeline
  import opened Invariant
  import opened Checkpoint
  import opened Schedule
  import opened Ledger

  // ----- the event-to-block index

  function IndexIds(m: map<string, nat>, ids: seq<string>, pos: nat, n: nat): map<string, nat>
    requires n <= |ids|
  {
    if n == 0 then m else IndexIds(m, ids, pos, n - 1)[ids[n - 1] := pos]
  }

  /** `rebuild_event_to_block_index` over the first `n` blocks. */
  function IndexUpTo(blocks: seq<Block>, n: nat): map<string, nat>
    requires n <= |blocks|
  {
    if n == 0 then map[] else IndexIds(IndexUpTo(blocks, n - 1), blocks[n - 1].eventIds, n - 1, |blocks[n - 1].eventIds|)
  }

  function IndexOf(blocks: seq<Block>): map<string, nat> { IndexUpTo(blocks, |blocks|) }

  lemma {:induction false} IndexIdsFacts(m: map<string, nat>, ids: seq<string>, pos: nat, n: nat, id: string)
    requires n <= |ids|
    ensures var r := IndexIds(m, ids, pos, n);
            if id in ids[..n] then id in r && r[id] == pos
            else (id in r <==> id in m) && (id in m ==> r[id] == m[id])
  {
    if n > 0 {
      IndexIdsFacts(m, ids, pos, n - 1, id);
      assert ids[..n] == ids[..n - 1] + [ids[n - 1]];
    }
  }

  /** The index names the last block that holds the id, and only ids in blocks. */
  lemma {:induction false} IndexFacts(blocks: seq<Block>, n: nat, id: string)
    requires n <= |blocks|
    ensures var r := IndexUpTo(blocks, n);
            && (id in r <==> exists i | 0 <= i < n :: id in blocks[i].eventIds)
            && (id in r ==> r[id] < n && id in blocks[r[id]].eventIds && forall i | r[id] < i < n :: id !in blocks[i].eventIds)
  {
    if n > 0 {
      var ids := blocks[n - 1].eventIds;
      IndexFacts(blocks, n - 1, id);
      IndexIdsFacts(IndexUpTo(blocks, n - 1), ids, n - 1, |ids|, id);
      assert ids[..|ids|] == ids;
    }
  }

  // ----- the comparator

  function Position(index: map<string, nat>, id: string): nat { if id in index then index[id] else U64_MAX }

  function Priority(kind: EventKind): nat {
    match kind
    case BlockRewardClaimed => 0
    case RewardTransferred => 1
    case _ => 2
  }

  predicate Before(index: map<string, nat>, a: Event, b: Event) {
    var p, q := Position(index, a.id), Position(index, b.id);
    if p != q then p < q
    else if a.ts != b.ts then a.ts < b.ts
    else if Priority(a.kind) != Priority(b.kind) then Priority(a.kind) < Priority(b.kind)
    else LexLess(a.id, b.id)
  }

  function ByReplay(index: map<string, nat>): (Event, Event) -> bool { (a: Event, b: Event) => Before(index, a, b) }

  /** The events in replay order. */
  function Ordered(c: Chain): seq<Event> { Sort(ByReplay(IndexOf(c.blocks)), c.events) }

  lemma SameOrder(c: Chain, d: Chain)
    requires c.events == d.events && c.blocks == d.blocks
    ensures Ordered(c) == Ordered(d)
  {
  }

  lemma BeforeStrict(index: map<string, nat>, a: Event, b: Event, c: Event)
    ensures !Before(index, a, a)
    ensures Before(index, a, b) && Before(index, b, c) ==> Before(index, a, c)
    ensures a.id != b.id ==> Before(index, a, b) || Before(index, b, a)
  {
    LexTotal(a.id, a.id);
    LexTotal(a.id, b.id);
    if LexLess(a.id, b.id) && LexLess(b.id, c.id) {
      LexTransitive(a.id, b.id, c.id);
    }
  }

  /** On events with distinct ids the four-key comparator is a strict total order. */
  lemma ReplayTotal(index: map<string, nat>, events: seq<Event>)
    requires UniqueIds(events)
    ensures TotalOn(ByReplay(index), events)
  {
    hide Before;
    var less := ByReplay(index);
    forall x, y | x in events && y in events ensures x == y || less(x, y) || less(y, x) {
      var i :| 0 <= i < |events| && events[i] == x;
      var j :| 0 <= j < |events| && events[j] == y;
      BeforeStrict(index, x, y, y);
    }
    forall x | x in events ensures !less(x, x) {
      BeforeStrict(index, x, x, x);
    }
    forall x, y, z | x in events && y in events && z in events && less(x, y) && less(y, z) ensures less(x, z) {
      BeforeStrict(index, x, y, z);
    }
  }

  /** Replay does not depend on the order the events arrived in. */
  lemma ArrivalIrrelevant(c: Chain, d: Chain)
    requires UniqueIds(c.events) && multiset(c.events) == multiset(d.events) && c.blocks == d.blocks
    ensures Ordered(c) == Ordered(d)
  {
    ReplayTotal(IndexOf(c.blocks), c.events);
    SortIgnoresArrival(ByReplay(IndexOf(c.blocks)), c.events, d.events);
  }

  lemma SortedOnce(c: Chain, j: nat, i: nat)
    requires UniqueIds(c.events) && j < i < |Ordered(c)|
    ensures Ordered(c)[j] != Ordered(c)[i]
  {
    hide Sort, IndexUpTo;
    var s := Ordered(c);
    SortBag(ByReplay(IndexOf(c.blocks)), c.events);
    assert c.events[..|c.events|] == c.events;
    EventsOnce(c.events, |c.events|, s[i]);
    TwiceIn(s, j, i);
  }

  lemma TwiceIn<T>(s: seq<T>, j: nat, i: nat)
    requires j < i < |s|
    ensures s[j] == s[i] ==> multiset(s)[s[i]] >= 2
  {
    assert s == s[..i] + [s[i]] + s[i + 1..];
    assert s[j] in s[..i];
  }

  lemma {:induction false} EventsOnce(events: seq<Event>, n: nat, e: Event)
    requires UniqueIds(events) && n <= |events|
    ensures multiset(events[..n])[e] <= 1
    ensures multiset(events[..n])[e] == 1 ==> e in events[..n]
  {
    if n > 0 {
      EventsOnce(events, n - 1, e);
      assert events[..n] == events[..n - 1] + [events[n - 1]];
      if events[n - 1] == e {
        assert e !in events[..n - 1];
      }
    }
  }

  // ----- the consensus hash

  function ByText(): (string, string) -> bool { (a: string, b: string) => LexLess(a, b) }

  function Chunks(h: HashFn, events: seq<Event>, n: nat): (chunks: seq<string>)
    requires n <= |events|
    ensures |chunks| == n && forall i | 0 <= i < n :: chunks[i] == events[i].id + ":" + h(events[i].payload)
  {
    if n == 0 then [] else Chunks(h, events, n - 1) + [events[n - 1].id + ":" + h(events[n - 1].payload)]
  }

  /** `consensus_hash`. */
  function ConsensusHash(h: HashFn, events: seq<Event>): string {
    var sorted := Sort(ByText(), Chunks(h, events, |events|));
    h(EndedLines(sorted, |sorted|))
  }

  lemma TextTotal(texts: seq<string>)
    ensures TotalOn(ByText(), texts)
  {
    forall x, y ensures x == y || LexLess(x, y) || LexLess(y, x) {
      LexTotal(x, y);
    }
    forall x ensures !LexLess(x, x) {
      LexTotal(x, x);
    }
    forall x, y, z | LexLess(x, y) && LexLess(y, z) ensures LexLess(x, z) {
      LexTransitive(x, y, z);
    }
  }

  lemma {:induction false} ChunkBag(h: HashFn, a: seq<Event>, b: seq<Event>)
    requires multiset(a) == multiset(b)
    ensures multiset(Chunks(h, a, |a|)) == multiset(Chunks(h, b, |b|))
    decreases |a|
  {
    SameBag(a, b);
    if a != [] {
      var last := a[|a| - 1];
      assert last in b;
      var j :| 0 <= j < |b| && b[j] == last;
      var i := |a| - 1;
      BagWithout(a, i);
      BagWithout(b, j);
      ChunkBag(h, a[..i] + a[i + 1..], b[..j] + b[j + 1..]);
      ChunksWithout(h, a, i);
      ChunksWithout(h, b, j);
    }
  }

  lemma BagWithout<T>(s: seq<T>, j: nat)
    requires j < |s|
    ensures multiset(s) == multiset(s[..j] + s[j + 1..]) + multiset{s[j]}
    ensures multiset(s[..j] + s[j + 1..]) == multiset(s) - multiset{s[j]}
  {
    assert s == s[..j] + [s[j]] + s[j + 1..];
  }

  lemma ChunksWithout(h: HashFn, events: seq<Event>, j: nat)
    requires j < |events|
    ensures var rest := events[..j] + events[j + 1..];
            multiset(Chunks(h, events, |events|)) ==
              multiset(Chunks(h, rest, |rest|)) + multiset{events[j].id + ":" + h(events[j].payload)}
  {
    var rest := events[..j] + events[j + 1..];
    var chunks := Chunks(h, events, |events|);
    assert Chunks(h, rest, |rest|) == chunks[..j] + chunks[j + 1..];
    BagWithout(chunks, j);
  }

  /** So does not the consensus hash, whatever the ids. */
  lemma ConsensusIgnoresArrival(h: HashFn, a: seq<Event>, b: seq<Event>)
    requires multiset(a) == multiset(b)
    ensures ConsensusHash(h, a) == ConsensusHash(h, b)
  {
    ChunkBag(h, a, b);
    TextTotal(Chunks(h, a, |a|));
    SortIgnoresArrival(ByText(), Chunks(h, a, |a|), Chunks(h, b, |b|));
  }

  // ----- cutting the replay

  function DroppedEvents(events: seq<Event>, blocks: seq<Block>, n: nat): seq<Event>
    requires n <= |events|
  {
    if n == 0 then []
    else
      var dropped := DroppedEvents(events, blocks, n - 1);
      if Assigned(blocks, events[n - 1].id) then dropped else dropped + [events[n - 1]]
  }

  lemma {:induction false} KeptOrDropped(events: seq<Event>, blocks: seq<Block>, n: nat)
    requires n <= |events|
    ensures multiset(events[..n]) == multiset(KeptEvents(events, blocks, n)) + multiset(DroppedEvents(events, blocks, n))
  {
    hide Assigned;
    if n > 0 {
      KeptOrDropped(events, blocks, n - 1);
      assert events[..n] == events[..n - 1] + [events[n - 1]];
    }
  }

  lemma {:induction false} DroppedIn(events: seq<Event>, blocks: seq<Block>, n: nat, e: Event)
    requires n <= |events| && e in DroppedEvents(events, blocks, n)
    ensures e in events && !Assigned(blocks, e.id)
  {
    hide Assigned;
    if n > 0 && e in DroppedEvents(events, blocks, n - 1) {
      DroppedIn(events, blocks, n - 1, e);
    }
  }

  /** In a placed chain an assigned id sits at the position of its one block. */
  lemma PositionIs(cfg: Config, c: Chain, i: nat, id: string)
    requires Placed(cfg, c) && i < |c.blocks| && id in c.blocks[i].eventIds
    ensures Position(IndexOf(c.blocks), id) == i
  {
    hide Limits;
    IndexFacts(c.blocks, |c.blocks|, id);
    OneBlock(cfg, c, IndexOf(c.blocks)[id], i, id);
  }

  lemma BlockOf(cfg: Config, c: Chain, e: Event) returns (i: nat)
    requires Placed(cfg, c) && e in c.events
    ensures i < |c.blocks| && e.id in c.blocks[i].eventIds
  {
    var j :| 0 <= j < |c.events| && c.events[j] == e;
    PlacedIds(cfg, c, e.id);
    i :| 0 <= i < |c.blocks| && e.id in c.blocks[i].eventIds;
  }

  lemma KeptPosition(cfg: Config, c: Chain, k: nat, e: Event)
    requires Placed(cfg, c) && k <= |c.blocks| && e in c.events
    ensures Assigned(c.blocks[..k], e.id) <==> Position(IndexOf(c.blocks), e.id) < k
  {
    hide Placed;
    var i := BlockOf(cfg, c, e);
    PositionIs(cfg, c, i, e.id);
    assert i < k ==> e.id in c.blocks[..k][i].eventIds;
    if Assigned(c.blocks[..k], e.id) {
      var j :| 0 <= j < k && e.id in c.blocks[..k][j].eventIds;
      PositionIs(cfg, c, j, e.id);
    }
  }

  lemma {:induction false} IndexOfPrefix(blocks: seq<Block>, k: nat, n: nat)
    requires n <= k <= |blocks|
    ensures IndexUpTo(blocks[..k], n) == IndexUpTo(blocks, n)
  {
    if n > 0 {
      IndexOfPrefix(blocks, k, n - 1);
    }
  }

  /** Below the cut, the index of the shorter chain agrees with the index of the longer one. */
  lemma CutIndex(cfg: Config, c: Chain, k: nat, e: Event)
    requires Placed(cfg, c) && k <= |c.blocks| && Assigned(c.blocks[..k], e.id)
    ensures Position(IndexOf(c.blocks[..k]), e.id) == Position(IndexOf(c.blocks), e.id)
  {
    hide Limits;
    var cut := c.blocks[..k];
    IndexFacts(cut, k, e.id);
    var i := IndexOf(cut)[e.id];
    assert e.id in c.blocks[i].eventIds;
    PositionIs(cfg, c, i, e.id);
  }

  /** The replay of a chain cut after `k` blocks is a prefix of the replay of the whole chain. */
  lemma CutReplay(cfg: Config, c: Chain, k: nat)
    requires Placed(cfg, c) && k <= |c.blocks|
    ensures var kept := KeptEvents(c.events, c.blocks[..k], |c.events|);
            && |kept| <= |Ordered(c)|
            && Ordered(Chain(kept, c.blocks[..k], c.psz)) == Ordered(c)[..|kept|]
  {
    hide Placed, KeptEvents, DroppedEvents, Before, Position;
    var blocks := c.blocks[..k];
    var low, high := KeptEvents(c.events, blocks, |c.events|), DroppedEvents(c.events, blocks, |c.events|);
    var less, less' := ByReplay(IndexOf(c.blocks)), ByReplay(IndexOf(blocks));
    assert c.events[..|c.events|] == c.events;
    KeptOrDropped(c.events, blocks, |c.events|);
    assert UniqueIds(c.events) by { PlacedUnique(cfg, c); }
    ReplayTotal(IndexOf(c.blocks), c.events);
    KeptUnique(c.events, blocks, |c.events|);
    ReplayTotal(IndexOf(c.blocks), low);
    forall x, y | x in low && y in high ensures less(x, y) {
      KeptIn(c.events, blocks, |c.events|, x);
      DroppedIn(c.events, blocks, |c.events|, y);
      KeptPosition(cfg, c, k, x);
      KeptPosition(cfg, c, k, y);
      LowerFirst(IndexOf(c.blocks), x, y);
    }
    SortSplits(less, c.events, low, high);
    forall x, y | x in low && y in low ensures less(x, y) == less'(x, y) {
      KeptIn(c.events, blocks, |c.events|, x);
      KeptIn(c.events, blocks, |c.events|, y);
      CutIndex(cfg, c, k, x);
      CutIndex(cfg, c, k, y);
      SamePositions(IndexOf(c.blocks), IndexOf(blocks), x, y);
    }
    SortCongruent(less, less', low);
    SortBag(less, low);
  }

  lemma PlacedUnique(cfg: Config, c: Chain)
    requires Placed(cfg, c)
    ensures UniqueIds(c.events)
  {
  }

  lemma LowerFirst(index: map<string, nat>, x: Event, y: Event)
    requires Position(index, x.id) < Position(index, y.id)
    ensures Before(index, x, y)
  {
  }

  lemma SamePositions(index: map<string, nat>, index': map<string, nat>, x: Event, y: Event)
    requires Position(index, x.id) == Position(index', x.id) && Position(index, y.id) == Position(index', y.id)
    ensures Before(index, x, y) == Before(index', x, y)
  {
  }

  // ----- the ledger after the cut

  /** The economic state: everything but the wording of refusals. */
  predicate SameMoney(a: Ledger, b: Ledger) {
    a.balances == b.balances && a.claimed == b.claimed && a.nonces == b.nonces && a.issued == b.issued &&
    a.burned == b.burned && a.refused.Keys == b.refused.Keys
  }

  lemma ClaimableIs(blocks: seq<Block>, index: nat)
    requires Positions(blocks)
    ensures Claimable(blocks, index) <==> index < |blocks| && blocks[index].confirmed
  {
    TipFacts(blocks, |blocks|);
    if index < |blocks| {
      assert blocks[index].index == index;
      assert FindIndex(blocks, index, 0) <= index;
    }
  }

  /** Two chains with the same blocks up to confirmation, and only unconfirmed ones after them, have the same ledger. */
  lemma UnclaimableRest(econ: Econ, a: seq<Block>, b: seq<Block>, events: seq<Event>, n: nat)
    requires Positions(a) && Positions(b) && n <= |events| && |a| <= |b|
    requires forall i | 0 <= i < |a| :: b[i].confirmed == a[i].confirmed
    requires forall i | |a| <= i < |b| :: !b[i].confirmed
    ensures Economy(econ, a, events, n) == Economy(econ, b, events, n)
  {
    hide Economy, Claimable;
    forall i: nat ensures Claimable(a, i) <==> Claimable(b, i) {
      ClaimableIs(a, i);
      ClaimableIs(b, i);
    }
    SameClaims(econ, a, b, events, n);
  }

  lemma ClaimedGrows(econ: Econ, blocks: seq<Block>, l: Ledger, e: Event)
    ensures forall i | i in l.claimed :: i in EconStep(econ, blocks, l, e).claimed
  {
    hide JudgeEvent;
  }

  /** Verdicts that book the same money: equal, or refusals that look nothing up. */
  predicate SameEffect(v: Verdict, v': Verdict) {
    v == v' || (v.Refuse? && v'.Refuse? && Idle(v.reason) && Idle(v'.reason))
  }

  predicate Idle(reason: Reason) { !LooksUpNonce(reason) && !LooksUpBalance(reason) }

  lemma BookSame(l: Ledger, l': Ledger, e: Event, v: Verdict, v': Verdict)
    requires SameMoney(l, l') && SameEffect(v, v')
    ensures SameMoney(Book(l, e, v), Book(l', e, v'))
  {
  }

  lemma FewerClaim(econ: Econ, a: seq<Block>, b: seq<Block>, l: Ledger, l': Ledger, author: string, payload: map<string, string>)
    requires SameMoney(l, l') && forall i: nat :: Claimable(a, i) ==> Claimable(b, i)
    ensures var v, v' := JudgeClaim(econ, a, l, author, payload), JudgeClaim(econ, b, l', author, payload);
            SameEffect(v, v') || (v'.Claim? && !Claimable(a, v'.index))
  {
    hide Claimable, WorkOk, ExpectedReward, Canonical.ParseMap, ClaimWitness;
  }

  lemma FewerVerdict(econ: Econ, a: seq<Block>, b: seq<Block>, l: Ledger, l': Ledger, e: Event)
    requires SameMoney(l, l') && forall i: nat :: Claimable(a, i) ==> Claimable(b, i)
    ensures var v, v' := JudgeEvent(econ, a, l, e), JudgeEvent(econ, b, l', e);
            SameEffect(v, v') || (v'.Claim? && !Claimable(a, v'.index))
  {
    hide Claimable, WorkOk, ExpectedReward, Canonical.ParseMap, ClaimWitness, TransferWitness, PostValue, JudgeClaim;
    FewerClaim(econ, a, b, l, l', e.author, Canonical.ParseMap(e.payload));
  }

  /** One event booked over blocks of which fewer and more can be claimed. */
  lemma FewerStep(econ: Econ, a: seq<Block>, b: seq<Block>, l: Ledger, l': Ledger, e: Event)
    requires SameMoney(l, l') && forall i: nat :: Claimable(a, i) ==> Claimable(b, i)
    requires forall i | i in EconStep(econ, b, l', e).claimed :: Claimable(a, i)
    ensures SameMoney(EconStep(econ, a, l, e), EconStep(econ, b, l', e))
  {
    hide JudgeEvent, SameMoney, Claimable;
    FewerVerdict(econ, a, b, l, l', e);
    var v, v' := JudgeEvent(econ, a, l, e), JudgeEvent(econ, b, l', e);
    if v'.Claim? {
      assert v'.index in Book(l', e, v').claimed;
    }
    BookSame(l, l', e, v, v');
  }

  lemma {:induction false} FewerEconomy(econ: Econ, a: seq<Block>, b: seq<Block>, events: seq<Event>, n: nat)
    requires n <= |events| && forall i: nat :: Claimable(a, i) ==> Claimable(b, i)
    requires forall i | i in Economy(econ, b, events, n).claimed :: Claimable(a, i)
    ensures SameMoney(Economy(econ, a, events, n), Economy(econ, b, events, n))
  {
    hide EconStep, Claimable;
    if n > 0 {
      var l := Economy(econ, b, events, n - 1);
      ClaimedGrows(econ, b, l, events[n - 1]);
      FewerEconomy(econ, a, b, events, n - 1);
      FewerStep(econ, a, b, Economy(econ, a, events, n - 1), l, events[n - 1]);
    }
  }

  /**
   * Over blocks of which more can be claimed the ledger is the same exactly when no accepted claim needs one of the
   * additional blocks.
   */
  lemma FewerClaimsExactly(econ: Econ, a: seq<Block>, b: seq<Block>, events: seq<Event>, n: nat)
    requires n <= |events| && forall i: nat :: Claimable(a, i) ==> Claimable(b, i)
    ensures var more := Economy(econ, b, events, n);
            SameMoney(Economy(econ, a, events, n), more) <==> forall i | i in more.claimed :: Claimable(a, i)
  {
    hide EconStep, Claimable, Scheduled;
    var more := Economy(econ, b, events, n);
    if forall i | i in more.claimed :: Claimable(a, i) {
      FewerEconomy(econ, a, b, events, n);
    }
    IssuanceClosedForm(econ, a, events, n);
  }

  /** The block an event claims, if it passes every check on a claim but the one that the block is confirmed. */
  function WouldClaim(econ: Econ, l: Ledger, e: Event): Option<nat> {
    var payload := Canonical.ParseMap(e.payload);
    var index, reward := NatField(payload, "block_index"), IntField(payload, "reward");
    if && e.kind.BlockRewardClaimed? && index.Some?
       && reward > 0 && reward == ExpectedReward(econ.units, index.value, l.issued)
       && index.value !in l.claimed && WorkOk(econ.h, payload)
       && WitnessIs(payload, ClaimWitness(econ.h, e.author, index.value, reward, Field(payload, "pow_hash", "")))
    then index else None
  }

  lemma ClaimNeedsBlock(econ: Econ, blocks: seq<Block>, l: Ledger, e: Event)
    ensures var v, w := JudgeEvent(econ, blocks, l, e), WouldClaim(econ, l, e);
            && (v.Claim? <==> w.Some? && Claimable(blocks, w.value))
            && (v.Claim? ==> v.index == w.value)
  {
    hide Claimable, WorkOk, ExpectedReward, Canonical.ParseMap, ClaimWitness, TransferWitness, PostValue;
  }

  lemma WouldClaimSame(econ: Econ, l: Ledger, l': Ledger, e: Event)
    requires SameMoney(l, l')
    ensures WouldClaim(econ, l, e) == WouldClaim(econ, l', e)
  {
    hide WorkOk, ExpectedReward, Canonical.ParseMap, ClaimWitness;
  }

  /** The event would claim a block that can be claimed in `b` and not in `a`. */
  predicate ClaimsAdded(econ: Econ, a: seq<Block>, b: seq<Block>, l: Ledger, e: Event) {
    var w := WouldClaim(econ, l, e);
    w.Some? && Claimable(b, w.value) && !Claimable(a, w.value)
  }

  /** One event keeps equal money equal exactly when it does not claim an added block. */
  lemma FewerStepExactly(econ: Econ, a: seq<Block>, b: seq<Block>, l: Ledger, l': Ledger, e: Event)
    requires SameMoney(l, l') && forall i: nat :: Claimable(a, i) ==> Claimable(b, i)
    ensures !ClaimsAdded(econ, a, b, l, e) ==> SameMoney(EconStep(econ, a, l, e), EconStep(econ, b, l', e))
    ensures ClaimsAdded(econ, a, b, l, e) ==> exists i | i in EconStep(econ, b, l', e).claimed :: !Claimable(a, i)
  {
    hide JudgeEvent, SameMoney, Claimable, WouldClaim;
    WouldClaimSame(econ, l, l', e);
    ClaimNeedsBlock(econ, b, l', e);
    FewerVerdict(econ, a, b, l, l', e);
    var v, v' := JudgeEvent(econ, a, l, e), JudgeEvent(econ, b, l', e);
    if ClaimsAdded(econ, a, b, l, e) {
      assert v'.index in Book(l', e, v').claimed;
    } else {
      BookSame(l, l', e, v, v');
    }
  }

  /**
   * The same condition, read off the replay over the fewer blocks: it meets no claim that would pass once its block is
   * confirmed and whose block is one of the additional ones.
   */
  lemma {:induction false} FewerClaimsKnown(econ: Econ, a: seq<Block>, b: seq<Block>, events: seq<Event>, n: nat)
    requires n <= |events| && forall i: nat :: Claimable(a, i) ==> Claimable(b, i)
    ensures SameMoney(Economy(econ, a, events, n), Economy(econ, b, events, n)) <==>
            forall i | 0 <= i < n :: !ClaimsAdded(econ, a, b, Economy(econ, a, events, i), events[i])
  {
    hide EconStep, Claimable, SameMoney, ClaimsAdded;
    if n > 0 {
      var l, l', e := Economy(econ, a, events, n - 1), Economy(econ, b, events, n - 1), events[n - 1];
      FewerClaimsKnown(econ, a, b, events, n - 1);
      FewerClaimsExactly(econ, a, b, events, n - 1);
      FewerClaimsExactly(econ, a, b, events, n);
      ClaimedGrows(econ, b, l', e);
      if SameMoney(l, l') {
        FewerStepExactly(econ, a, b, l, l', e);
      }
    } else {
      NoMoney();
    }
  }

  lemma NoMoney()
    ensures SameMoney(EMPTY, EMPTY)
  {
  }

  lemma {:induction false} EconomyOfPrefix(econ: Econ, blocks: seq<Block>, events: seq<Event>, m: nat, n: nat)
    requires n <= m <= |events|
    ensures Economy(econ, blocks, events[..m], n) == Economy(econ, blocks, events, n)
  {
    hide EconStep;
    if n > 0 {
      EconomyOfPrefix(econ, blocks, events, m, n - 1);
    }
  }

  /** The ledger a store materializes. */
  function Materialized(econ: Econ, c: Chain): Ledger { Economy(econ, c.blocks, Ordered(c), |Ordered(c)|) }

  /**
   * Rollback is truncation of the replay: the ledger of the recovered store is the old replay stopped after the
   * last event of the checkpoint block, exactly when no claim accepted up to there names a block past the
   * checkpoint.
   */
  lemma RollbackTruncates(cfg: Config, econ: Econ, c: Chain, now: int)
    requires Valid(cfg, c) && c.blocks != []
    ensures var k := RollbackTarget(cfg, c.blocks) + 1;
            var m := |Rollback(cfg, c, now).events|;
            && m <= |Ordered(c)| && Ordered(Rollback(cfg, c, now)) == Ordered(c)[..m]
            && var stopped := Economy(econ, c.blocks, Ordered(c), m);
               SameMoney(Materialized(econ, Rollback(cfg, c, now)), stopped) <==> forall i | i in stopped.claimed :: i < k
  {
    hide Linked, Limits, IdBag, Rollback, RollbackTarget, EconStep, KeptEvents;
    RollbackCuts(cfg, c, now);
    var k := RollbackTarget(cfg, c.blocks) + 1;
    var r := Rollback(cfg, c, now);
    var m := |r.events|;
    CutReplay(cfg, c, k);
    SortBag(ByReplay(IndexOf(r.blocks)), r.events);
    EconomyOfPrefix(econ, r.blocks, Ordered(c), m, m);
    CutEconomyExactly(econ, c.blocks, k, Ordered(c), m);
  }

  lemma CutEconomyExactly(econ: Econ, blocks: seq<Block>, k: nat, events: seq<Event>, m: nat)
    requires Positions(blocks) && k <= |blocks| && m <= |events|
    ensures var stopped := Economy(econ, blocks, events, m);
            SameMoney(Economy(econ, blocks[..k], events, m), stopped) <==> forall i | i in stopped.claimed :: i < k
  {
    hide Economy, Claimable, SameMoney;
    forall i: nat
      ensures Claimable(blocks[..k], i) ==> Claimable(blocks, i)
      ensures Claimable(blocks, i) ==> (Claimable(blocks[..k], i) <==> i < k)
    {
      ClaimableIs(blocks, i);
      ClaimableIs(blocks[..k], i);
    }
    FewerClaimsExactly(econ, blocks[..k], blocks, events, m);
    IssuanceClosedForm(econ, blocks, events, m);
  }
}
