/** Appending and ticking keep the timeline invariant. */
module Preservation {
  import opened Types
  import opened Timeline
  import opened Invariant

  ghost predicate BlocksOk(cfg: Config, events: seq<Event>, blocks: seq<Block>, bag: multiset<string>) {
    Positions(blocks) && IdBag(blocks, |blocks|) == bag && Limits(cfg, events, blocks)
  }

  /** Index and ids agree block by block. */
  ghost predicate SameSlots(a: seq<Block>, b: seq<Block>) {
    |a| == |b| && forall i | 0 <= i < |a| :: a[i].index == b[i].index && a[i].eventIds == b[i].eventIds
  }

  lemma SlotsDecide(cfg: Config, events: seq<Event>, a: seq<Block>, b: seq<Block>, bag: multiset<string>)
    requires BlocksOk(cfg, events, a, bag) && SameSlots(a, b)
    ensures BlocksOk(cfg, events, b, bag)
  {
    hide BlockBytes;
    BagOfShape(a, b, |a|);
  }

  lemma EmptyBlockOk(cfg: Config, events: seq<Event>, blocks: seq<Block>, b: Block, bag: multiset<string>)
    requires BlocksOk(cfg, events, blocks, bag) && b.index == |blocks| && b.eventIds == []
    ensures BlocksOk(cfg, events, blocks + [b], bag)
  {
    BagOfAppend(blocks, b);
  }

  lemma GenesisOk(cfg: Config, c: Chain, now: int, bag: multiset<string>)
    requires BlocksOk(cfg, c.events, c.blocks, bag)
    ensures BlocksOk(cfg, c.events, EnsureGenesis(cfg, c, now).blocks, bag)
  {
    var r := EnsureGenesis(cfg, c, now);
    if c.blocks != [] {
      SlotsDecide(cfg, c.events, c.blocks, r.blocks, bag);
    } else {
      EmptyBlockOk(cfg, c.events, c.blocks, r.blocks[0], bag);
      assert c.blocks + [r.blocks[0]] == r.blocks;
    }
  }

  lemma {:induction false} SlotsOk(cfg: Config, events: seq<Event>, blocks: seq<Block>, now: int, budget: nat, bag: multiset<string>)
    requires BlocksOk(cfg, events, blocks, bag)
    ensures BlocksOk(cfg, events, Slots(cfg, blocks, now, budget), bag)
    decreases budget
  {
    hide BlockBytes;
    if !(blocks == [] || now - blocks[|blocks| - 1].openedUnix < cfg.interval || budget == 0) {
      var last := blocks[|blocks| - 1];
      var b := EmptyBlock(last.index + 1, last.openedUnix + cfg.interval);
      EmptyBlockOk(cfg, events, blocks, b, bag);
      SlotsOk(cfg, events, blocks + [b], now, budget - 1, bag);
    }
  }

  lemma ConfirmOk(cfg: Config, c: Chain, now: int, bag: multiset<string>)
    requires BlocksOk(cfg, c.events, c.blocks, bag)
    ensures BlocksOk(cfg, c.events, Confirm(cfg, c, now).blocks, bag)
  {
    SlotsDecide(cfg, c.events, c.blocks, Confirm(cfg, c, now).blocks, bag);
  }

  lemma SettleOk(cfg: Config, c: Chain, bag: multiset<string>)
    requires BlocksOk(cfg, c.events, c.blocks, bag)
    ensures var r := Settle(cfg, c);
            r.events == c.events && BlocksOk(cfg, r.events, r.blocks, bag) && Linked(cfg, Payloads(cfg, r.events), r.blocks)
    ensures var r := Settle(cfg, c); |r.blocks| == |c.blocks| && forall i | 0 <= i < |c.blocks| :: Shape(r.blocks[i]) == Shape(c.blocks[i])
  {
    hide Sealed, BlockBytes;
    RelinkedLinked(cfg, Payloads(cfg, c.events), c.blocks, |c.blocks|, c.psz);
    var r := Settle(cfg, c);
    forall i | 0 <= i < |c.blocks| ensures r.blocks[i].index == c.blocks[i].index && r.blocks[i].eventIds == c.blocks[i].eventIds {
      assert Shape(r.blocks[i]) == Shape(c.blocks[i]);
    }
    SlotsDecide(cfg, c.events, c.blocks, r.blocks, bag);
  }

  /** A block that takes one more event it has room for, or takes its first. */
  lemma PutLimits(cfg: Config, events: seq<Event>, b: Block, e: Event)
    requires FindEvent(events, e.id, 0) < |events| && IdBytes(events, e.id) == EventBytes(e)
    requires Fits(cfg, events, b, EventBytes(e)) || b.eventIds == []
    ensures WithinLimits(cfg, events, Put(b, e.id))
  {
    BytesSnoc(events, b.eventIds, e.id, |b.eventIds|);
  }

  lemma PutOk(cfg: Config, events: seq<Event>, blocks: seq<Block>, k: nat, id: string, bag: multiset<string>)
    requires BlocksOk(cfg, events, blocks, bag) && k < |blocks| && WithinLimits(cfg, events, Put(blocks[k], id))
    ensures BlocksOk(cfg, events, blocks[k := Put(blocks[k], id)], bag + multiset{id})
  {
    hide WithinLimits;
    BagOfPut(blocks, k, id, |blocks|);
  }

  lemma AppendOk(cfg: Config, events: seq<Event>, blocks: seq<Block>, b: Block, id: string, bag: multiset<string>)
    requires BlocksOk(cfg, events, blocks, bag) && b.index == |blocks| && b.eventIds == [id] && WithinLimits(cfg, events, b)
    ensures BlocksOk(cfg, events, blocks + [b], bag + multiset{id})
  {
    hide WithinLimits;
    BagOfAppend(blocks, b);
    assert multiset([id]) == multiset{id};
  }

  lemma PlaceOk(cfg: Config, events: seq<Event>, blocks: seq<Block>, e: Event, bag: multiset<string>)
    requires BlocksOk(cfg, events, blocks, bag) && FindEvent(events, e.id, 0) < |events| && IdBytes(events, e.id) == EventBytes(e)
    ensures BlocksOk(cfg, events, Place(cfg, events, blocks, e), bag + multiset{e.id})
  {
    hide BlockBytes, IdBytes, EventBytes, IdBag, WithinLimits, Fits;
    var k := FindSlot(cfg, events, blocks, EventBytes(e), 0);
    if k < |blocks| {
      PutLimits(cfg, events, blocks[k], e);
      PutOk(cfg, events, blocks, k, e.id, bag);
    } else {
      var added := EmptyBlock(NextIndex(blocks), e.ts);
      PutLimits(cfg, events, added, e);
      AppendOk(cfg, events, blocks, Put(added, e.id), e.id, bag);
    }
  }

  // ----- assigning

  lemma {:induction false} AssignNothing(cfg: Config, events: seq<Event>, blocks: seq<Block>, n: nat)
    requires n <= |events| && forall i | 0 <= i < n :: Assigned(blocks, events[i].id)
    ensures AssignUpTo(cfg, events, blocks, n) == blocks
  {
    hide Place;
    if n > 0 {
      AssignNothing(cfg, events, blocks, n - 1);
    }
  }

  /** Genesis handling leaves every id where it was. */
  lemma GenesisAssigned(cfg: Config, c: Chain, now: int, id: string)
    ensures Assigned(EnsureGenesis(cfg, c, now).blocks, id) <==> Assigned(c.blocks, id)
  {
    var r := EnsureGenesis(cfg, c, now).blocks;
    assert forall i | 0 <= i < |c.blocks| :: r[i].eventIds == c.blocks[i].eventIds;
  }

  /** With every event placed, assigning only looks after the genesis block. */
  lemma AssignIdle(cfg: Config, c: Chain)
    requires forall i | 0 <= i < |c.events| :: Assigned(c.blocks, c.events[i].id)
    ensures Assign(cfg, c) == if c.events == [] then c else EnsureGenesis(cfg, c, c.events[0].ts)
  {
    if c.events != [] {
      var c' := EnsureGenesis(cfg, c, c.events[0].ts);
      forall i | 0 <= i < |c.events| ensures Assigned(c'.blocks, c.events[i].id) {
        GenesisAssigned(cfg, c, c.events[0].ts, c.events[i].id);
      }
      AssignNothing(cfg, c.events, c'.blocks, |c.events|);
    }
  }

  /** A fresh last event is the only one placed. */
  lemma AssignFresh(cfg: Config, c: Chain, e: Event)
    requires !Assigned(c.blocks, e.id) && forall i | 0 <= i < |c.events| :: Assigned(c.blocks, c.events[i].id)
    ensures var c1 := c.(events := c.events + [e]);
            var c2 := EnsureGenesis(cfg, c1, c1.events[0].ts);
            Assign(cfg, c1) == c2.(blocks := Place(cfg, c1.events, c2.blocks, e))
  {
    hide Place;
    var c1 := c.(events := c.events + [e]);
    var c2 := EnsureGenesis(cfg, c1, c1.events[0].ts);
    forall i | 0 <= i < |c.events| ensures Assigned(c2.blocks, c1.events[i].id) {
      GenesisAssigned(cfg, c1, c1.events[0].ts, c1.events[i].id);
      assert c1.events[i] == c.events[i];
    }
    GenesisAssigned(cfg, c1, c1.events[0].ts, e.id);
    AssignNothing(cfg, c1.events, c2.blocks, |c.events|);
    assert c1.events[|c.events|] == e;
  }

  lemma AllAssigned(cfg: Config, c: Chain)
    requires Placed(cfg, c)
    ensures forall i | 0 <= i < |c.events| :: Assigned(c.blocks, c.events[i].id)
  {
    hide Limits;
    forall i | 0 <= i < |c.events| ensures Assigned(c.blocks, c.events[i].id) {
      PlacedIds(cfg, c, c.events[i].id);
      assert HasEvent(c.events, c.events[i].id);
    }
  }

  // ----- append

  /** Adding a fresh event leaves the old blocks within their limits. */
  lemma LimitsAppend(cfg: Config, c: Chain, e: Event)
    requires Placed(cfg, c)
    ensures Limits(cfg, c.events + [e], c.blocks)
  {
    forall i | 0 <= i < |c.blocks| ensures WithinLimits(cfg, c.events + [e], c.blocks[i]) {
      var ids := c.blocks[i].eventIds;
      assert WithinLimits(cfg, c.events, c.blocks[i]);
      forall j | 0 <= j < |ids| ensures HasEvent(c.events, ids[j]) {
        assert Assigned(c.blocks, ids[j]);
        PlacedIds(cfg, c, ids[j]);
      }
      BytesAppend(c.events, e, ids, |ids|);
    }
  }

  lemma UniqueAppend(events: seq<Event>, e: Event)
    requires UniqueIds(events) && !HasEvent(events, e.id)
    ensures UniqueIds(events + [e])
  {
  }

  /** The chain right after the new event is placed. */
  lemma AssignedChain(cfg: Config, c: Chain, e: Event) returns (bag: multiset<string>)
    requires Placed(cfg, c) && !HasEvent(c.events, e.id)
    ensures bag == multiset(EventIds(c.events + [e], |c.events| + 1))
    ensures var r := Assign(cfg, c.(events := c.events + [e]));
            r.events == c.events + [e] && UniqueIds(r.events) && BlocksOk(cfg, r.events, r.blocks, bag) && r.blocks != []
  {
    hide Place, BlockBytes, EventBytes, IdBytes, Fits;
    var c1 := c.(events := c.events + [e]);
    var before := multiset(EventIds(c.events, |c.events|));
    LimitsAppend(cfg, c, e);
    UniqueAppend(c.events, e);
    AllAssigned(cfg, c);
    PlacedIds(cfg, c, e.id);
    AssignFresh(cfg, c, e);
    GenesisOk(cfg, c1, c1.events[0].ts, before);
    var c2 := EnsureGenesis(cfg, c1, c1.events[0].ts);
    IdBytesOf(c1.events, |c.events|);
    assert c1.events[|c.events|] == e;
    PlaceOk(cfg, c1.events, c2.blocks, e, before);
    IdsOfAppend(c.events, e);
    bag := before + multiset{e.id};
  }

  /** Appending keeps the invariant. */
  lemma AppendValid(cfg: Config, c: Chain, e: Event, now: int, later: int)
    requires Valid(cfg, c)
    ensures Valid(cfg, Append(cfg, c, e, now, later))
  {
    hide Place, BlockBytes, EventBytes, IdBytes, Fits, Sealed, Relinked, Slots, PayloadHashes, AssignUpTo;
    if Judge(cfg, c.events, e, now).Appended? {
      var bag := AssignedChain(cfg, c, e);
      var c1 := Assign(cfg, c.(events := c.events + [e]));
      GenesisOk(cfg, c1, later, bag);
      var c2 := EnsureGenesis(cfg, c1, later);
      SlotsOk(cfg, c2.events, c2.blocks, later, MAX_RESERVE_PER_CHECK, bag);
      SettleOk(cfg, EnsureSlots(cfg, c1, later), bag);
    }
  }

  // ----- tick

  /** A tick over placed events: genesis, slots, confirmations, hashes. */
  lemma TickSteps(cfg: Config, c: Chain, now: int)
    requires Placed(cfg, c)
    ensures var c1 := EnsureGenesis(cfg, c, now);
            var c2 := EnsureSlots(cfg, c1, now);
            var c3 := Assign(cfg, c2);
            var bag := multiset(EventIds(c.events, |c.events|));
            && c3.events == c.events && BlocksOk(cfg, c3.events, c3.blocks, bag)
            && c3 == if c.events == [] then c2 else EnsureGenesis(cfg, c2, c.events[0].ts)
  {
    hide Place, BlockBytes, EventBytes, IdBytes, Fits, Slots, AssignUpTo;
    var bag := multiset(EventIds(c.events, |c.events|));
    GenesisOk(cfg, c, now, bag);
    var c1 := EnsureGenesis(cfg, c, now);
    GenesisOk(cfg, c1, now, bag);
    SlotsOk(cfg, c1.events, EnsureGenesis(cfg, c1, now).blocks, now, MAX_RESERVE_PER_CHECK, bag);
    var c2 := EnsureSlots(cfg, c1, now);
    AllAssigned(cfg, c2);
    AssignIdle(cfg, c2);
    if c.events != [] {
      GenesisOk(cfg, c2, c.events[0].ts, bag);
    }
  }

  /** Ticking keeps the invariant. */
  lemma TickValid(cfg: Config, c: Chain, now: int)
    requires Valid(cfg, c)
    ensures Valid(cfg, Tick(cfg, c, now))
  {
    hide Place, BlockBytes, EventBytes, IdBytes, Fits, Sealed, Relinked, Slots, PayloadHashes, AssignUpTo;
    TickSteps(cfg, c, now);
    var bag := multiset(EventIds(c.events, |c.events|));
    var c3 := Assign(cfg, EnsureSlots(cfg, EnsureGenesis(cfg, c, now), now));
    ConfirmOk(cfg, c3, now, bag);
    SettleOk(cfg, Confirm(cfg, c3, now), bag);
  }
}
