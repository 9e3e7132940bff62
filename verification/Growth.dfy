/** What an appended event does to the replay, if it sorts last. */
module Growth {
  import opened Types
  import opened Text
  import opened Sorting
  import opened Timeline
  import opened Invariant
  import opened Preservation
  import opened History
  import opened Ledger
  import opened Replay

  /** Every event of the store comes before the new one in the replay of the longer chain. */
  predicate SortsLast(cfg: Config, c: Chain, e: Event, now: int, later: int) {
    var index := IndexOf(Append(cfg, c, e, now, later).blocks);
    forall x | x in c.events :: Before(index, x, e)
  }

  /** The order of two events in one block. */
  predicate BeforeInBlock(a: Event, b: Event) {
    if a.ts != b.ts then a.ts < b.ts
    else if Priority(a.kind) != Priority(b.kind) then Priority(a.kind) < Priority(b.kind)
    else LexLess(a.id, b.id)
  }

  /** Seen before the append: no event lies in a block after the slot the new one gets, nor after it in that slot. */
  predicate ComesLast(cfg: Config, c: Chain, e: Event) {
    var slot := FindSlot(cfg, c.events + [e], c.blocks, EventBytes(e), 0);
    forall x | x in c.events ::
      var p := Position(IndexOf(c.blocks), x.id); p < slot || (p == slot && BeforeInBlock(x, e))
  }

  /** Old blocks keep their ids and their confirmation, new ones are unconfirmed. */
  ghost predicate Extends(a: seq<Block>, b: seq<Block>) {
    && |a| <= |b|
    && (forall i | 0 <= i < |a| :: b[i].confirmed == a[i].confirmed && a[i].eventIds <= b[i].eventIds)
    && (forall i | |a| <= i < |b| :: !b[i].confirmed)
  }

  lemma PlaceExtendsIds(cfg: Config, events: seq<Event>, blocks: seq<Block>, e: Event)
    ensures var r := Place(cfg, events, blocks, e);
            Extends(blocks, r) && Holds(r, FindSlot(cfg, events, blocks, EventBytes(e), 0), e.id)
  {
    hide BlockBytes, EventBytes;
  }

  predicate Holds(blocks: seq<Block>, k: nat, id: string) { k < |blocks| && id in blocks[k].eventIds }

  lemma ExtendsFurther(a: seq<Block>, b: seq<Block>, d: seq<Block>)
    requires Extends(a, b) && |b| <= |d| && (forall i | |b| <= i < |d| :: !d[i].confirmed)
    requires forall i | 0 <= i < |b| :: d[i].confirmed == b[i].confirmed && d[i].eventIds == b[i].eventIds
    ensures Extends(a, d) && forall k: nat, id :: Holds(b, k, id) ==> Holds(d, k, id)
  {
  }

  lemma AppendExtends(cfg: Config, c: Chain, e: Event, now: int, later: int)
    requires Valid(cfg, c) && c.blocks != [] && Judge(cfg, c.events, e, now).Appended?
    ensures var r := Append(cfg, c, e, now, later);
            && Valid(cfg, r) && r.events == c.events + [e] && Extends(c.blocks, r.blocks)
            && Holds(r.blocks, FindSlot(cfg, c.events + [e], c.blocks, EventBytes(e), 0), e.id)
  {
    hide Place, Slots, Valid, Settle, Extends, Holds, Assign, EnsureSlots, FindSlot, EventBytes;
    AppendValid(cfg, c, e, now, later);
    UnsettledIs(cfg, c, e, later);
    var d := Unsettled(cfg, c, e, later);
    var placed := Place(cfg, c.events + [e], c.blocks, e);
    PlaceExtendsIds(cfg, c.events + [e], c.blocks, e);
    SlotsExtend(cfg, placed, later, MAX_RESERVE_PER_CHECK);
    ExtendsFurther(c.blocks, placed, d.blocks);
    SettleShape(cfg, d);
    var r := Settle(cfg, d);
    forall i | 0 <= i < |d.blocks| ensures r.blocks[i].confirmed == d.blocks[i].confirmed && r.blocks[i].eventIds == d.blocks[i].eventIds {
      assert Shape(r.blocks[i]) == Shape(d.blocks[i]);
    }
    ExtendsFurther(c.blocks, d.blocks, r.blocks);
  }

  lemma SamePosition(cfg: Config, c: Chain, r: Chain, x: Event)
    requires Placed(cfg, c) && Placed(cfg, r) && Extends(c.blocks, r.blocks) && x in c.events
    ensures Position(IndexOf(r.blocks), x.id) == Position(IndexOf(c.blocks), x.id)
  {
    hide Placed, Position, IndexUpTo;
    var i := BlockOf(cfg, c, x);
    PositionIs(cfg, c, i, x.id);
    PositionIs(cfg, r, i, x.id);
  }

  lemma BeforeByPosition(index: map<string, nat>, x: Event, e: Event)
    ensures var p, q := Position(index, x.id), Position(index, e.id);
            Before(index, x, e) <==> p < q || (p == q && BeforeInBlock(x, e))
  {
    hide Position, LexLess;
  }

  /** Whether an appended event sorts last can be told before it is appended. */
  lemma LastIsKnown(cfg: Config, c: Chain, e: Event, now: int, later: int)
    requires Valid(cfg, c) && c.blocks != [] && Judge(cfg, c.events, e, now).Appended?
    ensures SortsLast(cfg, c, e, now, later) <==> ComesLast(cfg, c, e)
  {
    hide Placed, Linked, Append, Before, Position, IndexUpTo, Extends, BeforeInBlock, FindSlot, EventBytes;
    AppendExtends(cfg, c, e, now, later);
    var r := Append(cfg, c, e, now, later);
    PositionIs(cfg, r, FindSlot(cfg, c.events + [e], c.blocks, EventBytes(e), 0), e.id);
    forall x | x in c.events
      ensures Position(IndexOf(r.blocks), x.id) == Position(IndexOf(c.blocks), x.id)
      ensures var p, q := Position(IndexOf(r.blocks), x.id), Position(IndexOf(r.blocks), e.id);
              Before(IndexOf(r.blocks), x, e) <==> p < q || (p == q && BeforeInBlock(x, e))
    {
      SamePosition(cfg, c, r, x);
      BeforeByPosition(IndexOf(r.blocks), x, e);
    }
  }

  /** The replay of the longer chain is the old replay with the new event at its end. */
  lemma ReplayGrows(cfg: Config, c: Chain, r: Chain, e: Event)
    requires Placed(cfg, c) && Placed(cfg, r) && r.events == c.events + [e] && Extends(c.blocks, r.blocks)
    requires forall x | x in c.events :: Before(IndexOf(r.blocks), x, e)
    ensures Ordered(r) == Ordered(c) + [e]
  {
    hide Placed, Before, Position, IndexUpTo, Extends;
    var less, less' := ByReplay(IndexOf(c.blocks)), ByReplay(IndexOf(r.blocks));
    PlacedUnique(cfg, c);
    PlacedUnique(cfg, r);
    ReplayTotal(IndexOf(c.blocks), c.events);
    ReplayTotal(IndexOf(r.blocks), r.events);
    SortSplits(less', r.events, c.events, [e]);
    SortOne(less', e);
    forall x, y | x in c.events && y in c.events ensures less(x, y) == less'(x, y) {
      SamePosition(cfg, c, r, x);
      SamePosition(cfg, c, r, y);
      SamePositions(IndexOf(c.blocks), IndexOf(r.blocks), x, y);
    }
    SortCongruent(less, less', c.events);
  }

  lemma SortOne(less: (Event, Event) -> bool, e: Event)
    ensures Sort(less, [e]) == [e]
  {
    SortBag(less, [e]);
    assert Sort(less, [e])[0] in Sort(less, [e]);
  }

  /** An appended event that sorts last is booked on the ledger as it was, over the blocks as they were. */
  lemma AppendBooks(cfg: Config, econ: Econ, c: Chain, e: Event, now: int, later: int)
    requires Valid(cfg, c) && c.blocks != [] && Judge(cfg, c.events, e, now).Appended? && ComesLast(cfg, c, e)
    ensures Materialized(econ, Append(cfg, c, e, now, later)) == EconStep(econ, c.blocks, Materialized(econ, c), e)
  {
    hide Append, EconStep, Linked, Limits, IdBag, Before, IndexUpTo, Ordered, Claimable, ComesLast, Holds;
    var r := Append(cfg, c, e, now, later);
    LastIsKnown(cfg, c, e, now, later);
    AppendExtends(cfg, c, e, now, later);
    ReplayGrows(cfg, c, r, e);
    var events := Ordered(r);
    assert events[..|events| - 1] == Ordered(c);
    EconomyOfPrefix(econ, r.blocks, events, |events| - 1, |events| - 1);
    UnclaimableRest(econ, c.blocks, r.blocks, Ordered(c), |Ordered(c)|);
    forall i: nat ensures Claimable(c.blocks, i) <==> Claimable(r.blocks, i) {
      ClaimableIs(c.blocks, i);
      ClaimableIs(r.blocks, i);
    }
    SameStep(econ, c.blocks, r.blocks, Materialized(econ, c), e);
  }

  lemma SameStep(econ: Econ, a: seq<Block>, b: seq<Block>, l: Ledger, e: Event)
    requires forall i: nat :: Claimable(a, i) <==> Claimable(b, i)
    ensures EconStep(econ, a, l, e) == EconStep(econ, b, l, e)
  {
    hide Claimable, JudgeEvent, Book;
    SameVerdict(econ, a, b, l, e);
  }
}
