/** The order in which events replay. */
module ReplayOrder {
  import opened Types
  import opened Text
  import opened Sorting
  import opened Timeline
  import opened Invariant
  import opened Replay

  /** Event `x` lies in block `p`. */
  predicate LiesIn(c: Chain, x: Event, p: nat) { p < |c.blocks| && x.id in c.blocks[p].eventIds }

  /**
   * Within one block: time first, then at one time the claims, then the transfers, then everything else, and among events
   * of the same rank the smaller id.
   */
  predicate Precedes(x: Event, y: Event) {
    x.ts < y.ts ||
    (x.ts == y.ts &&
     (if x.kind.BlockRewardClaimed? then !y.kind.BlockRewardClaimed? || LexLess(x.id, y.id)
      else if y.kind.BlockRewardClaimed? then false
      else if x.kind.RewardTransferred? then !y.kind.RewardTransferred? || LexLess(x.id, y.id)
      else !y.kind.RewardTransferred? && LexLess(x.id, y.id)))
  }

  /** The events go block by block, and inside each block as said. */
  ghost predicate InOrder(c: Chain, s: seq<Event>) {
    forall i, j, p, q | 0 <= i < j < |s| && LiesIn(c, s[i], p) && LiesIn(c, s[j], q) ::
      p < q || (p == q && Precedes(s[i], s[j]))
  }

  lemma BeforeIs(cfg: Config, c: Chain, x: Event, y: Event, p: nat, q: nat)
    requires Placed(cfg, c) && LiesIn(c, x, p) && LiesIn(c, y, q)
    ensures Before(IndexOf(c.blocks), x, y) <==> p < q || (p == q && Precedes(x, y))
  {
    hide Placed, LexLess, IndexUpTo, Position;
    PositionIs(cfg, c, p, x.id);
    PositionIs(cfg, c, q, y.id);
  }

  lemma ReplayInOrder(cfg: Config, c: Chain)
    requires Placed(cfg, c)
    ensures InOrder(c, Ordered(c))
  {
    hide Placed, Before, IndexUpTo, Precedes, Sort, LiesIn;
    var less, s := ByReplay(IndexOf(c.blocks)), Ordered(c);
    PlacedUnique(cfg, c);
    ReplayTotal(IndexOf(c.blocks), c.events);
    SortSorted(less, c.events);
    SortBag(less, c.events);
    forall i, j, p, q | 0 <= i < j < |s| && LiesIn(c, s[i], p) && LiesIn(c, s[j], q)
      ensures p < q || (p == q && Precedes(s[i], s[j]))
    {
      assert s[i] in s && s[j] in s;
      SortedOnce(c, i, j);
      assert !less(s[j], s[i]) && less(s[i], s[j]);
      BeforeIs(cfg, c, s[i], s[j], p, q);
    }
  }

  /** The replay is the one arrangement of the events that goes block by block and, inside a block, by time, rank and id. */
  lemma ReplayIsInOrder(cfg: Config, c: Chain, s: seq<Event>)
    requires Placed(cfg, c) && multiset(s) == multiset(c.events)
    ensures s == Ordered(c) <==> InOrder(c, s)
  {
    hide Placed, Before, IndexUpTo, Precedes, Sort, LiesIn, InOrder;
    ReplayInOrder(cfg, c);
    if InOrder(c, s) {
      OnlyOrder(cfg, c, s);
    }
  }

  lemma OnlyOrder(cfg: Config, c: Chain, s: seq<Event>)
    requires Placed(cfg, c) && multiset(s) == multiset(c.events) && InOrder(c, s)
    ensures s == Ordered(c)
  {
    hide Placed, Before, IndexUpTo, Precedes, Sort, LiesIn;
    var less := ByReplay(IndexOf(c.blocks));
    PlacedUnique(cfg, c);
    ReplayTotal(IndexOf(c.blocks), c.events);
    SameBag(s, c.events);
    SortSorted(less, c.events);
    SortBag(less, c.events);
    forall i, j | 0 <= i < j < |s| ensures !less(s[j], s[i]) {
      assert s[i] in s && s[j] in s;
      var p := Home(cfg, c, s[i]);
      var q := Home(cfg, c, s[j]);
      BeforeIs(cfg, c, s[i], s[j], p, q);
      BeforeStrict(IndexOf(c.blocks), s[i], s[j], s[i]);
      BeforeStrict(IndexOf(c.blocks), s[i], s[i], s[i]);
    }
    SortedUnique(less, Ordered(c), s);
  }

  lemma Home(cfg: Config, c: Chain, e: Event) returns (p: nat)
    requires Placed(cfg, c) && e in c.events
    ensures LiesIn(c, e, p)
  {
    hide Placed;
    p := BlockOf(cfg, c, e);
  }

  /** So at one time stamp of one block nothing replays before the claims, and nothing but claims before the transfers. */
  lemma KindsInOrder(cfg: Config, c: Chain, i: nat, j: nat, p: nat)
    requires Placed(cfg, c) && i < j < |Ordered(c)| && LiesIn(c, Ordered(c)[i], p) && LiesIn(c, Ordered(c)[j], p)
    ensures var x, y := Ordered(c)[i], Ordered(c)[j];
            && x.ts <= y.ts
            && (x.ts == y.ts && y.kind.BlockRewardClaimed? ==> x.kind.BlockRewardClaimed?)
            && (x.ts == y.ts && y.kind.RewardTransferred? ==> x.kind.BlockRewardClaimed? || x.kind.RewardTransferred?)
  {
    hide Placed, LiesIn, Ordered, LexLess;
    ReplayInOrder(cfg, c);
  }
}
