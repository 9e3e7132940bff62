/** What later states leave as it was. */
module Finality {
  import opened Types
  import opened Sorting
  import Canonical
  import opened Timeline
  import opened Invariant
  import opened Checkpoint
  import opened Clock
  import opened History
  import opened Ledger
  import opened Replay
  import opened Moderation

  /** Positions do not fall along the replay order. */
  lemma PositionsRise(cfg: Config, c: Chain, i: nat, j: nat)
    requires Placed(cfg, c) && i <= j < |Ordered(c)|
    ensures Ordered(c)[i] in c.events && Ordered(c)[j] in c.events
    ensures Position(IndexOf(c.blocks), Ordered(c)[i].id) <= Position(IndexOf(c.blocks), Ordered(c)[j].id)
  {
    hide Limits, IdBag, Before, Position, IndexOf, Sort;
    var index := IndexOf(c.blocks);
    ReplayTotal(index, c.events);
    SortSorted(ByReplay(index), c.events);
    SortBag(ByReplay(index), c.events);
    var s := Ordered(c);
    assert s[i] in s && s[j] in s;
    NotBefore(index, s[i], s[j]);
  }

  lemma NotBefore(index: map<string, nat>, a: Event, b: Event)
    ensures !Before(index, b, a) ==> Position(index, a.id) <= Position(index, b.id)
  {
  }

  /** In a placed chain the replay counts confirmations by position. */
  lemma CountIs(cfg: Config, c: Chain, e: Event)
    requires Placed(cfg, c) && e in c.events
    ensures var p := Position(IndexOf(c.blocks), e.id);
            && p < |c.blocks| && e.id in c.blocks[p].eventIds
            && ReplayConfirmations(ViewOf(c), e.id) ==
                 if Tip(c.blocks).None? then 0 else Confirmations(Tip(c.blocks).value, p)
  {
    hide Limits, IdBag;
    var i := BlockOf(cfg, c, e);
    PositionIs(cfg, c, i, e.id);
    IndexFacts(c.blocks, |c.blocks|, e.id);
  }

  lemma ReplayCountsFall(cfg: Config, c: Chain)
    requires Placed(cfg, c)
    ensures CountsFall(ViewOf(c), Ordered(c))
  {
    hide Placed, ReplayConfirmations, Position, Ordered;
    forall i, j | 0 <= i < j < |Ordered(c)|
      ensures ReplayConfirmations(ViewOf(c), Ordered(c)[i].id) >= ReplayConfirmations(ViewOf(c), Ordered(c)[j].id)
    {
      PositionsRise(cfg, c, i, j);
      CountIs(cfg, c, Ordered(c)[i]);
      CountIs(cfg, c, Ordered(c)[j]);
    }
  }

  // ----- the common past of two states of one chain

  /** `d` is a later state of `c`: no event lost, confirmed blocks as they were. */
  ghost predicate Later(cfg: Config, c: Chain, d: Chain) {
    && Settled(cfg, c) && Valid(cfg, d) && c.events <= d.events && |c.blocks| <= |d.blocks|
    && forall i | 0 <= i < |c.blocks| && c.blocks[i].confirmed :: d.blocks[i] == c.blocks[i]
  }

  lemma {:induction false} KeptGrows(events: seq<Event>, more: seq<Event>, blocks: seq<Block>, n: nat)
    requires events <= more && |events| <= n <= |more|
    requires forall i | |events| <= i < n :: !Assigned(blocks, more[i].id)
    ensures KeptEvents(more, blocks, n) == KeptEvents(events, blocks, |events|)
  {
    if n > |events| {
      KeptGrows(events, more, blocks, n - 1);
    } else {
      KeptSame(events, more, blocks, n);
    }
  }

  lemma {:induction false} KeptSame(events: seq<Event>, more: seq<Event>, blocks: seq<Block>, n: nat)
    requires events <= more && n <= |events|
    ensures KeptEvents(more, blocks, n) == KeptEvents(events, blocks, n)
  {
    if n > 0 {
      KeptSame(events, more, blocks, n - 1);
    }
  }

  /** No later event sits in a block that was confirmed before. */
  lemma NewEventsElsewhere(cfg: Config, c: Chain, d: Chain, k: nat, i: nat)
    requires Later(cfg, c, d) && k <= |c.blocks| && |c.events| <= i < |d.events|
    ensures !Assigned(c.blocks[..k], d.events[i].id)
  {
    hide Linked, Limits, IdBag;
    var id := d.events[i].id;
    forall j | 0 <= j < |c.events| ensures c.events[j].id != id {
      assert d.events[j] == c.events[j];
    }
    PlacedIds(cfg, c, id);
    assert forall p | 0 <= p < k :: c.blocks[..k][p] == c.blocks[p];
  }

  /** How many events lie in the leading confirmed blocks. */
  function PastCount(c: Chain): nat {
    |KeptEvents(c.events, c.blocks[..ConfirmedCount(c.blocks, 0)], |c.events|)|
  }

  /** Both replays start with the same events: those in the blocks confirmed in the earlier state. */
  lemma CommonPast(cfg: Config, c: Chain, d: Chain) returns (k: nat, m: nat)
    requires Later(cfg, c, d)
    ensures m == PastCount(c)
    ensures k == ConfirmedCount(c.blocks, 0)
    ensures m <= |Ordered(c)| && m <= |Ordered(d)| && Ordered(c)[..m] == Ordered(d)[..m]
    ensures forall i | 0 <= i < |Ordered(c)| :: i < m <==> Position(IndexOf(c.blocks), Ordered(c)[i].id) < k
  {
    hide Linked, Limits, IdBag, Position, Ordered;
    k := ConfirmedCount(c.blocks, 0);
    assert c.blocks[..k] == d.blocks[..k];
    var kept := KeptEvents(c.events, c.blocks[..k], |c.events|);
    m := |kept|;
    forall i | |c.events| <= i < |d.events| ensures !Assigned(c.blocks[..k], d.events[i].id) {
      NewEventsElsewhere(cfg, c, d, k, i);
    }
    KeptGrows(c.events, d.events, c.blocks[..k], |d.events|);
    CutReplay(cfg, c, k);
    CutReplay(cfg, d, k);
    SameOrder(Chain(kept, c.blocks[..k], c.psz), Chain(kept, c.blocks[..k], d.psz));
    forall i | 0 <= i < |Ordered(c)| ensures i < m <==> Position(IndexOf(c.blocks), Ordered(c)[i].id) < k {
      CutBorder(cfg, c, k, i);
    }
  }

  /** The replay enters block `k` right after the kept events. */
  lemma CutBorder(cfg: Config, c: Chain, k: nat, i: nat)
    requires Placed(cfg, c) && k <= |c.blocks| && i < |Ordered(c)|
    ensures i < |KeptEvents(c.events, c.blocks[..k], |c.events|)| <==> Position(IndexOf(c.blocks), Ordered(c)[i].id) < k
  {
    hide Limits, IdBag, Position, KeptEvents;
    var blocks := c.blocks[..k];
    var kept := KeptEvents(c.events, blocks, |c.events|);
    CutReplay(cfg, c, k);
    var cut := Chain(kept, blocks, c.psz);
    SortBag(ByReplay(IndexOf(blocks)), kept);
    PositionsRise(cfg, c, i, i);
    KeptPosition(cfg, c, k, Ordered(c)[i]);
    if i < |kept| {
      assert Ordered(c)[i] == Ordered(cut)[i];
      assert Ordered(cut)[i] in kept;
      KeptIn(c.events, blocks, |c.events|, Ordered(c)[i]);
    } else if Assigned(blocks, Ordered(c)[i].id) {
      RestNotKept(cfg, c, k, i);
    }
  }

  lemma RestNotKept(cfg: Config, c: Chain, k: nat, i: nat)
    requires Placed(cfg, c) && k <= |c.blocks|
    requires |KeptEvents(c.events, c.blocks[..k], |c.events|)| <= i < |Ordered(c)|
    ensures !Assigned(c.blocks[..k], Ordered(c)[i].id)
  {
    hide Limits, IdBag, KeptEvents;
    var blocks := c.blocks[..k];
    var kept := KeptEvents(c.events, blocks, |c.events|);
    var s, e := Ordered(c), Ordered(c)[i];
    CutReplay(cfg, c, k);
    SortBag(ByReplay(IndexOf(blocks)), kept);
    SortBag(ByReplay(IndexOf(c.blocks)), c.events);
    forall j | 0 <= j < |kept| ensures s[j] != e {
      SortedOnce(c, j, i);
    }
    assert e !in s[..|kept|] && e in s;
    assert c.events[..|c.events|] == c.events;
    KeptIn(c.events, blocks, |c.events|, e);
  }

  lemma TipRises(cfg: Config, c: Chain, d: Chain)
    requires Later(cfg, c, d) && Tip(c.blocks).Some?
    ensures Tip(d.blocks).Some? && Tip(d.blocks).value >= Tip(c.blocks).value
  {
    hide Linked, Limits, IdBag;
    TipFacts(c.blocks, |c.blocks|);
    TipFacts(d.blocks, |d.blocks|);
    var i :| 0 <= i < |c.blocks| && c.blocks[i].confirmed && c.blocks[i].index == Tip(c.blocks).value;
    assert d.blocks[i] == c.blocks[i];
  }

  /** Events past the confirmed blocks have no confirmations. */
  lemma UnconfirmedCount(cfg: Config, c: Chain, i: nat)
    requires Settled(cfg, c) && i < |Ordered(c)|
    requires Position(IndexOf(c.blocks), Ordered(c)[i].id) >= ConfirmedCount(c.blocks, 0)
    ensures ReplayConfirmations(ViewOf(c), Ordered(c)[i].id) == 0
  {
    hide Linked, Limits, IdBag, Ordered, Position;
    PositionsRise(cfg, c, i, i);
    CountIs(cfg, c, Ordered(c)[i]);
    TipFacts(c.blocks, |c.blocks|);
    if Tip(c.blocks).Some? {
      var t :| 0 <= t < |c.blocks| && c.blocks[t].confirmed && c.blocks[t].index == Tip(c.blocks).value;
      assert t < ConfirmedCount(c.blocks, 0);
    }
  }

  /** Events in confirmed blocks only gain confirmations. */
  lemma CountGrows(cfg: Config, c: Chain, d: Chain, i: nat)
    requires Later(cfg, c, d) && i < |Ordered(c)|
    requires Position(IndexOf(c.blocks), Ordered(c)[i].id) < ConfirmedCount(c.blocks, 0)
    ensures ReplayConfirmations(ViewOf(d), Ordered(c)[i].id) >= ReplayConfirmations(ViewOf(c), Ordered(c)[i].id)
  {
    hide Linked, Limits, IdBag, Ordered, ReplayConfirmations;
    var e := Ordered(c)[i];
    PositionsRise(cfg, c, i, i);
    CountIs(cfg, c, e);
    var p := Position(IndexOf(c.blocks), e.id);
    assert d.blocks[p] == c.blocks[p];
    PositionIs(cfg, d, p, e.id);
    var j :| 0 <= j < |c.events| && c.events[j] == e;
    assert d.events[j] == e;
    CountIs(cfg, d, e);
    if Tip(c.blocks).Some? {
      TipRises(cfg, c, d);
    }
  }

  lemma {:induction false} NothingBetween(v: View, policy: Policy, events: seq<Event>, m: nat, n: nat)
    requires m <= n <= |events| && forall i | m <= i < n :: !IsModerationKind(events[i].kind)
    ensures Moderated(v, policy, events, n) == Moderated(v, policy, events, m)
  {
    hide Request, Start;
    if m < n {
      NothingBetween(v, policy, events, m, n - 1);
    }
  }

  /**
   * With finality required throughout, the moderation state of a later chain is the earlier state continued: the
   * replay of the later chain passes through exactly the earlier state after the first `n` events, which both
   * replays share.
   */
  lemma ModerationOnlyContinues(cfg: Config, c: Chain, d: Chain, policy: Policy) returns (n: nat)
    requires Later(cfg, c, d) && FinalThroughout(ViewOf(c), policy, Ordered(c))
    ensures n <= |Ordered(c)| && n <= |Ordered(d)| && Ordered(c)[..n] == Ordered(d)[..n]
    ensures Moderated(ViewOf(d), policy, Ordered(d), n) == ModerationOf(policy, c)
  {
    hide Linked, Limits, IdBag, Ordered, Position, ReplayConfirmations, Moderated, Positions, UniqueIds;
    var k, m := CommonPast(cfg, c, d);
    var v, s := ViewOf(c), Ordered(c);
    ReplayCountsFall(cfg, c);
    var f := FirstPending(v, policy, s, 0);
    PendingRest(v, policy, s, |s|);
    n := if f <= m then f else m;
    if m < f {
      forall i | m <= i < f ensures !IsModerationKind(s[i].kind) {
        UnconfirmedCount(cfg, c, i);
        assert 0 <= i <= |s| && Moderated(v, policy, s, i).policy.minConfirmations >= 1;
      }
      NothingBetween(v, policy, s, m, f);
    }
    forall i | 0 <= i < n
      ensures Ordered(d)[i] == s[i] && ReplayConfirmations(ViewOf(d), s[i].id) >= ReplayConfirmations(v, s[i].id)
    {
      assert Ordered(d)[..m][i] == s[..m][i];
      CountGrows(cfg, c, d, i);
    }
    PrefixModeratedAlike(v, ViewOf(d), policy, s, Ordered(d), n);
    assert s[..n] == s[..m][..n] && Ordered(d)[..n] == Ordered(d)[..m][..n];
  }

  /** The same for every timely run of appends and ticks. */
  lemma RunsOnlyContinue(cfg: Config, c: Chain, ops: seq<Op>, policy: Policy) returns (n: nat)
    requires Settled(cfg, c) && TimelyRun(cfg, c, ops, |ops|) && FinalThroughout(ViewOf(c), policy, Ordered(c))
    ensures var d := Run(cfg, c, ops, |ops|);
            && n <= |Ordered(c)| && n <= |Ordered(d)| && Ordered(c)[..n] == Ordered(d)[..n]
            && Moderated(ViewOf(d), policy, Ordered(d), n) == ModerationOf(policy, c)
  {
    hide Linked, Placed, Ordered, Moderated, Run, FinalThroughout, ModerationOf;
    ConfirmedHistoryImmutable(cfg, c, ops, |ops|);
    n := ModerationOnlyContinues(cfg, c, Run(cfg, c, ops, |ops|), policy);
  }

  /** A policy that requires finality requires it throughout every replay without policy updates. */
  lemma FixedPolicyIsFinal(v: View, policy: Policy, events: seq<Event>)
    requires policy.requireFinality && policy.minConfirmations >= 1 && forall e | e in events :: !e.kind.PolicyUpdated?
    ensures FinalThroughout(v, policy, events)
  {
    hide Moderated, Effective, ReplayConfirmations;
    forall n | 0 <= n <= |events| ensures Moderated(v, policy, events, n).policy == policy {
      forall i | 0 <= i < n ensures !ActionAt(v, policy, events, i).SetPolicy? {
        assert events[i] in events;
        SetPolicyIs(v, Moderated(v, policy, events, i), events[i]);
      }
      SteadyReplay(v, policy, events, n);
    }
  }

  // ----- money

  /** A block that could be claimed can be claimed later. */
  lemma ClaimableLater(cfg: Config, c: Chain, d: Chain, i: nat)
    requires Later(cfg, c, d)
    ensures Claimable(c.blocks, i) ==> Claimable(d.blocks, i)
    ensures Claimable(c.blocks, i) <==> i < |c.blocks| && c.blocks[i].confirmed
    ensures Claimable(d.blocks, i) <==> i < |d.blocks| && d.blocks[i].confirmed
  {
    hide Linked, Limits, IdBag, Claimable, UniqueIds;
    ClaimableIs(c.blocks, i);
    ClaimableIs(d.blocks, i);
  }

  /**
   * Money in the confirmed past is final with one exception, which is exact: after the events both replays share, the
   * later ledger is the earlier one if and only if the earlier replay met no claim there that it refused only because the
   * block was not confirmed, and whose block is confirmed in the later state. That is the case if and only if no claim
   * accepted up to there in the later replay names a block that was not confirmed in the earlier state.
   */
  lemma MoneyOnlyContinues(cfg: Config, econ: Econ, c: Chain, d: Chain) returns (m: nat)
    requires Later(cfg, c, d)
    ensures m == PastCount(c) && m <= |Ordered(c)| && m <= |Ordered(d)| && Ordered(c)[..m] == Ordered(d)[..m]
    ensures forall i | 0 <= i < |Ordered(c)| ::
              i < m <==> Position(IndexOf(c.blocks), Ordered(c)[i].id) < ConfirmedCount(c.blocks, 0)
    ensures SameMoney(Economy(econ, c.blocks, Ordered(c), m), Economy(econ, d.blocks, Ordered(d), m)) <==>
            forall i | 0 <= i < m && Waits(econ, c, i) ::
              var w := ClaimedBlock(econ, c, i); !(w < |d.blocks| && d.blocks[w].confirmed)
    ensures var later := Economy(econ, d.blocks, Ordered(d), m);
            SameMoney(Economy(econ, c.blocks, Ordered(c), m), later) <==>
            forall i | i in later.claimed :: i < |c.blocks| && c.blocks[i].confirmed
  {
    hide Later, Ordered, Economy, Claimable, SameMoney, Position, IndexUpTo, WouldClaim, PastCount;
    var k;
    k, m := CommonPast(cfg, c, d);
    forall i: nat
      ensures Claimable(c.blocks, i) ==> Claimable(d.blocks, i)
      ensures Claimable(c.blocks, i) <==> i < |c.blocks| && c.blocks[i].confirmed
      ensures Claimable(d.blocks, i) <==> i < |d.blocks| && d.blocks[i].confirmed
    {
      ClaimableLater(cfg, c, d, i);
    }
    FewerClaimsExactly(econ, c.blocks, d.blocks, Ordered(d), m);
    FewerClaimsKnown(econ, c.blocks, d.blocks, Ordered(d), m);
    EconomyOfPrefix(econ, c.blocks, Ordered(c), m, m);
    EconomyOfPrefix(econ, c.blocks, Ordered(d), m, m);
    forall i | 0 <= i < m
      ensures ClaimsAdded(econ, c.blocks, d.blocks, Economy(econ, c.blocks, Ordered(d), i), Ordered(d)[i]) <==>
              Waits(econ, c, i) &&
              var w := ClaimedBlock(econ, c, i); w < |d.blocks| && d.blocks[w].confirmed
    {
      EconomyOfPrefix(econ, c.blocks, Ordered(c), m, i);
      EconomyOfPrefix(econ, c.blocks, Ordered(d), m, i);
      assert Ordered(c)[..m][i] == Ordered(d)[..m][i];
    }
  }

  /** The replay refuses its event `i` for nothing but the block it claims, which is not confirmed. */
  predicate Waits(econ: Econ, c: Chain, i: nat)
    requires i < |Ordered(c)|
  {
    var w := WouldClaim(econ, Economy(econ, c.blocks, Ordered(c), i), Ordered(c)[i]);
    w.Some? && !(w.value < |c.blocks| && c.blocks[w.value].confirmed)
  }

  function ClaimedBlock(econ: Econ, c: Chain, i: nat): nat
    requires i < |Ordered(c)| && Waits(econ, c, i)
  {
    WouldClaim(econ, Economy(econ, c.blocks, Ordered(c), i), Ordered(c)[i]).value
  }

  /** A waiting claim is refused, as naming a block that is not confirmed. */
  lemma WaitingIsRefused(cfg: Config, econ: Econ, c: Chain, i: nat)
    requires Valid(cfg, c) && i < |Ordered(c)| && Waits(econ, c, i)
    ensures JudgeEvent(econ, c.blocks, Economy(econ, c.blocks, Ordered(c), i), Ordered(c)[i]) == Refuse(UnconfirmedBlock)
  {
    hide Ordered, Economy, Claimable, WorkOk, ExpectedReward, Canonical.ParseMap, ClaimWitness, Linked, Limits, IdBag,
      UniqueIds, TransferWitness, PostValue;
    ClaimableIs(c.blocks, ClaimedBlock(econ, c, i));
  }

  // ----- every later state at once

  lemma {:induction false} OpsPrefix(cfg: Config, c: Chain, ops: seq<Op>, op: Op, n: nat)
    requires n <= |ops|
    ensures Run(cfg, c, ops + [op], n) == Run(cfg, c, ops, n)
    ensures TimelyRun(cfg, c, ops + [op], n) == TimelyRun(cfg, c, ops, n)
  {
    hide Step, Timely, Judge;
    if n > 0 {
      OpsPrefix(cfg, c, ops, op, n - 1);
    }
  }

  /** One more tick after a timely run. */
  lemma TickAfter(cfg: Config, c: Chain, ops: seq<Op>, now: int)
    requires TimelyRun(cfg, c, ops, |ops|)
    ensures var more := ops + [TickOp(now)];
            TimelyRun(cfg, c, more, |more|) && Run(cfg, c, more, |more|) == Tick(cfg, Run(cfg, c, ops, |ops|), now)
  {
    hide Tick, Timely, Judge;
    OpsPrefix(cfg, c, ops, TickOp(now), |ops|);
  }

  lemma OneMore(cfg: Config, blocks: seq<Block>, now: int)
    requires blocks != [] && now == blocks[|blocks| - 1].openedUnix + cfg.interval
    ensures Behind(cfg, blocks, now) >= 1
  {
  }

  /** Ticks alone make the timeline as long as one likes. */
  lemma {:induction false} TicksOpen(cfg: Config, c: Chain, k: nat) returns (ops: seq<Op>)
    requires Settled(cfg, c) && c.blocks != []
    ensures TimelyRun(cfg, c, ops, |ops|) && k < |Run(cfg, c, ops, |ops|).blocks|
    ensures Settled(cfg, Run(cfg, c, ops, |ops|))
    decreases k
  {
    hide Run, TimelyRun, Settled, Valid, Tick;
    if k < |c.blocks| {
      ops := [];
      NoOps(cfg, c, ops);
    } else {
      ops := TicksOpen(cfg, c, k - 1);
      var d := Run(cfg, c, ops, |ops|);
      var now := d.blocks[|d.blocks| - 1].openedUnix + cfg.interval;
      SettledIsValid(cfg, d);
      OneMore(cfg, d.blocks, now);
      TickConfirms(cfg, d, now);
      TickAfter(cfg, c, ops, now);
      ops := ops + [TickOp(now)];
    }
    ConfirmedHistoryImmutable(cfg, c, ops, |ops|);
  }

  lemma NoOps(cfg: Config, c: Chain, ops: seq<Op>)
    requires ops == []
    ensures TimelyRun(cfg, c, ops, |ops|) && Run(cfg, c, ops, |ops|) == c
  {
  }

  lemma SettledIsValid(cfg: Config, c: Chain)
    requires Settled(cfg, c)
    ensures Valid(cfg, c)
  {
  }

  /** And confirm any block in it. */
  lemma TicksConfirm(cfg: Config, c: Chain, k: nat) returns (ops: seq<Op>)
    requires Settled(cfg, c) && c.blocks != []
    ensures TimelyRun(cfg, c, ops, |ops|)
    ensures var d := Run(cfg, c, ops, |ops|); k < |d.blocks| && d.blocks[k].confirmed
  {
    hide Run, TimelyRun, Settled, Valid, Tick, Behind;
    ops := TicksOpen(cfg, c, k);
    var d := Run(cfg, c, ops, |ops|);
    var now := d.blocks[k].openedUnix + cfg.interval;
    SettledIsValid(cfg, d);
    TickConfirms(cfg, d, now);
    TickAfter(cfg, c, ops, now);
    ops := ops + [TickOp(now)];
  }

  /** After the events of the confirmed blocks, the ledger of `d` is that of `c`. */
  predicate SamePast(econ: Econ, c: Chain, d: Chain) {
    var m := PastCount(c);
    m <= |Ordered(c)| && m <= |Ordered(d)| &&
    SameMoney(Economy(econ, c.blocks, Ordered(c), m), Economy(econ, d.blocks, Ordered(d), m))
  }

  /** No timely run of appends and ticks changes the ledger after the events of the confirmed blocks. */
  ghost predicate MoneyFinal(cfg: Config, econ: Econ, c: Chain) {
    forall ops | TimelyRun(cfg, c, ops, |ops|) :: SamePast(econ, c, Run(cfg, c, ops, |ops|))
  }

  lemma RunIsLater(cfg: Config, c: Chain, ops: seq<Op>)
    requires Settled(cfg, c) && TimelyRun(cfg, c, ops, |ops|)
    ensures Later(cfg, c, Run(cfg, c, ops, |ops|))
  {
    hide Run, TimelyRun, Valid;
    ConfirmedHistoryImmutable(cfg, c, ops, |ops|);
  }

  /** The money in the confirmed past is final exactly when no claim waits there. */
  lemma MoneyIsFinal(cfg: Config, econ: Econ, c: Chain)
    requires Settled(cfg, c)
    ensures PastCount(c) <= |Ordered(c)|
    ensures MoneyFinal(cfg, econ, c) <==> forall i | 0 <= i < PastCount(c) :: !Waits(econ, c, i)
  {
    hide Run, TimelyRun, Settled, Later, Ordered, Economy, SameMoney, Waits, ClaimedBlock, PastCount, Position, IndexUpTo;
    var m := PastCount(c);
    PastFits(cfg, c);
    if forall i | 0 <= i < m :: !Waits(econ, c, i) {
      forall ops | TimelyRun(cfg, c, ops, |ops|) ensures SamePast(econ, c, Run(cfg, c, ops, |ops|)) {
        RunIsLater(cfg, c, ops);
        var _ := MoneyOnlyContinues(cfg, econ, c, Run(cfg, c, ops, |ops|));
      }
    }
    if i :| 0 <= i < m && Waits(econ, c, i) {
      WaitingPaid(cfg, econ, c, i);
    }
  }

  lemma WaitingPaid(cfg: Config, econ: Econ, c: Chain, i: nat)
    requires Settled(cfg, c) && i < PastCount(c) <= |Ordered(c)| && Waits(econ, c, i)
    ensures !MoneyFinal(cfg, econ, c)
  {
    hide Run, TimelyRun, Settled, Later, Ordered, Economy, SameMoney, Waits, ClaimedBlock, PastCount, Position, IndexUpTo;
    NoBlocksNoPast(c);
    var w := ClaimedBlock(econ, c, i);
    var ops := TicksConfirm(cfg, c, w);
    RunIsLater(cfg, c, ops);
    var _ := MoneyOnlyContinues(cfg, econ, c, Run(cfg, c, ops, |ops|));
    assert !SamePast(econ, c, Run(cfg, c, ops, |ops|));
  }

  lemma PastFits(cfg: Config, c: Chain)
    requires Settled(cfg, c)
    ensures PastCount(c) <= |Ordered(c)|
  {
    hide Linked, Limits, IdBag, KeptEvents, Ordered;
    CutReplay(cfg, c, ConfirmedCount(c.blocks, 0));
  }

  lemma NoBlocksNoPast(c: Chain)
    ensures c.blocks == [] ==> PastCount(c) == 0
  {
    if c.blocks == [] {
      NothingKept(c.events, c.blocks[..ConfirmedCount(c.blocks, 0)], |c.events|);
    }
  }

  lemma {:induction false} NothingKept(events: seq<Event>, blocks: seq<Block>, n: nat)
    requires n <= |events| && blocks == []
    ensures KeptEvents(events, blocks, n) == []
  {
    if n > 0 {
      NothingKept(events, blocks, n - 1);
    }
  }
}
