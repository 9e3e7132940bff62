/** The audit after a rollback. */
module Recovery {
  import opened Types
  import opened Sorting
  import opened Timeline
  import opened Invariant
  import opened Checkpoint
  import opened Audit
  import opened Ledger
  import opened Replay
  import opened Moderation
  import opened Finality
  import Canonical

  /** What the self-audit looks at: events and blocks, refused money, denied moderation. */
  ghost predicate Healthy(cfg: Config, x: Inspector, econ: Econ, policy: Policy, c: Chain) {
    Passes(cfg, x, c) && Materialized(econ, c).refused == map[] && ModerationOf(policy, c).denied == map[]
  }

  // ----- refusals in a replay over fewer blocks

  lemma RefusedGrows(econ: Econ, blocks: seq<Block>, l: Ledger, e: Event)
    ensures l.refused != map[] ==> EconStep(econ, blocks, l, e).refused != map[]
    ensures JudgeEvent(econ, blocks, l, e).Refuse? ==> EconStep(econ, blocks, l, e).refused != map[]
  {
    hide JudgeEvent;
    if l.refused != map[] {
      var id :| id in l.refused;
      assert id in EconStep(econ, blocks, l, e).refused;
    }
    if JudgeEvent(econ, blocks, l, e).Refuse? {
      assert e.id in EconStep(econ, blocks, l, e).refused;
    }
  }

  lemma ClaimsAddedRefused(econ: Econ, a: seq<Block>, b: seq<Block>, l: Ledger, e: Event)
    requires ClaimsAdded(econ, a, b, l, e)
    ensures JudgeEvent(econ, a, l, e).Refuse?
  {
    hide Claimable, JudgeTransfer, JudgePost, WorkOk, ExpectedReward, Canonical.ParseMap, ClaimWitness;
  }

  lemma {:induction false} NoneRefusedNoneAdded(econ: Econ, a: seq<Block>, b: seq<Block>, events: seq<Event>, n: nat)
    requires n <= |events| && Economy(econ, a, events, n).refused == map[]
    ensures forall i | 0 <= i < n :: !ClaimsAdded(econ, a, b, Economy(econ, a, events, i), events[i])
  {
    hide Economy, EconStep, ClaimsAdded, JudgeEvent;
    if n > 0 {
      EconomyNext(econ, a, events, n - 1);
      var l, e := Economy(econ, a, events, n - 1), events[n - 1];
      RefusedGrows(econ, a, l, e);
      NoneRefusedNoneAdded(econ, a, b, events, n - 1);
      if ClaimsAdded(econ, a, b, l, e) {
        ClaimsAddedRefused(econ, a, b, l, e);
      }
    }
  }

  /** A replay over fewer claimable blocks refuses nothing exactly when the longer one does not, and books the same money. */
  lemma FewerRefusals(econ: Econ, a: seq<Block>, b: seq<Block>, events: seq<Event>, n: nat)
    requires n <= |events| && forall i: nat :: Claimable(a, i) ==> Claimable(b, i)
    ensures var less, more := Economy(econ, a, events, n), Economy(econ, b, events, n);
            less.refused == map[] <==> more.refused == map[] && SameMoney(less, more)
  {
    hide Economy, Claimable, ClaimsAdded;
    var less, more := Economy(econ, a, events, n), Economy(econ, b, events, n);
    if less.refused == map[] {
      NoneRefusedNoneAdded(econ, a, b, events, n);
      FewerClaimsKnown(econ, a, b, events, n);
      assert more.refused.Keys == {};
    }
    if more.refused == map[] && SameMoney(less, more) {
      assert less.refused.Keys == {};
    }
  }

  // ----- recovery

  /** How many blocks a rollback keeps. */
  function KeptBlocks(cfg: Config, c: Chain): (k: nat)
    ensures k <= |c.blocks|
  {
    Min(RollbackTarget(cfg, c.blocks) + 1, |c.blocks|)
  }

  function Retained(cfg: Config, c: Chain): seq<Block> { c.blocks[..KeptBlocks(cfg, c)] }

  lemma {:induction false} KeptAtMost(events: seq<Event>, blocks: seq<Block>, n: nat)
    requires n <= |events|
    ensures |KeptEvents(events, blocks, n)| <= n
  {
    if n > 0 {
      KeptAtMost(events, blocks, n - 1);
    }
  }

  lemma KeptFits(c: Chain, blocks: seq<Block>)
    ensures |KeptEvents(c.events, blocks, |c.events|)| <= |Ordered(c)|
  {
    hide Sort;
    KeptAtMost(c.events, blocks, |c.events|);
    SortBag(ByReplay(IndexOf(c.blocks)), c.events);
    assert |multiset(Ordered(c))| == |multiset(c.events)|;
  }

  /** The replay before a rollback, stopped after as many events as the rollback keeps. */
  function Stopped(cfg: Config, econ: Econ, c: Chain): Ledger {
    KeptFits(c, Retained(cfg, c));
    Economy(econ, c.blocks, Ordered(c), |KeptEvents(c.events, Retained(cfg, c), |c.events|)|)
  }

  lemma RecoveredRefusals(cfg: Config, econ: Econ, c: Chain, now: int)
    requires Valid(cfg, c) && c.blocks != []
    ensures var stopped := Stopped(cfg, econ, c);
            Materialized(econ, Rollback(cfg, c, now)).refused == map[] <==>
            stopped.refused == map[] && forall i | i in stopped.claimed :: i < KeptBlocks(cfg, c)
  {
    hide Linked, Limits, IdBag, Rollback, RollbackTarget, Economy, KeptEvents, Ordered, Claimable, SameMoney;
    RollbackCuts(cfg, c, now);
    RollbackTruncates(cfg, econ, c, now);
    var k := KeptBlocks(cfg, c);
    var m := |Rollback(cfg, c, now).events|;
    forall i: nat ensures Claimable(c.blocks[..k], i) ==> Claimable(c.blocks, i) {
      ClaimableIs(c.blocks, i);
      ClaimableIs(c.blocks[..k], i);
    }
    FewerRefusals(econ, c.blocks[..k], c.blocks, Ordered(c), m);
    EconomyOfPrefix(econ, c.blocks[..k], Ordered(c), m, m);
  }

  /**
   * Recovery ends in a healthy store exactly when every event in the retained blocks passes its own checks and fits a block
   * alone, the replay before the rollback had refused none of them and had accepted no claim of a dropped block from them,
   * and the moderation replay of what is left denies nothing.
   */
  lemma RecoveryHelps(cfg: Config, x: Inspector, econ: Econ, policy: Policy, c: Chain, now: int)
    requires Valid(cfg, c) && c.blocks != []
    ensures var stopped, retained := Stopped(cfg, econ, c), Retained(cfg, c);
            Healthy(cfg, x, econ, policy, Rollback(cfg, c, now)) <==>
            && (forall e | e in c.events && Assigned(retained, e.id) ::
                 EventClean(cfg, x, e) && EventBytes(e) <= cfg.maxBlockBytes)
            && stopped.refused == map[] && (forall i | i in stopped.claimed :: i < KeptBlocks(cfg, c))
            && ModerationOf(policy, Rollback(cfg, c, now)).denied == map[]
  {
    hide Valid, Rollback, RollbackTarget, Stopped, ModerationOf, Materialized, Clean, EventClean, Assigned, EventBytes, KeptEvents;
    var r := Rollback(cfg, c, now);
    RollbackCuts(cfg, c, now);
    RollbackValid(cfg, c, now);
    ValidIsClean(cfg, r);
    RecoveredRefusals(cfg, econ, c, now);
    forall e ensures e in r.events <==> e in c.events && Assigned(Retained(cfg, c), e.id) {
      KeptIn(c.events, Retained(cfg, c), |c.events|, e);
      assert c.events[..|c.events|] == c.events;
    }
  }

  /** If the retained blocks are empty it always helps, whatever was wrong before. */
  lemma EmptyPastRecovers(cfg: Config, x: Inspector, econ: Econ, policy: Policy, c: Chain, now: int)
    requires Valid(cfg, c) && c.blocks != [] && forall i | 0 <= i < KeptBlocks(cfg, c) :: c.blocks[i].eventIds == []
    ensures Rollback(cfg, c, now).events == [] && Healthy(cfg, x, econ, policy, Rollback(cfg, c, now))
  {
    hide Valid, RollbackTarget, KeptEvents, Rollback, Healthy;
    var r := Rollback(cfg, c, now);
    RollbackCuts(cfg, c, now);
    RollbackValid(cfg, c, now);
    if r.events != [] {
      KeptIn(c.events, Retained(cfg, c), |c.events|, r.events[0]);
    }
    NothingIsHealthy(cfg, x, econ, policy, r);
  }

  lemma NothingIsHealthy(cfg: Config, x: Inspector, econ: Econ, policy: Policy, c: Chain)
    requires Valid(cfg, c) && c.events == []
    ensures Healthy(cfg, x, econ, policy, c)
  {
    hide Valid, Clean, Sort, IndexUpTo, Seeded;
    ValidIsClean(cfg, c);
    SortBag(ByReplay(IndexOf(c.blocks)), c.events);
    assert |Ordered(c)| == |multiset(Ordered(c))| == 0;
  }

  // ----- moderation after a rollback

  /** Confirmations have no say in this policy. */
  predicate IgnoresFinality(p: Policy) { !p.enabled || !p.requireFinality || p.minConfirmations == 0 }

  lemma {:induction false} ModeratedAnyView(v: View, v': View, policy: Policy, events: seq<Event>, n: nat)
    requires n <= |events| && IgnoresFinality(policy) && forall e | e in events :: !e.kind.PolicyUpdated?
    ensures Moderated(v', policy, events, n) == Moderated(v, policy, events, n) && Moderated(v, policy, events, n).policy == policy
  {
    hide Request, Seeded, ReplayConfirmations;
    if n > 0 {
      ModeratedAnyView(v, v', policy, events, n - 1);
      SetPolicyIs(v, Moderated(v, policy, events, n - 1), events[n - 1]);
    }
  }

  lemma {:induction false} ModeratedPrefix(v: View, policy: Policy, events: seq<Event>, m: nat, n: nat)
    requires n <= m <= |events|
    ensures Moderated(v, policy, events[..m], n) == Moderated(v, policy, events, n)
  {
    hide ModStep, Start;
    if n > 0 {
      ModeratedPrefix(v, policy, events, m, n - 1);
    }
  }

  lemma {:induction false} DeniedStays(v: View, policy: Policy, events: seq<Event>, m: nat, n: nat)
    requires m <= n <= |events|
    ensures Moderated(v, policy, events, m).denied.Keys <= Moderated(v, policy, events, n).denied.Keys
  {
    hide Decide, Start;
    if m < n {
      DeniedStays(v, policy, events, m, n - 1);
    }
  }

  /** A retained event has no more confirmations after the rollback than before. */
  lemma CutConfirmations(cfg: Config, c: Chain, r: Chain, e: Event)
    requires Placed(cfg, c) && Placed(cfg, r) && r.blocks <= c.blocks && e in r.events && e in c.events
    ensures ReplayConfirmations(ViewOf(c), e.id) >= ReplayConfirmations(ViewOf(r), e.id)
  {
    hide Limits, IdBag, Position, IndexUpTo, ReplayConfirmations, UniqueIds;
    CountIs(cfg, r, e);
    CountIs(cfg, c, e);
    var p := Position(IndexOf(r.blocks), e.id);
    assert c.blocks[p] == r.blocks[p];
    PositionIs(cfg, c, p, e.id);
    TipFacts(r.blocks, |r.blocks|);
    TipFacts(c.blocks, |c.blocks|);
    if Tip(r.blocks).Some? {
      var i :| 0 <= i < |r.blocks| && r.blocks[i].confirmed && r.blocks[i].index == Tip(r.blocks).value;
      assert c.blocks[i] == r.blocks[i];
    }
  }

  /**
   * Where no event updates the policy, moderation after a rollback is the moderation before it stopped at some event, the
   * last retained one if confirmations have no say. So a rollback denies nothing that was not denied before.
   */
  lemma RollbackModeration(cfg: Config, policy: Policy, c: Chain, now: int) returns (n: nat)
    requires Valid(cfg, c) && c.blocks != [] && forall e | e in c.events :: !e.kind.PolicyUpdated?
    ensures var r := Rollback(cfg, c, now);
            && n <= |Ordered(r)| <= |Ordered(c)| && Ordered(r) == Ordered(c)[..|Ordered(r)|]
            && ModerationOf(policy, r) == Moderated(ViewOf(c), policy, Ordered(c), n)
            && (IgnoresFinality(policy) ==> n == |Ordered(r)|)
            && ModerationOf(policy, r).denied.Keys <= ModerationOf(policy, c).denied.Keys
  {
    hide Linked, Limits, IdBag, Rollback, RollbackTarget, KeptEvents, Ordered, Moderated, FirstPending, ReplayConfirmations,
      Before, IndexUpTo, UniqueIds, Positions;
    var r := Rollback(cfg, c, now);
    RetainedReplay(cfg, c, now);
    var s, all := Ordered(r), Ordered(c);
    forall e | e in s ensures e in r.events && e in c.events {
      InReplay(r, e);
    }
    if IgnoresFinality(policy) {
      n := |s|;
      ModeratedAnyView(ViewOf(c), ViewOf(r), policy, s, n);
    } else {
      ReplayCountsFall(cfg, r);
      FixedPolicyIsFinal(ViewOf(r), policy, s);
      n := FirstPending(ViewOf(r), policy, s, 0);
      PendingRest(ViewOf(r), policy, s, |s|);
      forall i | 0 <= i < n ensures ReplayConfirmations(ViewOf(c), s[i].id) >= ReplayConfirmations(ViewOf(r), s[i].id) {
        assert s[i] in s;
        CutConfirmations(cfg, c, r, s[i]);
      }
      PrefixModeratedAlike(ViewOf(r), ViewOf(c), policy, s, s, n);
    }
    ModeratedPrefix(ViewOf(c), policy, all, |s|, n);
    DeniedStays(ViewOf(c), policy, all, n, |all|);
  }

  lemma InReplay(c: Chain, e: Event)
    ensures e in Ordered(c) <==> e in c.events
  {
    hide Sort;
    SortBag(ByReplay(IndexOf(c.blocks)), c.events);
    assert e in multiset(Ordered(c)) <==> e in multiset(c.events);
  }

  lemma RetainedReplay(cfg: Config, c: Chain, now: int)
    requires Valid(cfg, c) && c.blocks != []
    ensures var r := Rollback(cfg, c, now);
            && Valid(cfg, r) && r.blocks <= c.blocks && (forall e | e in r.events :: e in c.events)
            && |Ordered(r)| <= |Ordered(c)| && Ordered(r) == Ordered(c)[..|Ordered(r)|]
  {
    hide Linked, Limits, IdBag, Rollback, RollbackTarget, KeptEvents, Sort, IndexUpTo;
    var r := Rollback(cfg, c, now);
    RollbackCuts(cfg, c, now);
    RollbackValid(cfg, c, now);
    CutReplay(cfg, c, KeptBlocks(cfg, c));
    forall e | e in r.events ensures e in c.events {
      KeptIn(c.events, Retained(cfg, c), |c.events|, e);
      assert c.events[..|c.events|] == c.events;
    }
  }

  // ----- the audit and the replay

  /** A claim or transfer that the ledger accepts passes the audit of its fields. */
  lemma AcceptedIsClean(econ: Econ, blocks: seq<Block>, l: Ledger, e: Event)
    ensures var v, payload := JudgeEvent(econ, blocks, l, e), Canonical.ParseMap(e.payload);
            && (v.Claim? || v.Transfer? ==> FieldsClean(e.kind, payload))
            && (v.Spend? ==> IntField(payload, "post_value") >= 0)
  {
    hide Canonical.ParseMap, Claimable, WorkOk, ExpectedReward, ClaimWitness, TransferWitness;
  }

  /**
   * A moderation event that takes effect passes it too, unless it flags, hides or unhides something it does not name in a
   * field the audit knows: the replay then also looks at `target_id`, and takes the event itself for the object.
   */
  lemma ActedIsClean(v: View, m: Mod, e: Event)
    ensures var a, payload := Decide(v, m, e), Canonical.ParseMap(e.payload);
            !a.Skip? && !a.Deny? ==>
              (FieldsClean(e.kind, payload) <==> !(a.Flag? || a.Hide? || a.Unhide?) || NamesContent(payload))
  {
    hide Canonical.ParseMap, Effective, ReplayConfirmations, Updated, Canonical.SkipSpaces, Canonical.DropSpaces;
    assert Canonical.Trim("") == "";
  }
}
