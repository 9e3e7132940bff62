/** Runs from a new store on which recovery does not help. */
module Relapses {
  import opened Types
  import opened Text
  import opened Timeline
  import opened Invariant
  import opened Preservation
  import opened Checkpoint
  import opened Clock
  import opened History
  import opened Audit
  import opened Ledger
  import opened Replay
  import opened Moderation
  import opened Producer
  import opened Sha256
  import opened SmallRuns
  import opened Incidents
  import opened Recovery
  import opened AuditMeaning
  import Canonical

  /** A claim of a block that was claimed before is refused. */
  lemma ClaimedIsRefused(econ: Econ, blocks: seq<Block>, l: Ledger, e: Event, i: nat)
    requires e.kind.BlockRewardClaimed? && i in l.claimed && NatField(Canonical.ParseMap(e.payload), "block_index") == Some(i)
    ensures JudgeEvent(econ, blocks, l, e).Refuse?
  {
    hide Canonical.ParseMap, Claimable, WorkOk, ExpectedReward, ClaimWitness;
  }

  /** The same claim once more, under another id. */
  function SecondClaim(econ: Econ, id: Identity, b: Block, ts: int): Event { FreeClaim(econ, id, b, ts).(id := "d") }

  function TwoClaims(cfg: Config, econ: Econ, id: Identity, b: Block, ts: int): seq<Op> {
    [AppendAt(FreeClaim(econ, id, b, ts)), AppendAt(SecondClaim(econ, id, b, ts)), TickOp(ts + cfg.interval + cfg.interval)]
  }

  predicate BothFit(cfg: Config, a: Event, b: Event) {
    Fit(cfg, a) && Fit(cfg, b) && cfg.maxBlockEvents >= 2 && EventBytes(a) + EventBytes(b) <= cfg.maxBlockBytes
  }

  /** Two events appended at one time and a tick two intervals later: both in genesis, the block after it confirmed. */
  lemma TwoWait(cfg: Config, psz: string, a: Event, b: Event)
    requires BothFit(cfg, a, b) && a.ts == b.ts && Priority(a.kind) == Priority(b.kind) && LexLess(a.id, b.id)
    ensures var c := Append(cfg, Append(cfg, Blank(psz), a, a.ts, a.ts), b, b.ts, b.ts);
            var r := Tick(cfg, c, a.ts + cfg.interval + cfg.interval);
            && Valid(cfg, r) && r.events == [a, b] && |r.blocks| >= 2 && r.blocks[1].confirmed && Ordered(r) == [a, b]
            && a.id in r.blocks[0].eventIds && b.id in r.blocks[0].eventIds
  {
    hide Append, Tick, Valid, Fit, EventBytes, Behind, Ordered, Position, IndexUpTo;
    var now := a.ts + cfg.interval + cfg.interval;
    var c := Append(cfg, Append(cfg, Blank(psz), a, a.ts, a.ts), b, b.ts, b.ts);
    var r := Tick(cfg, c, now);
    LexTotal(a.id, b.id);
    SecondStep(cfg, psz, a, b);
    TiedStep(cfg, psz, a, b);
    SharedBlock(cfg, psz, a, b);
    if |c.blocks| == 1 {
      TwoBehind(cfg, c.blocks, now);
      AfterTwo(a.ts, cfg.interval);
    }
    TickConfirms(cfg, c, now);
    TickOpens(cfg, c, now);
    TickValid(cfg, c, now);
    TickEvents(cfg, c, now);
    AtPosition(cfg, c, a);
    AtPosition(cfg, c, b);
    InFirst(cfg, r, a.id);
    InFirst(cfg, r, b.id);
    TiedBefore(IndexOf(r.blocks), a, b);
    TwoOrdered(r, a, b);
  }

  lemma AtPosition(cfg: Config, c: Chain, e: Event)
    requires Valid(cfg, c) && e in c.events && Position(IndexOf(c.blocks), e.id) == 0
    ensures c.blocks != [] && e.id in c.blocks[0].eventIds
  {
    hide Placed, Linked, Position, IndexUpTo;
    var i := BlockOf(cfg, c, e);
    PositionIs(cfg, c, i, e.id);
  }

  lemma TiedBefore(index: map<string, nat>, a: Event, b: Event)
    requires Position(index, a.id) == Position(index, b.id) && a.ts == b.ts
    requires Priority(a.kind) == Priority(b.kind) && LexLess(a.id, b.id)
    ensures Before(index, a, b)
  {
  }

  lemma KeepsBoth(cfg: Config, c: Chain, a: Event, b: Event)
    requires c.events == [a, b] && c.blocks != [] && a.id in c.blocks[0].eventIds && b.id in c.blocks[0].eventIds
    ensures KeptEvents(c.events, Retained(cfg, c), |c.events|) == [a, b]
  {
    hide RollbackTarget;
    assert Retained(cfg, c)[0] == c.blocks[0];
    KeptAll(c.events, Retained(cfg, c), 2);
    assert c.events[..2] == c.events;
  }

  /** Over blocks of which the second can be claimed, the first of the two claims is paid and the second refused. */
  lemma SecondRefused(econ: Econ, blocks: seq<Block>, id: Identity, b: Block, ts: int)
    requires HexHash(econ.h) && econ.units >= 1 && b.index == 1 && Claimable(blocks, 1)
    ensures var events := [FreeClaim(econ, id, b, ts), SecondClaim(econ, id, b, ts)];
            var l := Economy(econ, blocks, events, |events|);
            l.issued > 0 && "d" in l.refused
  {
    hide Economy, Claimable, ClaimPayload, Canonical.ParseMap, ExpectedReward, PowMaterial, JudgeEvent, NatField;
    var x, y := FreeClaim(econ, id, b, ts), SecondClaim(econ, id, b, ts);
    var events := [x, y];
    EconomyNext(econ, blocks, events, 0);
    EconomyNext(econ, blocks, events, 1);
    FreePaid(econ, blocks, id, b, ts);
    PaidReward(econ.units);
    var l := Economy(econ, blocks, events, 1);
    ClaimReadsBack(econ.h, id, ts, FreeWork(econ.h, id, b), ExpectedReward(econ.units, 1, 0));
    ClaimedIsRefused(econ, blocks, l, y, 1);
  }

  /**
   * A claim and its duplicate in genesis, the claimed block confirmed: the audit fails on the duplicate, and after a
   * rollback it fails still, wherever the checkpoint lies.
   */
  lemma DuplicateStays(cfg: Config, x: Inspector, econ: Econ, policy: Policy, psz: string, id: Identity, b: Block, ts: int, now: int)
    requires HexHash(econ.h) && econ.units >= 1 && b.index == 1
    requires BothFit(cfg, FreeClaim(econ, id, b, ts), SecondClaim(econ, id, b, ts))
    ensures var ops := TwoClaims(cfg, econ, id, b, ts);
            var c := Run(cfg, Blank(psz), ops, |ops|);
            && Valid(cfg, c) && "d" in Materialized(econ, c).refused && Rollback(cfg, c, now).events == c.events
            && !Healthy(cfg, x, econ, policy, c) && !Healthy(cfg, x, econ, policy, Rollback(cfg, c, now))
  {
    hide Run, Append, Tick, Valid, BothFit, Economy, FreeClaim, Rollback, ConfirmedTip, Ordered, RollbackTarget, KeptEvents,
      Clean, ModerationOf, Claimable, EventClean;
    var first, second := FreeClaim(econ, id, b, ts), SecondClaim(econ, id, b, ts);
    ThreeOps(cfg, Blank(psz), AppendAt(first), AppendAt(second), TickOp(ts + cfg.interval + cfg.interval));
    ClaimTime(econ, id, b, ts);
    ClaimIds(econ, id, b, ts);
    TwoWait(cfg, psz, first, second);
    var c := Tick(cfg, Append(cfg, Append(cfg, Blank(psz), first, ts, ts), second, ts, ts), ts + cfg.interval + cfg.interval);
    ClaimableOne(cfg, c);
    SecondRefused(econ, c.blocks, id, b, ts);
    KeepsBoth(cfg, c, first, second);
    RollbackCuts(cfg, c, now);
    RecoveryHelps(cfg, x, econ, policy, c, now);
  }

  lemma ClaimIds(econ: Econ, id: Identity, b: Block, ts: int)
    ensures var x, y := FreeClaim(econ, id, b, ts), SecondClaim(econ, id, b, ts);
            LexLess(x.id, y.id) && x.ts == y.ts && x.kind.BlockRewardClaimed? && y.kind.BlockRewardClaimed?
  {
  }

  /**
   * And it can make things worse: a healthy store, from a new one by one append and one tick, whose only event a rollback
   * keeps and then refuses.
   */
  lemma RollbackHarms(cfg: Config, x: Inspector, econ: Econ, policy: Policy, psz: string, id: Identity, b: Block, ts: int, now: int)
    requires HexHash(econ.h) && econ.units >= 1 && b.index == 1 && Fit(cfg, FreeClaim(econ, id, b, ts))
    requires EventClean(cfg, x, FreeClaim(econ, id, b, ts))
    requires cfg.checkpointInterval == 1 && cfg.checkpointConfirmations == 2
    ensures var ops := WaitTwo(cfg, FreeClaim(econ, id, b, ts));
            var c := Run(cfg, Blank(psz), ops, |ops|);
            Healthy(cfg, x, econ, policy, c) && !Healthy(cfg, x, econ, policy, Rollback(cfg, c, now))
  {
    hide Run, WaitTwo, Valid, Fit, Economy, FreeClaim, Rollback, ConfirmedTip, Ordered, RollbackTarget, KeptEvents, Clean,
      Claimable, ExpectedReward, ModerationOf, EventClean;
    var e := FreeClaim(econ, id, b, ts);
    var ops := WaitTwo(cfg, e);
    var c := Run(cfg, Blank(psz), ops, |ops|);
    WaitTwoIs(cfg, psz, e);
    FreeClaimPaid(cfg, econ, psz, id, b, ts);
    ValidIsClean(cfg, c);
    assert FitsAlone(cfg, [e]) by { FitAlone(cfg, e); }
    ClaimIds(econ, id, b, ts);
    ClaimModeratesNothing(policy, c, e);
    TargetIsGenesis(cfg, c);
    KeepsOne(cfg, c, e);
    RecoveryHelps(cfg, x, econ, policy, c, now);
    assert 1 in Stopped(cfg, econ, c).claimed;
  }

  /** An event whose id is not that of its payload, as the first of a store: neither the append nor a rollback helps. */
  lemma ForeignIdStays(cfg: Config, x: Inspector, econ: Econ, policy: Policy, psz: string, e: Event, now: int)
    requires Fit(cfg, e) && x.contentId(e.payload) != e.id
    ensures var ops := [AppendAt(e)]; var c := Run(cfg, Blank(psz), ops, |ops|);
            && Valid(cfg, c) && c.events == [e] && Rollback(cfg, c, now).events == [e]
            && !Healthy(cfg, x, econ, policy, c) && !Healthy(cfg, x, econ, policy, Rollback(cfg, c, now))
  {
    hide Run, Append, Valid, Fit, Rollback, RollbackTarget, KeptEvents, Clean, ModerationOf, Materialized, Stopped;
    TwoOps(cfg, Blank(psz), AppendAt(e), AppendAt(e));
    FirstStep(cfg, psz, e);
    var c := Append(cfg, Blank(psz), e, e.ts, e.ts);
    FaultlessIs(cfg, x, e);
    assert Retained(cfg, c)[0] == c.blocks[0] && e.id in Retained(cfg, c)[0].eventIds;
    KeptAll(c.events, Retained(cfg, c), 1);
    assert c.events[..1] == c.events && e in c.events;
    RollbackCuts(cfg, c, now);
    RecoveryHelps(cfg, x, econ, policy, c, now);
  }

  lemma FitAlone(cfg: Config, e: Event)
    requires Fit(cfg, e)
    ensures FitsAlone(cfg, [e])
  {
  }

  lemma KeepsOne(cfg: Config, c: Chain, e: Event)
    requires c.events == [e] && c.blocks != [] && e.id in c.blocks[0].eventIds && RollbackTarget(cfg, c.blocks) == 0
    ensures KeptEvents(c.events, Retained(cfg, c), |c.events|) == [e] && KeptBlocks(cfg, c) == 1
  {
    KeepsLone(c, e);
  }

  lemma ClaimModeratesNothing(policy: Policy, c: Chain, e: Event)
    requires Ordered(c) == [e] && e.kind.BlockRewardClaimed?
    ensures ModerationOf(policy, c).denied == map[]
  {
    hide Ordered, Seeded, Request, ReplayConfirmations;
    OneStep(ViewOf(c), policy, Ordered(c), 0);
    OneStep(ViewOf(c), policy, Ordered(c), |Ordered(c)|);
  }
}
