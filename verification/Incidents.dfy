/** Runs from a new store on which a promise does not hold. */
module Incidents {
  import opened Types
  import opened Sha256
  import opened Timeline
  import opened Invariant
  import opened Preservation
  import opened Checkpoint
  import opened Clock
  import opened History
  import opened Audit
  import opened Schedule
  import opened Ledger
  import opened Replay
  import opened Moderation
  import opened Producer
  import opened SmallRuns
  import Binding
  import Canonical
  import Decimal
  import Growth

  lemma ThreeOps(cfg: Config, c: Chain, a: Op, b: Op, t: Op)
    ensures Run(cfg, c, [a, b, t], |[a, b, t]|) == Step(cfg, Step(cfg, Step(cfg, c, a), b), t)
  {
    hide Run, Step;
    OneOp(cfg, c, [a, b, t], 0);
    OneOp(cfg, c, [a, b, t], 1);
    OneOp(cfg, c, [a, b, t], 2);
    OneOp(cfg, c, [a, b, t], 3);
  }

  // ----- overflow blocks

  /** The replay and the metrics count confirmations alike for every block. */
  ghost predicate CountsMatch(blocks: seq<Block>) {
    forall i | 0 <= i < |blocks| ::
      (if Tip(blocks).None? then 0 else Confirmations(Tip(blocks).value, blocks[i].index)) ==
        MetricConfirmations(Tip(blocks), blocks[i])
  }

  lemma UntimelySecond(cfg: Config, psz: string, a: Event, b: Event)
    requires cfg.maxBlockEvents == 1 && Fit(cfg, a) && Fit(cfg, b) && a.id != b.id && b.ts < a.ts
    ensures var c := Append(cfg, Blank(psz), a, a.ts, a.ts);
            Settled(cfg, c) && Judge(cfg, c.events, b, b.ts).Appended? && !Timely(cfg, c, b)
  {
    hide Append, Valid, Fit, BlockBytes, EventBytes;
    FirstStep(cfg, psz, a);
    var c := Append(cfg, Blank(psz), a, a.ts, a.ts);
    FitJudged(cfg, c.events, b);
    var k := FindSlot(cfg, c.events + [b], c.blocks, EventBytes(b), 0);
    assert k == |c.blocks|;
  }

  /**
   * Where a block holds one event, two appends, the second event older than the first, and one tick leave a confirmed
   * block behind an unconfirmed one, and the two confirmation counts apart.
   */
  lemma OverflowHappens(cfg: Config, psz: string, a: Event, b: Event) returns (tick: int)
    requires cfg.maxBlockEvents == 1 && Fit(cfg, a) && Fit(cfg, b) && a.id != b.id && b.ts < a.ts
    ensures var ops := [AppendAt(a), AppendAt(b), TickOp(tick)];
            var r := Run(cfg, Blank(psz), ops, |ops|);
            Valid(cfg, r) && !PrefixConfirmed(r.blocks) && !CountsMatch(r.blocks)
  {
    hide Run, Append, Tick, Valid, Fit, Timely, Settled, PrefixConfirmed;
    UntimelySecond(cfg, psz, a, b);
    var c := Append(cfg, Blank(psz), a, a.ts, a.ts);
    tick := UntimelyBreaks(cfg, c, b, b.ts, b.ts);
    ThreeOps(cfg, Blank(psz), AppendAt(a), AppendAt(b), TickOp(tick));
    var ops := [AppendAt(a), AppendAt(b), TickOp(tick)];
    NewValid(cfg, Blank(psz));
    RunValid(cfg, Blank(psz), ops, |ops|);
    CountsSplit(cfg, Run(cfg, Blank(psz), ops, |ops|));
  }

  lemma CountsSplit(cfg: Config, c: Chain)
    requires Valid(cfg, c) && !PrefixConfirmed(c.blocks)
    ensures !CountsMatch(c.blocks)
  {
    hide Linked, Limits, IdBag, PrefixConfirmed, Tip;
    CountsAgree(c.blocks);
  }

  // ----- oversized events

  /** One append of an event that no block has room for, and the audit fails. */
  lemma OversizedHappens(cfg: Config, psz: string, e: Event)
    requires e.id != "" && e.payload != "" && e.signature != "" && |e.payload| <= cfg.maxEventBytes
    requires EventBytes(e) > cfg.maxBlockBytes
    ensures var ops := [AppendAt(e)]; var r := Run(cfg, Blank(psz), ops, |ops|);
            r.events == [e] && Valid(cfg, r) && !Clean(cfg, r)
  {
    hide Run, Valid, Clean, EventBytes, Settle, Assign, EnsureSlots;
    var ops := [AppendAt(e)];
    TwoOps(cfg, Blank(psz), AppendAt(e), AppendAt(e));
    EveryRunIsClean(cfg, Blank(psz), ops, |ops|);
    NewValid(cfg, Blank(psz));
    RunValid(cfg, Blank(psz), ops, |ops|);
    assert Judge(cfg, [], e, e.ts).Appended?;
    AppendIs(cfg, Blank(psz), e, e.ts, e.ts);
    AppendedEvents(cfg, Blank(psz), e);
    assert [] + [e] == [e];
    assert e in Run(cfg, Blank(psz), ops, |ops|).events;
  }

  lemma AppendedEvents(cfg: Config, c: Chain, e: Event)
    ensures Settle(cfg, Unsettled(cfg, c, e, e.ts)).events == c.events + [e]
  {
    hide Slots, AssignUpTo, Relinked, PayloadHashes;
  }

  // ----- a claim that waits in genesis

  /** A claim of block 1, with no work behind it, on material of whatever block the claimant likes. */
  function FreeWork(h: HashFn, id: Identity, b: Block): Work {
    Work("clm", b, 0, 0, h(PowMaterial(id, b) + "|" + Decimal.NatText(0)))
  }

  function FreeClaim(econ: Econ, id: Identity, b: Block, ts: int): Event {
    Event("c", BlockRewardClaimed, id.cid, ts,
          ClaimPayload(econ.h, id, ts, FreeWork(econ.h, id, b), ExpectedReward(econ.units, b.index, 0)), "s")
  }

  /** Appends an event, then ticks two intervals later. */
  function WaitTwo(cfg: Config, e: Event): seq<Op> { [AppendAt(e), TickOp(e.ts + cfg.interval + cfg.interval)] }

  /** Three blocks: the first holds the event, the first two are confirmed. */
  lemma WaitTwoIs(cfg: Config, psz: string, e: Event)
    requires Fit(cfg, e)
    ensures var ops := WaitTwo(cfg, e); var r := Run(cfg, Blank(psz), ops, |ops|);
            && Valid(cfg, r) && r.events == [e] && |r.blocks| == 3 && r.blocks[0].eventIds == [e.id]
            && r.blocks[0].confirmed && r.blocks[1].confirmed && !r.blocks[2].confirmed && Tip(r.blocks) == Some(1)
  {
    hide Run, Append, Tick, Valid, Fit, ConfirmedTip;
    var now := e.ts + cfg.interval + cfg.interval;
    TwoOps(cfg, Blank(psz), AppendAt(e), TickOp(now));
    FirstStep(cfg, psz, e);
    var c := Append(cfg, Blank(psz), e, e.ts, e.ts);
    TwoBehind(cfg, c.blocks, now);
    TickConfirms(cfg, c, now);
    TickOpens(cfg, c, now);
    TickValid(cfg, c, now);
    var r := Tick(cfg, c, now);
    AfterTwo(e.ts, cfg.interval);
    assert r.blocks[1].openedUnix == e.ts + cfg.interval && r.blocks[2].openedUnix == now;
    TickEvents(cfg, c, now);
    TwoConfirmedTip(cfg, r);
  }

  lemma TickEvents(cfg: Config, c: Chain, now: int)
    ensures Tick(cfg, c, now).events == c.events
  {
    hide Slots, AssignUpTo, Relinked, PayloadHashes, ConfirmUpTo;
  }

  lemma TwoConfirmedTip(cfg: Config, c: Chain)
    requires Valid(cfg, c) && |c.blocks| == 3
    requires c.blocks[0].confirmed && c.blocks[1].confirmed && !c.blocks[2].confirmed
    ensures Tip(c.blocks) == Some(1)
  {
    hide Linked, Limits, IdBag;
    TipFacts(c.blocks, |c.blocks|);
    assert c.blocks[1].index == 1 && c.blocks[2].index == 2;
  }

  /** The claim is accepted on that chain, for the full first reward. */
  lemma FreeClaimPaid(cfg: Config, econ: Econ, psz: string, id: Identity, b: Block, ts: int)
    requires HexHash(econ.h) && econ.units >= 1 && b.index == 1 && Fit(cfg, FreeClaim(econ, id, b, ts))
    ensures var e := FreeClaim(econ, id, b, ts); var ops := WaitTwo(cfg, e);
            var c := Run(cfg, Blank(psz), ops, |ops|);
            && Ordered(c) == [e]
            && Materialized(econ, c) == Rewarded(EMPTY, id.cid, 1, ExpectedReward(econ.units, 1, 0))
            && Materialized(econ, c).issued > 0
  {
    hide Run, Valid, Fit, FreeClaim, Ordered, Economy, ExpectedReward, WaitTwo, ConfirmedTip;
    WaitTwoIs(cfg, psz, FreeClaim(econ, id, b, ts));
    var ops := WaitTwo(cfg, FreeClaim(econ, id, b, ts));
    LatePaid(cfg, econ, Run(cfg, Blank(psz), ops, |ops|), id, b, ts);
  }

  lemma PaidReward(units: int)
    requires units >= 1
    ensures 0 < ExpectedReward(units, 1, 0) <= MAX_SUPPLY
  {
    hide Decayed;
  }

  lemma LoneOrder(c: Chain, e: Event)
    requires c.events == [e]
    ensures Ordered(c) == [e]
  {
    hide IndexUpTo, Before;
    Growth.SortOne(ByReplay(IndexOf(c.blocks)), e);
  }

  lemma LoneEconomy(econ: Econ, blocks: seq<Block>, e: Event)
    ensures Economy(econ, blocks, [e], |[e]|) == EconStep(econ, blocks, EMPTY, e)
  {
    hide EconStep;
    EconomyNext(econ, blocks, [e], 0);
  }

  lemma ClaimableOne(cfg: Config, c: Chain)
    requires Valid(cfg, c) && |c.blocks| >= 2 && c.blocks[1].confirmed
    ensures Claimable(c.blocks, 1)
  {
    hide Linked, Limits, IdBag, Claimable;
    ClaimableIs(c.blocks, 1);
  }

  // ----- a claim that is paid late

  /** One interval after the append: the block of the event is confirmed, the next one is not. */
  lemma WaitOneIs(cfg: Config, psz: string, e: Event)
    requires Fit(cfg, e)
    ensures var r := Tick(cfg, Append(cfg, Blank(psz), e, e.ts, e.ts), e.ts + cfg.interval);
            && Settled(cfg, r) && r.events == [e] && |r.blocks| == 2 && r.blocks[1].openedUnix == e.ts + cfg.interval
            && r.blocks[0].confirmed && !r.blocks[1].confirmed
  {
    hide Append, Tick, Valid, Fit, PrefixConfirmed, WaitingInOrder;
    var now := e.ts + cfg.interval;
    FirstStep(cfg, psz, e);
    var c := Append(cfg, Blank(psz), e, e.ts, e.ts);
    OneBehind(cfg, c.blocks, now);
    TickConfirms(cfg, c, now);
    TickOpens(cfg, c, now);
    TickValid(cfg, c, now);
    TickEvents(cfg, c, now);
    AfterTwo(e.ts, cfg.interval);
    TickKeepsHistory(cfg, c, now);
  }

  /** A chain whose only confirmed block is genesis has issued nothing. */
  lemma NothingYet(cfg: Config, econ: Econ, c: Chain)
    requires Valid(cfg, c) && forall i | 1 <= i < |c.blocks| :: !c.blocks[i].confirmed
    ensures Materialized(econ, c).issued == 0 && Materialized(econ, c).claimed == map[]
  {
    hide Economy, Claimable, Linked, Limits, IdBag, Ordered;
    IssuanceClosedForm(econ, c.blocks, Ordered(c), |Ordered(c)|);
    var l := Materialized(econ, c);
    forall i | i in l.claimed ensures false {
      ClaimableIs(c.blocks, i);
    }
    assert l.claimed.Keys == {};
  }

  /**
   * One interval after its append the claim is refused, in a confirmed block; one tick later a replay of the same events
   * accepts it.
   */
  lemma LateClaimHappens(cfg: Config, econ: Econ, psz: string, id: Identity, b: Block, ts: int)
    requires HexHash(econ.h) && econ.units >= 1 && b.index == 1 && Fit(cfg, FreeClaim(econ, id, b, ts))
    ensures var e := FreeClaim(econ, id, b, ts);
            var ops := [AppendAt(e), TickOp(ts + cfg.interval), TickOp(ts + cfg.interval + cfg.interval)];
            var c, d := Run(cfg, Blank(psz), ops[..2], 2), Run(cfg, Blank(psz), ops, |ops|);
            && Settled(cfg, c) && Valid(cfg, d) && Ordered(c) == Ordered(d) == [e]
            && c.blocks[0].eventIds == d.blocks[0].eventIds == [e.id] && c.blocks[0] == d.blocks[0] && c.blocks[0].confirmed
            && Materialized(econ, c).issued == 0 && Materialized(econ, d).issued > 0
  {
    hide Run, Tick, Append, Valid, Fit, ExpectedReward, Economy, EconStep, Ordered, FreeClaim, FreeWork, PrefixConfirmed,
      WaitingInOrder, ConfirmedTip, Claimable;
    var e := FreeClaim(econ, id, b, ts);
    var first, second := TickOp(ts + cfg.interval), TickOp(ts + cfg.interval + cfg.interval);
    var ops := [AppendAt(e), first, second];
    ClaimTime(econ, id, b, ts);
    ThreeOps(cfg, Blank(psz), AppendAt(e), first, second);
    assert ops[..2] == [AppendAt(e), first];
    TwoOps(cfg, Blank(psz), AppendAt(e), first);
    FirstStep(cfg, psz, e);
    WaitOneIs(cfg, psz, e);
    var c := Tick(cfg, Append(cfg, Blank(psz), e, ts, ts), ts + cfg.interval);
    var now := ts + cfg.interval + cfg.interval;
    OneBehind(cfg, c.blocks, now);
    TickConfirms(cfg, c, now);
    TickConfirms(cfg, Append(cfg, Blank(psz), e, ts, ts), ts + cfg.interval);
    TickKeepsHistory(cfg, c, now);
    TickValid(cfg, c, now);
    TickEvents(cfg, c, now);
    NothingYet(cfg, econ, c);
    LoneOrder(c, e);
    LatePaid(cfg, econ, Tick(cfg, c, now), id, b, ts);
  }

  lemma ClaimTime(econ: Econ, id: Identity, b: Block, ts: int)
    ensures FreeClaim(econ, id, b, ts).ts == ts
  {
  }

  lemma LatePaid(cfg: Config, econ: Econ, d: Chain, id: Identity, b: Block, ts: int)
    requires Valid(cfg, d) && d.events == [FreeClaim(econ, id, b, ts)] && |d.blocks| >= 2 && d.blocks[1].confirmed
    requires HexHash(econ.h) && econ.units >= 1 && b.index == 1
    ensures Ordered(d) == d.events
    ensures Materialized(econ, d) == Rewarded(EMPTY, id.cid, 1, ExpectedReward(econ.units, 1, 0))
    ensures Materialized(econ, d).issued > 0
  {
    hide Valid, Claimable, Economy, EconStep, ExpectedReward, IndexUpTo, ConfirmedTip, FreeClaim;
    var e := FreeClaim(econ, id, b, ts);
    LoneOrder(d, e);
    LoneEconomy(econ, d.blocks, e);
    ClaimableOne(cfg, d);
    PaidReward(econ.units);
    FreePaid(econ, d.blocks, id, b, ts);
  }

  /** As the first event of a replay over blocks of which the second can be claimed, the claim is paid. */
  lemma FreePaid(econ: Econ, blocks: seq<Block>, id: Identity, b: Block, ts: int)
    requires HexHash(econ.h) && econ.units >= 1 && b.index == 1 && Claimable(blocks, 1)
    ensures EconStep(econ, blocks, EMPTY, FreeClaim(econ, id, b, ts)) == Rewarded(EMPTY, id.cid, 1, ExpectedReward(econ.units, 1, 0))
  {
    hide ClaimPayload, Claimable, EconStep, Scheduled, PowMaterial;
    PaidReward(econ.units);
    ClaimJudged(econ, blocks, EMPTY, id, FreeWork(econ.h, id, b), FreeClaim(econ, id, b, ts));
  }

  // ----- rollback

  /** No claim can be accepted over a chain of one block. */
  lemma NothingIssued(econ: Econ, blocks: seq<Block>, events: seq<Event>)
    requires Positions(blocks) && |blocks| <= 1
    ensures Economy(econ, blocks, events, |events|).claimed == map[] && Economy(econ, blocks, events, |events|).issued == 0
  {
    hide Economy, Claimable;
    IssuanceClosedForm(econ, blocks, events, |events|);
    var l := Economy(econ, blocks, events, |events|);
    forall i | i in l.claimed ensures false {
      ClaimableIs(blocks, i);
    }
    assert l.claimed.Keys == {};
  }

  /** Of three blocks, two of them confirmed, only genesis has two confirmations. */
  lemma TargetIsGenesis(cfg: Config, c: Chain)
    requires Valid(cfg, c) && Tip(c.blocks) == Some(1) && cfg.checkpointConfirmations == 2
    ensures RollbackTarget(cfg, c.blocks) == 0
  {
    hide Linked, Limits, IdBag, ConfirmedTip;
    TargetFacts(cfg, c.blocks, 1, |c.blocks|);
  }

  /**
   * With two checkpoint confirmations that claim is retained by rollback, while the block it names is not: the reward
   * that the stopped replay had issued is gone.
   */
  lemma RollbackLosesReward(cfg: Config, econ: Econ, psz: string, id: Identity, b: Block, ts: int, now: int)
    requires HexHash(econ.h) && econ.units >= 1 && b.index == 1 && Fit(cfg, FreeClaim(econ, id, b, ts))
    requires cfg.checkpointInterval == 1 && cfg.checkpointConfirmations == 2
    ensures var e := FreeClaim(econ, id, b, ts); var ops := WaitTwo(cfg, e);
            var c := Run(cfg, Blank(psz), ops, |ops|);
            var r := Rollback(cfg, c, now);
            && r.events == c.events == [e] && Ordered(r) == Ordered(c)
            && Materialized(econ, c).issued > 0 && Materialized(econ, r).issued == 0
            && !SameMoney(Materialized(econ, r), Materialized(econ, c))
  {
    hide Run, Fit, WaitTwo, Ordered, Economy, FreeClaim, Rollback, KeptEvents, Linked, Limits, IdBag, ExpectedReward,
      RollbackTarget, ConfirmedTip;
    var e := FreeClaim(econ, id, b, ts);
    var ops := WaitTwo(cfg, e);
    var c := Run(cfg, Blank(psz), ops, |ops|);
    var r := Rollback(cfg, c, now);
    FreeClaimPaid(cfg, econ, psz, id, b, ts);
    WaitTwoIs(cfg, psz, e);
    TargetIsGenesis(cfg, c);
    RollbackCuts(cfg, c, now);
    RollbackValid(cfg, c, now);
    KeepsLone(c, e);
    LoneOrder(r, e);
    NothingIssued(econ, r.blocks, Ordered(r));
  }

  lemma KeepsLone(c: Chain, e: Event)
    requires c.events == [e] && c.blocks != [] && e.id in c.blocks[0].eventIds
    ensures KeptEvents(c.events, c.blocks[..1], |c.events|) == [e]
  {
    assert e.id in c.blocks[..1][0].eventIds;
    KeptAll(c.events, c.blocks[..1], 1);
    assert c.events[..1] == c.events;
  }

  // ----- work

  /** The digest in a claim is work of this difficulty on the material of this block for this claimant. */
  predicate ProvesWork(h: HashFn, id: Identity, b: Block, payload: map<string, string>, difficulty: int) {
    var hash := Field(payload, "pow_hash", "");
    hash == h(PowMaterial(id, b) + "|" + Field(payload, "pow_nonce", "")) && LeadingZeroNibbles(hash, difficulty)
  }

  /** The two texts hashed for a claim: the one it carries, and the one its block would need. */
  function CarriedText(payload: map<string, string>): string {
    Field(payload, "pow_material", "") + "|" + Field(payload, "pow_nonce", "")
  }

  function NeededText(id: Identity, b: Block, payload: map<string, string>): string {
    PowMaterial(id, b) + "|" + Field(payload, "pow_nonce", "")
  }

  /**
   * A claim that passes the check of its work proves work for its block exactly when it carries that block's material
   * and its digest has enough leading zeros for the network, if the digest function does not collide on the two texts.
   */
  lemma WorkIsForBlock(h: HashFn, id: Identity, b: Block, payload: map<string, string>, difficulty: int)
    requires WorkOk(h, payload)
    requires h(CarriedText(payload)) == h(NeededText(id, b, payload)) ==> CarriedText(payload) == NeededText(id, b, payload)
    ensures ProvesWork(h, id, b, payload, difficulty) <==>
            Field(payload, "pow_material", "") == PowMaterial(id, b) &&
            LeadingZeroNibbles(Field(payload, "pow_hash", ""), difficulty)
  {
    hide PowMaterial, LeadingZeroNibbles;
    var x, y := CarriedText(payload), NeededText(id, b, payload);
    var material, nonce := Field(payload, "pow_material", ""), Field(payload, "pow_nonce", "");
    if x == y {
      assert |material| == |PowMaterial(id, b)|;
      assert material == x[..|material|] && PowMaterial(id, b) == y[..|material|];
    }
  }

  /**
   * Without it: the claim above is paid on a reachable chain, although its material is that of a block it was never
   * checked against and its digest was not searched for. It proves work for block 1 only by a collision.
   */
  lemma FreeClaimProvesNothing(cfg: Config, econ: Econ, psz: string, id: Identity, b: Block, ts: int, difficulty: int)
    requires HexHash(cfg.h) && HexHash(econ.h) && econ.units >= 1 && b == EmptyBlock(1, 0)
    requires Fit(cfg, FreeClaim(econ, id, b, ts))
    ensures var e := FreeClaim(econ, id, b, ts); var ops := WaitTwo(cfg, e);
            var c := Run(cfg, Blank(psz), ops, |ops|);
            var payload := Canonical.ParseMap(e.payload);
            && |c.blocks| == 3 && 1 in Materialized(econ, c).claimed && Materialized(econ, c).claimed[1] == id.cid
            && (ProvesWork(econ.h, id, c.blocks[1], payload, difficulty) ==>
                 CarriedText(payload) != NeededText(id, c.blocks[1], payload) &&
                 econ.h(CarriedText(payload)) == econ.h(NeededText(id, c.blocks[1], payload)))
  {
    hide Run, Fit, WaitTwo, Ordered, Economy, Valid, ExpectedReward, ConfirmedTip, Canonical.ParseMap, ClaimPayload,
      LeadingZeroNibbles, PowMaterial;
    var e := FreeClaim(econ, id, b, ts);
    var ops := WaitTwo(cfg, e);
    var c := Run(cfg, Blank(psz), ops, |ops|);
    FreeClaimPaid(cfg, econ, psz, id, b, ts);
    WaitTwoIs(cfg, psz, e);
    PaidReward(econ.units);
    ClaimReadsBack(econ.h, id, ts, FreeWork(econ.h, id, b), ExpectedReward(econ.units, 1, 0));
    OtherMaterial(cfg, c, id, b);
  }

  lemma OtherMaterial(cfg: Config, c: Chain, id: Identity, b: Block)
    requires Valid(cfg, c) && HexHash(cfg.h) && |c.blocks| >= 2 && b == EmptyBlock(1, 0)
    ensures |PowMaterial(id, c.blocks[1])| > |PowMaterial(id, b)|
  {
    hide Linked, Placed, HexHash;
    Binding.BlockDigests(cfg, c, 1);
    DigestLength(cfg.h, Binding.HeaderText(c, 1));
    assert c.blocks[1].index == 1 by { PositionOf(cfg, c, 1); }
  }

  lemma DigestLength(h: HashFn, s: string)
    requires HexHash(h)
    ensures |h(s)| == 64
  {
  }

  lemma PositionOf(cfg: Config, c: Chain, i: nat)
    requires Valid(cfg, c) && i < |c.blocks|
    ensures c.blocks[i].index == i
  {
    hide Linked, Limits, IdBag, UniqueIds;
  }
}
