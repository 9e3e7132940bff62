/** What gets into the log. */
module Admission {
  import opened Types
  import opened Timeline
  import opened Checkpoint
  import opened History
  import opened SmallRuns

  /** Id, payload and signature are there, the payload is not too long, and the time is near enough to the clock. */
  predicate Admissible(cfg: Config, e: Event, now: int) {
    && |e.id| > 0 && |e.payload| > 0 && |e.signature| > 0 && |e.payload| <= cfg.maxEventBytes
    && now - cfg.maxPastDrift <= e.ts <= now + cfg.maxFutureDrift
  }

  /** The answer to an append, in the order of the checks. */
  lemma AnswersExactly(cfg: Config, events: seq<Event>, e: Event, now: int)
    ensures var r := Judge(cfg, events, e, now);
            && (r.Appended? <==> Admissible(cfg, e, now) && forall x | x in events :: x.id != e.id)
            && (r.Duplicate? <==> Admissible(cfg, e, now) && exists x | x in events :: x.id == e.id)
            && (r.MissingId? <==> |e.id| == 0)
            && (r.MissingPayload? <==> |e.id| > 0 && |e.payload| == 0)
            && (r.MissingSignature? <==> |e.id| > 0 && |e.payload| > 0 && |e.signature| == 0)
            && (r.TooLarge? ==> |e.payload| > cfg.maxEventBytes)
            && (r.TooNew? ==> |e.payload| <= cfg.maxEventBytes && e.ts - now > cfg.maxFutureDrift)
            && (r.TooOld? ==> |e.payload| <= cfg.maxEventBytes && now - e.ts > cfg.maxPastDrift)
  {
    if HasEvent(events, e.id) {
      var i :| 0 <= i < |events| && events[i].id == e.id;
      assert events[i] in events;
    }
  }

  /** An admissible event with a new id is in the log after its append, behind everything that was there; no other is. */
  lemma AppendAdmits(cfg: Config, c: Chain, e: Event, now: int, later: int)
    ensures var r := Append(cfg, c, e, now, later);
            if Admissible(cfg, e, now) && forall x | x in c.events :: x.id != e.id then r.events == c.events + [e] else r == c
  {
    hide Settle, Slots, AssignUpTo, Judge, Append;
    AnswersExactly(cfg, c.events, e, now);
    if Judge(cfg, c.events, e, now).Appended? {
      AppendIs(cfg, c, e, now, later);
      SettleShape(cfg, Unsettled(cfg, c, e, later));
    } else {
      RefusedAppend(cfg, c, e, now, later);
    }
  }

  lemma RefusedAppend(cfg: Config, c: Chain, e: Event, now: int, later: int)
    requires !Judge(cfg, c.events, e, now).Appended?
    ensures Append(cfg, c, e, now, later) == c
  {
  }

  lemma OthersAddNothing(cfg: Config, c: Chain, op: Op)
    requires !op.AppendOp?
    ensures forall e | e in Step(cfg, c, op).events :: e in c.events
  {
    hide Slots, AssignUpTo, Relinked, PayloadHashes, ConfirmUpTo, KeptEvents, RollbackTarget, RetainedUpTo;
    if op.RollbackOp? {
      var c0 := EnsureGenesis(cfg, c, op.now);
      var retained := RetainedUpTo(c0.blocks, RollbackTarget(cfg, c0.blocks), |c0.blocks|);
      assert c.events[..|c.events|] == c.events;
      forall e | e in Rollback(cfg, c, op.now).events ensures e in c.events {
        KeptIn(c.events, retained, |c.events|, e);
      }
    }
  }

  /** The event was appended by one of the first `n` operations, and was admissible at the time. */
  ghost predicate CameIn(cfg: Config, ops: seq<Op>, n: nat, e: Event)
    requires n <= |ops|
  {
    exists i | 0 <= i < n :: ops[i].AppendOp? && ops[i].e == e && Admissible(cfg, e, ops[i].now)
  }

  lemma CameInEarlier(cfg: Config, ops: seq<Op>, n: nat, e: Event)
    requires 0 < n <= |ops|
    ensures CameIn(cfg, ops, n - 1, e) ==> CameIn(cfg, ops, n, e)
    ensures ops[n - 1].AppendOp? && ops[n - 1].e == e && Admissible(cfg, e, ops[n - 1].now) ==> CameIn(cfg, ops, n, e)
  {
    hide Admissible;
  }

  /** Whatever a run from a new store leaves in the log came in by an append and was admissible then. */
  lemma {:induction false} RunAdmits(cfg: Config, c: Chain, ops: seq<Op>, n: nat)
    requires New(c) && n <= |ops|
    ensures forall e | e in Run(cfg, c, ops, n).events :: CameIn(cfg, ops, n, e)
  {
    hide Step, Admissible, CameIn;
    if n > 0 {
      RunAdmits(cfg, c, ops, n - 1);
      var before, op := Run(cfg, c, ops, n - 1), ops[n - 1];
      if op.AppendOp? {
        AppendAdmits(cfg, before, op.e, op.now, op.later);
        StepIsAppend(cfg, before, op);
      } else {
        OthersAddNothing(cfg, before, op);
      }
      forall e | e in Run(cfg, c, ops, n).events ensures CameIn(cfg, ops, n, e) {
        CameInEarlier(cfg, ops, n, e);
      }
    }
  }

  lemma StepIsAppend(cfg: Config, c: Chain, op: Op)
    requires op.AppendOp?
    ensures Step(cfg, c, op) == Append(cfg, c, op.e, op.now, op.later)
  {
    hide Append;
  }
}
