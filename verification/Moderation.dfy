/** The moderation half of the replay. */
module Moderation {
  import opened Types
  import opened Text
  import opened Decimal
  import opened Canonical
  import opened Timeline
  import opened Invariant
  import opened Checkpoint
  import opened History
  import opened Replay

  datatype Policy = Policy(
    enabled: bool,
    requireFinality: bool,
    minConfirmations: nat,
    maxFlags: nat,
    moderators: seq<string>)

  datatype Denial = NoAuthority | NoTarget | UnknownTarget | LastModerator | NoObject | NoRecipe

  datatype Mod = Mod(
    moderators: set<string>,
    flags: map<string, nat>,
    hidden: set<string>,
    autoHidden: set<string>,
    pins: map<string, bool>,
    policy: Policy,
    denied: map<string, Denial>)

  /** The configured moderators, trimmed, blanks dropped. */
  function Seeded(cids: seq<string>, n: nat): set<string>
    requires n <= |cids|
  {
    if n == 0 then {}
    else Seeded(cids, n - 1) + if Trim(cids[n - 1]) == "" then {} else {Trim(cids[n - 1])}
  }

  function Start(policy: Policy): Mod {
    Mod(Seeded(policy.moderators, |policy.moderators|), map[], {}, {}, map[], policy, map[])
  }

  // ----- confirmations

  /** The chain as the replay looks at it. */
  datatype View = View(blocks: seq<Block>, index: map<string, nat>, tip: Option<nat>)

  function ViewOf(c: Chain): View { View(c.blocks, IndexOf(c.blocks), Tip(c.blocks)) }

  /** `event_confirmations` inside the replay. */
  function ReplayConfirmations(v: View, id: string): nat {
    if id !in v.index || v.tip.None? || v.index[id] >= |v.blocks| then 0
    else Confirmations(v.tip.value, v.blocks[v.index[id]].index)
  }

  /** `confirmation_metrics_for_event`, the count part, for a block. */
  function MetricConfirmations(tip: Option<nat>, b: Block): nat {
    if tip.None? || !b.confirmed || tip.value < b.index then 0 else tip.value - b.index + 1
  }

  predicate Effective(p: Policy, confirmations: nat) {
    p.enabled && (!p.requireFinality || confirmations >= p.minConfirmations)
  }

  // ----- one event

  datatype Action =
    | Skip
    | Deny(denial: Denial)
    | AddModerator(cid: string)
    | RemoveModerator(cid: string)
    | Flag(subject: string)
    | Hide(subject: string)
    | Unhide(subject: string)
    | Pin(recipe: string, pinned: bool)
    | SetPolicy(policy: Policy)

  predicate NeedsModerator(kind: EventKind) { IsModerationKind(kind) && !kind.ContentFlagged? }

  function ObjectId(payload: map<string, string>, id: string): string {
    if "object_id" in payload then payload["object_id"]
    else if "recipe_id" in payload then payload["recipe_id"]
    else if "thread_id" in payload then payload["thread_id"]
    else if "reply_id" in payload then payload["reply_id"]
    else if "target_id" in payload then payload["target_id"]
    else id
  }

  function Updated(p: Policy, payload: map<string, string>): Policy {
    var flags := if "max_flags_before_auto_hide" in payload then ParseI64OrZero(payload["max_flags_before_auto_hide"]) else 0;
    var confs :=
      if "min_confirmations_for_enforcement" in payload then ParseI64OrZero(payload["min_confirmations_for_enforcement"]) else 0;
    p.(maxFlags := if flags > 0 then flags else p.maxFlags,
       minConfirmations := if confs > 0 then confs else p.minConfirmations,
       requireFinality := if "require_finality_for_actions" in payload
                          then IsYes(payload["require_finality_for_actions"]) else p.requireFinality)
  }

  function Target(payload: map<string, string>): string {
    if "target_cid" in payload then Trim(payload["target_cid"]) else ""
  }

  /** What an effective moderation event by an author with the needed authority asks for. */
  function Request(m: Mod, e: Event, payload: map<string, string>): Action {
    var subject := ObjectId(payload, e.id);
    var recipe := Field(payload, "recipe_id", "");
    match e.kind
    case ModeratorAdded => if Target(payload) == "" then Deny(NoTarget) else AddModerator(Target(payload))
    case ModeratorRemoved =>
      if Target(payload) == "" then Deny(NoTarget)
      else if Target(payload) !in m.moderators then Deny(UnknownTarget)
      else if |m.moderators| <= 1 then Deny(LastModerator)
      else RemoveModerator(Target(payload))
    case ContentFlagged => if subject == "" then Deny(NoObject) else Flag(subject)
    case ContentHidden => if subject == "" then Deny(NoObject) else Hide(subject)
    case ContentUnhidden => if subject == "" then Deny(NoObject) else Unhide(subject)
    case CoreTopicPinned => if recipe == "" then Deny(NoRecipe) else Pin(recipe, true)
    case CoreTopicUnpinned => if recipe == "" then Deny(NoRecipe) else Pin(recipe, false)
    case PolicyUpdated => SetPolicy(Updated(m.policy, payload))
    case _ => Skip
  }

  function Decide(v: View, m: Mod, e: Event): Action {
    if !IsModerationKind(e.kind) || !Effective(m.policy, ReplayConfirmations(v, e.id)) then Skip
    else if NeedsModerator(e.kind) && e.author !in m.moderators then Deny(NoAuthority)
    else Request(m, e, ParseMap(e.payload))
  }

  function FlagCount(m: map<string, nat>, subject: string): nat { if subject in m then m[subject] else 0 }

  function Enact(m: Mod, id: string, a: Action): Mod {
    match a
    case Skip => m
    case Deny(denial) => m.(denied := m.denied[id := denial])
    case AddModerator(cid) => m.(moderators := m.moderators + {cid})
    case RemoveModerator(cid) => m.(moderators := m.moderators - {cid})
    case Flag(subject) =>
      var count := FlagCount(m.flags, subject) + 1;
      var flagged := m.(flags := m.flags[subject := count]);
      if count >= m.policy.maxFlags
      then flagged.(hidden := m.hidden + {subject}, autoHidden := m.autoHidden + {subject})
      else flagged
    case Hide(subject) => m.(hidden := m.hidden + {subject}, autoHidden := m.autoHidden - {subject})
    case Unhide(subject) => m.(hidden := m.hidden - {subject}, autoHidden := m.autoHidden - {subject})
    case Pin(recipe, pinned) => m.(pins := m.pins[recipe := pinned])
    case SetPolicy(policy) => m.(policy := policy)
  }

  function ModStep(v: View, m: Mod, e: Event): Mod { Enact(m, e.id, Decide(v, m, e)) }

  /** The moderation state after the first `n` events of the replay order, from a starting policy. */
  function Moderated(v: View, policy: Policy, events: seq<Event>, n: nat): Mod
    requires n <= |events|
  {
    if n == 0 then Start(policy) else ModStep(v, Moderated(v, policy, events, n - 1), events[n - 1])
  }

  /** The moderation state a store materializes, given the starting policy. */
  function ModerationOf(policy: Policy, c: Chain): Mod { Moderated(ViewOf(c), policy, Ordered(c), |Ordered(c)|) }

  /** What event `i` did. */
  function ActionAt(v: View, policy: Policy, events: seq<Event>, i: nat): Action
    requires i < |events|
  {
    Decide(v, Moderated(v, policy, events, i), events[i])
  }

  // ----- closed form

  /** Accepted flags on an subject among the first `n` events. */
  function FlagsSoFar(v: View, policy: Policy, events: seq<Event>, n: nat, subject: string): nat
    requires n <= |events|
  {
    if n == 0 then 0
    else FlagsSoFar(v, policy, events, n - 1, subject) + if ActionAt(v, policy, events, n - 1) == Flag(subject) then 1 else 0
  }

  /** Event `i` is an accepted flag that brings the subject's running total to the threshold in force. */
  predicate FlagsOver(v: View, policy: Policy, events: seq<Event>, i: nat, subject: string)
    requires i < |events|
  {
    ActionAt(v, policy, events, i) == Flag(subject) &&
    FlagsSoFar(v, policy, events, i + 1, subject) >= Moderated(v, policy, events, i).policy.maxFlags
  }

  predicate Hides(v: View, policy: Policy, events: seq<Event>, i: nat, subject: string)
    requires i < |events|
  {
    ActionAt(v, policy, events, i) == Hide(subject) || FlagsOver(v, policy, events, i, subject)
  }

  /** Some accepted hide, or a flag over the threshold, has no accepted unhide after it. */
  ghost predicate StaysHidden(v: View, policy: Policy, events: seq<Event>, n: nat, subject: string)
    requires n <= |events|
  {
    exists i | 0 <= i < n :: Hides(v, policy, events, i, subject) &&
      forall j | i < j < n :: ActionAt(v, policy, events, j) != Unhide(subject)
  }

  /** Some flag over the threshold has no accepted hide or unhide after it. */
  ghost predicate StaysAutoHidden(v: View, policy: Policy, events: seq<Event>, n: nat, subject: string)
    requires n <= |events|
  {
    exists i | 0 <= i < n :: FlagsOver(v, policy, events, i, subject) &&
      forall j | i < j < n :: ActionAt(v, policy, events, j) != Unhide(subject) && ActionAt(v, policy, events, j) != Hide(subject)
  }

  lemma StaysStep(v: View, policy: Policy, events: seq<Event>, n: nat, subject: string)
    requires 0 < n <= |events|
    ensures StaysHidden(v, policy, events, n, subject) <==>
            Hides(v, policy, events, n - 1, subject) ||
            (StaysHidden(v, policy, events, n - 1, subject) && ActionAt(v, policy, events, n - 1) != Unhide(subject))
    ensures var last := ActionAt(v, policy, events, n - 1);
            StaysAutoHidden(v, policy, events, n, subject) <==>
            FlagsOver(v, policy, events, n - 1, subject) ||
            (StaysAutoHidden(v, policy, events, n - 1, subject) && last != Unhide(subject) && last != Hide(subject))
  {
    hide ActionAt, FlagsOver;
    if StaysHidden(v, policy, events, n - 1, subject) && ActionAt(v, policy, events, n - 1) != Unhide(subject) {
      var i :| 0 <= i < n - 1 && Hides(v, policy, events, i, subject) &&
        forall j | i < j < n - 1 :: ActionAt(v, policy, events, j) != Unhide(subject);
      assert 0 <= i < n && Hides(v, policy, events, i, subject);
    }
    var last := ActionAt(v, policy, events, n - 1);
    if StaysAutoHidden(v, policy, events, n - 1, subject) && last != Unhide(subject) && last != Hide(subject) {
      var i :| 0 <= i < n - 1 && FlagsOver(v, policy, events, i, subject) &&
        forall j | i < j < n - 1 ::
          ActionAt(v, policy, events, j) != Unhide(subject) && ActionAt(v, policy, events, j) != Hide(subject);
      assert 0 <= i < n && FlagsOver(v, policy, events, i, subject);
    }
  }

  /** Hidden and auto-hidden objects in closed form; every auto-hidden subject is hidden. */
  lemma {:induction false} HiddenClosedForm(v: View, policy: Policy, events: seq<Event>, n: nat, subject: string)
    requires n <= |events|
    ensures var m := Moderated(v, policy, events, n);
            && FlagCount(m.flags, subject) == FlagsSoFar(v, policy, events, n, subject)
            && (subject in m.hidden <==> StaysHidden(v, policy, events, n, subject))
            && (subject in m.autoHidden <==> StaysAutoHidden(v, policy, events, n, subject))
            && (subject in m.autoHidden ==> subject in m.hidden)
  {
    hide Decide, StaysHidden, StaysAutoHidden;
    if n == 0 {
      assert !StaysHidden(v, policy, events, 0, subject) && !StaysAutoHidden(v, policy, events, 0, subject) by {
        NothingStays(v, policy, events, subject);
      }
    } else {
      HiddenClosedForm(v, policy, events, n - 1, subject);
      StaysStep(v, policy, events, n, subject);
    }
  }

  lemma NothingStays(v: View, policy: Policy, events: seq<Event>, subject: string)
    ensures !StaysHidden(v, policy, events, 0, subject) && !StaysAutoHidden(v, policy, events, 0, subject)
  {
  }

  lemma ModeratorStep(v: View, m: Mod, e: Event)
    ensures ModStep(v, m, e).moderators == {} <==> m.moderators == {}
  {
    hide ParseMap, Trim, Effective, ReplayConfirmations, ObjectId, Updated;
    var a := Decide(v, m, e);
    assert a.AddModerator? ==> e.author in m.moderators;
    if a.RemoveModerator? {
      assert |m.moderators - {a.cid}| == |m.moderators| - 1 > 0;
    }
  }

  /** A community has moderators after any replay exactly when it was configured with some. */
  lemma {:induction false} ModeratorsRemain(v: View, policy: Policy, events: seq<Event>, n: nat)
    requires n <= |events|
    ensures Moderated(v, policy, events, n).moderators == {} <==> Start(policy).moderators == {}
  {
    hide ModStep, Seeded;
    if n > 0 {
      ModeratorsRemain(v, policy, events, n - 1);
      ModeratorStep(v, Moderated(v, policy, events, n - 1), events[n - 1]);
    }
  }

  // ----- the two confirmation counts

  /** Replay and metrics count the same confirmations for every block exactly when the confirmed blocks are a prefix. */
  lemma CountsAgree(blocks: seq<Block>)
    requires Positions(blocks)
    ensures (forall i | 0 <= i < |blocks| ::
              (if Tip(blocks).None? then 0 else Confirmations(Tip(blocks).value, blocks[i].index)) ==
                MetricConfirmations(Tip(blocks), blocks[i])) <==>
            PrefixConfirmed(blocks)
  {
    TipFacts(blocks, |blocks|);
  }

  // ----- finality

  /** Finality is required, with at least one confirmation, at every point of the replay. */
  predicate FinalThroughout(v: View, policy: Policy, events: seq<Event>) {
    forall n | 0 <= n <= |events| ::
      var p := Moderated(v, policy, events, n).policy; p.requireFinality && p.minConfirmations >= 1
  }

  /** The first moderation event that is not effective yet, or the end. */
  function FirstPending(v: View, policy: Policy, events: seq<Event>, i: nat): (k: nat)
    requires i <= |events|
    ensures i <= k <= |events|
    ensures forall j | i <= j < k && IsModerationKind(events[j].kind) ::
              Effective(Moderated(v, policy, events, j).policy, ReplayConfirmations(v, events[j].id))
    ensures k < |events| ==>
              (IsModerationKind(events[k].kind) &&
               !Effective(Moderated(v, policy, events, k).policy, ReplayConfirmations(v, events[k].id)))
    decreases |events| - i
  {
    if i == |events| ||
       (IsModerationKind(events[i].kind) &&
        !Effective(Moderated(v, policy, events, i).policy, ReplayConfirmations(v, events[i].id)))
    then i else FirstPending(v, policy, events, i + 1)
  }

  /** Confirmations fall along the replay order. */
  ghost predicate CountsFall(v: View, events: seq<Event>) {
    forall i, j | 0 <= i < j < |events| :: ReplayConfirmations(v, events[i].id) >= ReplayConfirmations(v, events[j].id)
  }

  /** Nothing after the first pending moderation event has an effect: the effective ones are a prefix. */
  lemma {:induction false} PendingRest(v: View, policy: Policy, events: seq<Event>, n: nat)
    requires n <= |events| && CountsFall(v, events) && FinalThroughout(v, policy, events)
    requires FirstPending(v, policy, events, 0) <= n
    ensures Moderated(v, policy, events, n) == Moderated(v, policy, events, FirstPending(v, policy, events, 0))
    decreases n
  {
    hide Decide, Start, Enact, FirstPending, ReplayConfirmations;
    var k := FirstPending(v, policy, events, 0);
    if k < n {
      PendingRest(v, policy, events, n - 1);
      var m := Moderated(v, policy, events, n - 1);
      assert m.policy.requireFinality by { assert 0 <= n - 1 <= |events|; }
      assert k < n - 1 ==> ReplayConfirmations(v, events[k].id) >= ReplayConfirmations(v, events[n - 1].id);
      PendingSkips(v, m, events[n - 1]);
    }
  }

  lemma PendingSkips(v: View, m: Mod, e: Event)
    requires !Effective(m.policy, ReplayConfirmations(v, e.id))
    ensures ModStep(v, m, e) == m
  {
  }

  /** With more confirmations everywhere, the effective prefix is moderated alike. */
  lemma {:induction false} PrefixModeratedAlike(v: View, v': View, policy: Policy, events: seq<Event>, events': seq<Event>, n: nat)
    requires n <= FirstPending(v, policy, events, 0) && n <= |events'|
    requires forall i | 0 <= i < n :: events'[i] == events[i] &&
               ReplayConfirmations(v', events[i].id) >= ReplayConfirmations(v, events[i].id)
    requires FinalThroughout(v, policy, events)
    ensures Moderated(v', policy, events', n) == Moderated(v, policy, events, n)
  {
    hide Request, Enact, Start, ReplayConfirmations;
    if n > 0 {
      PrefixModeratedAlike(v, v', policy, events, events', n - 1);
    }
  }

  // ----- the final policy

  /** What a policy update can change. */
  datatype Setting = FlagLimit | ConfirmationLimit | FinalityRule

  function SettingOf(p: Policy, s: Setting): int {
    match s
    case FlagLimit => p.maxFlags
    case ConfirmationLimit => p.minConfirmations
    case FinalityRule => if p.requireFinality then 1 else 0
  }

  function Positive(payload: map<string, string>, key: string): Option<int> {
    if key in payload && ParseI64OrZero(payload[key]) > 0 then Some(ParseI64OrZero(payload[key])) else None
  }

  /** The value a payload names for a setting; numbers that are not positive name nothing. */
  function Named(payload: map<string, string>, s: Setting): Option<int> {
    match s
    case FlagLimit => Positive(payload, "max_flags_before_auto_hide")
    case ConfirmationLimit => Positive(payload, "min_confirmations_for_enforcement")
    case FinalityRule =>
      if "require_finality_for_actions" in payload
      then Some(if IsYes(payload["require_finality_for_actions"]) then 1 else 0) else None
  }

  lemma UpdatedSetting(p: Policy, payload: map<string, string>, s: Setting)
    ensures SettingOf(Updated(p, payload), s) == if Named(payload, s).Some? then Named(payload, s).value else SettingOf(p, s)
    ensures Updated(p, payload) == p.(maxFlags := Updated(p, payload).maxFlags,
                                      minConfirmations := Updated(p, payload).minConfirmations,
                                      requireFinality := Updated(p, payload).requireFinality)
  {
    hide IsYes, ParseI64OrZero;
  }

  /** Event `i` is an accepted policy update that names this setting. */
  predicate Updates(v: View, policy: Policy, events: seq<Event>, i: nat, s: Setting)
    requires i < |events|
  {
    ActionAt(v, policy, events, i).SetPolicy? && Named(ParseMap(events[i].payload), s).Some?
  }

  /** The last accepted update among the first `n` events that names this setting, or -1. */
  function LastUpdate(v: View, policy: Policy, events: seq<Event>, n: nat, s: Setting): (i: int)
    requires n <= |events|
    ensures -1 <= i < n && (i >= 0 ==> Updates(v, policy, events, i, s))
  {
    hide Updates;
    if n == 0 then -1
    else if Updates(v, policy, events, n - 1, s) then n - 1
    else LastUpdate(v, policy, events, n - 1, s)
  }

  lemma {:induction false} NoneAfter(v: View, policy: Policy, events: seq<Event>, n: nat, s: Setting)
    requires n <= |events|
    ensures forall j | LastUpdate(v, policy, events, n, s) < j < n :: !Updates(v, policy, events, j, s)
  {
    hide Updates;
    if n > 0 {
      NoneAfter(v, policy, events, n - 1, s);
    }
  }

  /** What the last accepted update says about a setting, or the starting value. */
  function Lasting(v: View, policy: Policy, events: seq<Event>, n: nat, s: Setting): int
    requires n <= |events|
  {
    var i := LastUpdate(v, policy, events, n, s);
    if i < 0 then SettingOf(policy, s) else Named(ParseMap(events[i].payload), s).value
  }

  lemma SetPolicyIs(v: View, m: Mod, e: Event)
    ensures var a := Decide(v, m, e); a.SetPolicy? ==> a.policy == Updated(m.policy, ParseMap(e.payload))
    ensures Decide(v, m, e).SetPolicy? ==> e.kind.PolicyUpdated?
  {
    hide ParseMap, Updated, Effective, ReplayConfirmations, Trim, ObjectId;
  }

  /** The policy a replay ends with, setting by setting: the last accepted update that names it, else the start. */
  lemma {:induction false} FinalPolicy(v: View, policy: Policy, events: seq<Event>, n: nat, s: Setting)
    requires n <= |events|
    ensures var p := Moderated(v, policy, events, n).policy;
            SettingOf(p, s) == Lasting(v, policy, events, n, s) && p.enabled == policy.enabled && p.moderators == policy.moderators
  {
    hide Decide, Seeded, Named, Updated, ParseMap, SettingOf;
    if n > 0 {
      FinalPolicy(v, policy, events, n - 1, s);
      var m := Moderated(v, policy, events, n - 1);
      SetPolicyIs(v, m, events[n - 1]);
      UpdatedSetting(m.policy, ParseMap(events[n - 1].payload), s);
    }
  }

  lemma SettingsDecide(p: Policy, q: Policy)
    requires p.enabled == q.enabled && p.moderators == q.moderators
    ensures p == q <==> forall s :: SettingOf(p, s) == SettingOf(q, s)
  {
    if forall s :: SettingOf(p, s) == SettingOf(q, s) {
      assert SettingOf(p, FlagLimit) == SettingOf(q, FlagLimit);
      assert SettingOf(p, ConfirmationLimit) == SettingOf(q, ConfirmationLimit);
      assert SettingOf(p, FinalityRule) == SettingOf(q, FinalityRule);
    }
  }

  /** Every setting that accepted updates name ends with its starting value. */
  ghost predicate Restores(v: View, policy: Policy, events: seq<Event>) {
    forall s :: Lasting(v, policy, events, |events|, s) == SettingOf(policy, s)
  }

  /** A replay ends with the policy it started from exactly when its last updates restore every setting. */
  lemma PolicyRestored(v: View, policy: Policy, events: seq<Event>)
    ensures Moderated(v, policy, events, |events|).policy == policy <==> Restores(v, policy, events)
  {
    hide Moderated, Lasting, SettingOf;
    var p := Moderated(v, policy, events, |events|).policy;
    forall s ensures SettingOf(p, s) == Lasting(v, policy, events, |events|, s) {
      FinalPolicy(v, policy, events, |events|, s);
    }
    FinalPolicy(v, policy, events, |events|, FlagLimit);
    SettingsDecide(p, policy);
  }

  // ----- replaying again

  /**
   * Replaying again passes through the states of the first replay, up to and including the last one, exactly when the
   * first replay restored the policy. From left to right this is the case `n == 0`, since the policy is part of a state:
   * what the condition means is in `FinalPolicy` and `PolicyRestored`.
   */
  lemma ReplayAgain(v: View, policy: Policy, events: seq<Event>)
    ensures var again := Moderated(v, policy, events, |events|).policy;
            (forall n | 0 <= n <= |events| :: Moderated(v, again, events, n) == Moderated(v, policy, events, n)) <==>
            Restores(v, policy, events)
  {
    hide Restores, Moderated;
    PolicyRestored(v, policy, events);
    var again := Moderated(v, policy, events, |events|).policy;
    OneStep(v, again, events, 0);
    OneStep(v, policy, events, 0);
    if forall n | 0 <= n <= |events| :: Moderated(v, again, events, n) == Moderated(v, policy, events, n) {
      assert 0 <= 0 <= |events| && Moderated(v, again, events, 0) == Moderated(v, policy, events, 0);
    }
  }

  /** Without policy updates in the log, replaying again gives the same state. */
  lemma NoUpdatesNoChange(v: View, policy: Policy, events: seq<Event>)
    requires forall e | e in events :: !e.kind.PolicyUpdated?
    ensures var once := Moderated(v, policy, events, |events|);
            once.policy == policy && Moderated(v, once.policy, events, |events|) == once
  {
    hide Moderated;
    forall i | 0 <= i < |events| ensures !ActionAt(v, policy, events, i).SetPolicy? {
      assert events[i] in events;
      SetPolicyIs(v, Moderated(v, policy, events, i), events[i]);
    }
    SteadyReplay(v, policy, events, |events|);
  }

  /** A replay that accepts no policy update leaves the policy it started from, so replaying again changes nothing. */
  lemma {:induction false} SteadyReplay(v: View, policy: Policy, events: seq<Event>, n: nat)
    requires n <= |events| && forall i | 0 <= i < n :: !ActionAt(v, policy, events, i).SetPolicy?
    ensures var once := Moderated(v, policy, events, n);
            once.policy == policy && Moderated(v, once.policy, events, n) == once
  {
    hide Decide, Seeded;
    if n > 0 {
      SteadyReplay(v, policy, events, n - 1);
      assert !ActionAt(v, policy, events, n - 1).SetPolicy?;
    }
  }

  function FlagEvent(id: string, author: string, subject: string): Event {
    Event(id, ContentFlagged, author, 1, CanonicalText([("object_id", subject)]), "s")
  }

  function StricterEvent(id: string, author: string): Event {
    Event(id, PolicyUpdated, author, 1, CanonicalText([("max_flags_before_auto_hide", IntText(1))]), "s")
  }

  lemma OneField(key: string, value: string)
    requires KeyOk(key)
    ensures ParseMap(CanonicalText([(key, value)])) == map[key := value]
  {
    hide ParseMap, CanonicalText;
    RoundTrip([(key, value)]);
    assert MapOf([(key, value)]) == map[key := value];
  }

  lemma FlagReads(subject: string)
    ensures ParseMap(CanonicalText([("object_id", subject)])) == map["object_id" := subject]
  {
    OneField("object_id", subject);
  }

  lemma StricterReads(p: Policy)
    ensures Updated(p, ParseMap(CanonicalText([("max_flags_before_auto_hide", IntText(1))]))) == p.(maxFlags := 1)
  {
    hide ParseMap, CanonicalText, IntText, ParseI64;
    OneField("max_flags_before_auto_hide", IntText(1));
    ParseI64OfText(1);
  }

  lemma OneStep(v: View, policy: Policy, events: seq<Event>, n: nat)
    requires n <= |events|
    ensures Moderated(v, policy, events, n) ==
              if n == 0 then Start(policy) else ModStep(v, Moderated(v, policy, events, n - 1), events[n - 1])
  {
  }

  lemma TwoSteps(v: View, policy: Policy, events: seq<Event>)
    requires |events| == 2
    ensures Moderated(v, policy, events, |events|) == ModStep(v, ModStep(v, Start(policy), events[0]), events[1])
  {
    hide Moderated, ModStep, Start;
    OneStep(v, policy, events, 0);
    OneStep(v, policy, events, 1);
    OneStep(v, policy, events, 2);
  }

  /** The two events, replayed from a policy without finality. */
  lemma FlagThenStricter(v: View, policy: Policy, author: string, subject: string)
    requires policy.enabled && !policy.requireFinality && author in Start(policy).moderators && subject != ""
    requires policy.maxFlags >= 1
    ensures var events := [FlagEvent("a", author, subject), StricterEvent("b", author)];
            var m := Moderated(v, policy, events, |events|);
            m.policy == policy.(maxFlags := 1) && (subject in m.hidden <==> policy.maxFlags == 1)
  {
    hide ParseMap, CanonicalText, Updated, Seeded, ReplayConfirmations, Moderated;
    var events := [FlagEvent("a", author, subject), StricterEvent("b", author)];
    TwoSteps(v, policy, events);
    FlagReads(subject);
    var m1 := ModStep(v, Start(policy), events[0]);
    assert Decide(v, Start(policy), events[0]) == Flag(subject);
    StricterReads(m1.policy);
    assert Decide(v, m1, events[1]) == SetPolicy(policy.(maxFlags := 1));
  }

  /** With an accepted policy update, replaying the same events again can hide what the first replay left visible. */
  lemma ReplayAgainDiffers(v: View, policy: Policy, author: string, subject: string) returns (events: seq<Event>)
    requires policy.enabled && !policy.requireFinality && author in Start(policy).moderators && subject != ""
    requires policy.maxFlags >= 2
    ensures var once := Moderated(v, policy, events, |events|);
            var twice := Moderated(v, once.policy, events, |events|);
            subject !in once.hidden && subject in twice.hidden
  {
    hide Moderated, Seeded, FlagEvent, StricterEvent;
    events := [FlagEvent("a", author, subject), StricterEvent("b", author)];
    FlagThenStricter(v, policy, author, subject);
    FlagThenStricter(v, policy.(maxFlags := 1), author, subject);
  }

  /** The last states alone can agree even so: here a lone update, which the second replay only repeats. */
  lemma LastStatesMayAgree(v: View, policy: Policy, author: string) returns (events: seq<Event>)
    requires policy.enabled && !policy.requireFinality && author in Start(policy).moderators && policy.maxFlags >= 2
    ensures var once := Moderated(v, policy, events, |events|);
            !Restores(v, policy, events) && Moderated(v, once.policy, events, |events|) == once
  {
    hide Moderated, Restores, Seeded, StricterEvent;
    events := [StricterEvent("b", author)];
    StricterAlone(v, policy, author);
    StricterAlone(v, policy.(maxFlags := 1), author);
    PolicyRestored(v, policy, events);
  }

  lemma StricterAlone(v: View, policy: Policy, author: string)
    requires policy.enabled && !policy.requireFinality && author in Start(policy).moderators
    ensures var events := [StricterEvent("b", author)];
            Moderated(v, policy, events, |events|) == Start(policy).(policy := policy.(maxFlags := 1))
  {
    hide ParseMap, CanonicalText, Updated, Seeded, ReplayConfirmations, Moderated;
    var events := [StricterEvent("b", author)];
    OneStep(v, policy, events, 0);
    OneStep(v, policy, events, |events|);
    StricterReads(policy);
    assert Decide(v, Start(policy), events[0]) == SetPolicy(policy.(maxFlags := 1));
  }
}
