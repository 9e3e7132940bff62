/** Who may moderate. */
module Authority {
  import opened Types
  import opened Text
  import opened Decimal
  import opened Canonical
  import opened Moderation

  /** The community moderates, and the event has the confirmations its policy asks for. */
  predicate InForce(v: View, m: Mod, e: Event) {
    m.policy.enabled && (m.policy.requireFinality ==> m.policy.minConfirmations <= ReplayConfirmations(v, e.id))
  }

  /** Everything moderation can do to a community but to list a denial. */
  predicate SameRule(m: Mod, m': Mod) {
    && m'.moderators == m.moderators && m'.pins == m.pins && m'.policy == m.policy
    && m'.hidden == m.hidden && m'.autoHidden == m.autoHidden && m'.flags == m.flags
  }

  predicate Listed(m: Mod, m': Mod, e: Event) { e.id in m'.denied && m'.denied - {e.id} == m.denied - {e.id} }

  /** The kinds that only moderators may use. */
  predicate Reserved(kind: EventKind) {
    match kind
    case ModeratorAdded => true
    case ModeratorRemoved => true
    case ContentHidden => true
    case ContentUnhidden => true
    case CoreTopicPinned => true
    case CoreTopicUnpinned => true
    case PolicyUpdated => true
    case _ => false
  }

  /** The object an event is about: the first of these fields, or the event itself. */
  predicate About(e: Event, subject: string) {
    var p := ParseMap(e.payload);
    if "object_id" in p then subject == p["object_id"]
    else if "recipe_id" in p then subject == p["recipe_id"]
    else if "thread_id" in p then subject == p["thread_id"]
    else if "reply_id" in p then subject == p["reply_id"]
    else if "target_id" in p then subject == p["target_id"]
    else subject == e.id
  }

  /** The member or recipe an event names; a missing field names nobody and nothing. */
  ghost predicate NamesMember(e: Event, cid: string) {
    var p := ParseMap(e.payload); if "target_cid" in p then IsTrimmed(p["target_cid"], cid) else cid == ""
  }

  predicate NamesRecipe(e: Event, recipe: string) {
    var p := ParseMap(e.payload); if "recipe_id" in p then recipe == p["recipe_id"] else recipe == ""
  }

  // ----- the start

  lemma {:induction false} SeedsAre(cids: seq<string>, n: nat, cid: string)
    requires n <= |cids|
    ensures cid in Seeded(cids, n) <==> cid != "" && exists i | 0 <= i < n :: IsTrimmed(cids[i], cid)
  {
    hide Trim, IsTrimmed;
    if n > 0 {
      SeedsAre(cids, n - 1, cid);
      assert IsTrimmed(cids[n - 1], Trim(cids[n - 1]));
      if IsTrimmed(cids[n - 1], cid) {
        TrimmedOnce(cids[n - 1], cid);
      }
    }
  }

  /** A replay starts with the configured moderators, without the white space around them and without blanks, and nothing else. */
  lemma StartsWithConfigured(v: View, policy: Policy, events: seq<Event>, cid: string)
    ensures var m := Moderated(v, policy, events, 0);
            && (cid in m.moderators <==> cid != "" && exists i | 0 <= i < |policy.moderators| :: IsTrimmed(policy.moderators[i], cid))
            && m.policy == policy && m.hidden == {} && m.autoHidden == {} && m.flags == map[] && m.pins == map[] && m.denied == map[]
  {
    hide Seeded, IsTrimmed;
    SeedsAre(policy.moderators, |policy.moderators|, cid);
  }

  // ----- one event

  /** Whoever is not a moderator changes nothing by a reserved event, and is put down as denied if it was in force. */
  lemma OutsiderDenied(v: View, m: Mod, e: Event)
    requires Reserved(e.kind) && e.author !in m.moderators
    ensures SameRule(m, ModStep(v, m, e))
    ensures if InForce(v, m, e) then Listed(m, ModStep(v, m, e), e) else ModStep(v, m, e) == m
  {
    hide ParseMap, ReplayConfirmations;
  }

  /** An event that is not in force changes nothing, nor does one of a kind that is not about moderation. */
  lemma PendingIgnored(v: View, m: Mod, e: Event)
    requires !InForce(v, m, e) || !(Reserved(e.kind) || e.kind.ContentFlagged?)
    ensures ModStep(v, m, e) == m
  {
    hide ParseMap, ReplayConfirmations;
  }

  /** What changes the list of moderators: additions and removals by moderators, of the member named, never of the last one. */
  lemma MembersChange(v: View, m: Mod, e: Event, cid: string)
    requires InForce(v, m, e) && e.author in m.moderators && NamesMember(e, cid)
    ensures var m' := ModStep(v, m, e);
            && (e.kind.ModeratorAdded? && cid != "" ==> m' == m.(moderators := m.moderators + {cid}))
            && (e.kind.ModeratorRemoved? && cid != "" && cid in m.moderators && m.moderators != {cid} ==>
                 m' == m.(moderators := m.moderators - {cid}))
            && (e.kind.ModeratorAdded? && cid == "" ==> SameRule(m, m') && Listed(m, m', e))
            && (e.kind.ModeratorRemoved? && (cid == "" || cid !in m.moderators || m.moderators == {cid}) ==>
                 SameRule(m, m') && Listed(m, m', e))
  {
    hide ReplayConfirmations, ObjectId, Updated, SkipSpaces, DropSpaces;
    var p := ParseMap(e.payload);
    hide ParseMap;
    if "target_cid" in p {
      TrimmedOnce(p["target_cid"], cid);
    }
    OneMember(m.moderators, cid);
  }

  lemma TrimmedOnce(s: string, t: string)
    requires IsTrimmed(s, t)
    ensures t == Trim(s)
  {
    hide Trim, IsSpace;
    var i, j := Place(s, t);
    var a, b := Place(s, Trim(s));
    OneInside(s, t, i, j, Trim(s), a, b);
  }

  ghost predicate Inside(s: string, t: string, i: int, j: int) {
    && 0 <= i <= j <= |s| && t == s[i..j] && (forall k | 0 <= k < i || j <= k < |s| :: IsSpace(s[k]))
    && (i < j ==> !IsSpace(s[i]) && !IsSpace(s[j - 1]))
  }

  lemma Place(s: string, t: string) returns (i: int, j: int)
    requires IsTrimmed(s, t)
    ensures Inside(s, t, i, j)
  {
    hide IsSpace;
    i, j :| 0 <= i <= j <= |s| && t == s[i..j] && (forall k | 0 <= k < i || j <= k < |s| :: IsSpace(s[k])) &&
      (i < j ==> !IsSpace(s[i]) && !IsSpace(s[j - 1]));
  }

  lemma OneInside(s: string, t: string, i: int, j: int, u: string, a: int, b: int)
    requires Inside(s, t, i, j) && Inside(s, u, a, b)
    ensures t == u
  {
    hide IsSpace;
    if i < j {
      assert a <= i && j <= b;
    }
    if a < b {
      assert i <= a && b <= j;
    }
  }

  lemma OneMember(s: set<string>, cid: string)
    ensures cid in s ==> (|s| <= 1 <==> s == {cid})
  {
    if cid in s {
      assert |s - {cid}| == |s| - 1;
      assert s == {cid} + (s - {cid});
    }
  }

  /** What changes which objects are hidden by hand. */
  lemma HiddenChanges(v: View, m: Mod, e: Event, subject: string)
    requires InForce(v, m, e) && e.author in m.moderators && About(e, subject)
    ensures var m' := ModStep(v, m, e);
            && (e.kind.ContentHidden? && subject != "" ==>
                 m' == m.(hidden := m.hidden + {subject}, autoHidden := m.autoHidden - {subject}))
            && (e.kind.ContentUnhidden? && subject != "" ==>
                 m' == m.(hidden := m.hidden - {subject}, autoHidden := m.autoHidden - {subject}))
            && ((e.kind.ContentHidden? || e.kind.ContentUnhidden?) && subject == "" ==> SameRule(m, m') && Listed(m, m', e))
  {
    hide ParseMap, ReplayConfirmations, Updated, Trim;
  }

  /** Anyone may flag; the flag that reaches the threshold hides the object. */
  lemma FlagCounts(v: View, m: Mod, e: Event, subject: string)
    requires InForce(v, m, e) && e.kind.ContentFlagged? && About(e, subject)
    ensures var m' := ModStep(v, m, e);
            && (subject == "" ==> SameRule(m, m') && Listed(m, m', e))
            && (subject != "" ==>
                 && m'.flags.Keys == m.flags.Keys + {subject} && m'.flags - {subject} == m.flags - {subject}
                 && m'.flags[subject] == (if subject in m.flags then m.flags[subject] else 0) + 1
                 && m'.hidden == m.hidden + (if m'.flags[subject] >= m.policy.maxFlags then {subject} else {})
                 && m'.autoHidden == m.autoHidden + (if m'.flags[subject] >= m.policy.maxFlags then {subject} else {})
                 && m'.moderators == m.moderators && m'.pins == m.pins && m'.policy == m.policy && m'.denied == m.denied)
  {
    hide ParseMap, Decide, InForce, About;
    FlagDecided(v, m, e, subject);
  }

  lemma FlagDecided(v: View, m: Mod, e: Event, subject: string)
    requires InForce(v, m, e) && e.kind.ContentFlagged? && About(e, subject)
    ensures Decide(v, m, e) == if subject == "" then Deny(NoObject) else Flag(subject)
  {
    hide ParseMap, ReplayConfirmations, Updated, Trim;
  }

  lemma PinsChange(v: View, m: Mod, e: Event, recipe: string)
    requires InForce(v, m, e) && e.author in m.moderators && NamesRecipe(e, recipe)
    ensures var m' := ModStep(v, m, e);
            && (e.kind.CoreTopicPinned? && recipe != "" ==> m' == m.(pins := m.pins[recipe := true]))
            && (e.kind.CoreTopicUnpinned? && recipe != "" ==> m' == m.(pins := m.pins[recipe := false]))
            && ((e.kind.CoreTopicPinned? || e.kind.CoreTopicUnpinned?) && recipe == "" ==> SameRule(m, m') && Listed(m, m', e))
  {
    hide ParseMap, ReplayConfirmations, Updated, Trim, ObjectId;
  }

  /** A policy update sets the settings it names and leaves the others. */
  lemma PolicyChanges(v: View, m: Mod, e: Event)
    requires InForce(v, m, e) && e.author in m.moderators && e.kind.PolicyUpdated?
    ensures var p, m' := ParseMap(e.payload), ModStep(v, m, e);
            && m' == m.(policy := m'.policy)
            && m'.policy.enabled == m.policy.enabled && m'.policy.moderators == m.policy.moderators
            && Renewed(p, "max_flags_before_auto_hide", m.policy.maxFlags, m'.policy.maxFlags)
            && Renewed(p, "min_confirmations_for_enforcement", m.policy.minConfirmations, m'.policy.minConfirmations)
            && m'.policy.requireFinality == if "require_finality_for_actions" in p
                                            then IsYes(p["require_finality_for_actions"]) else m.policy.requireFinality
  {
    hide ParseMap, ReplayConfirmations, Trim, ObjectId, ParseI64OrZero;
  }

  /** A setting takes the number it is given, if that is positive. */
  predicate Renewed(p: map<string, string>, key: string, was: nat, becomes: nat) {
    if key in p && ParseI64OrZero(p[key]) > 0 then becomes == ParseI64OrZero(p[key]) else becomes == was
  }

  /** Whatever changes but flags and what they hide, changes by a reserved event in force of somebody who moderates. */
  lemma ChangesNeedModerators(v: View, m: Mod, e: Event)
    requires var m' := ModStep(v, m, e);
             m'.moderators != m.moderators || m'.pins != m.pins || m'.policy != m.policy || m'.hidden != m.hidden
    ensures InForce(v, m, e) && (e.kind.ContentFlagged? || (Reserved(e.kind) && e.author in m.moderators))
  {
    hide ModStep, ReplayConfirmations, InForce;
    if !InForce(v, m, e) || !(Reserved(e.kind) || e.kind.ContentFlagged?) {
      PendingIgnored(v, m, e);
    } else if Reserved(e.kind) && e.author !in m.moderators {
      OutsiderDenied(v, m, e);
    }
  }

  // ----- a whole replay

  /** Every reserved event comes from somebody who does not moderate at the start. */
  predicate OnlyOutsiders(policy: Policy, events: seq<Event>) {
    forall e | e in events && Reserved(e.kind) :: e.author !in Start(policy).moderators
  }

  /** Then all of them are denied, if they are in force, and nothing but flags decides anything. */
  lemma {:induction false} OutsidersDecideNothing(v: View, policy: Policy, events: seq<Event>, n: nat)
    requires n <= |events| && OnlyOutsiders(policy, events)
    ensures var m := Moderated(v, policy, events, n);
            && m.moderators == Start(policy).moderators && m.pins == map[] && m.policy == policy && m.hidden == m.autoHidden
            && forall i | 0 <= i < n && Reserved(events[i].kind) && InForce(v, Start(policy), events[i]) ::
                 events[i].id in m.denied
  {
    hide ModStep, Seeded, ReplayConfirmations, InForce, Reserved, About;
    if n > 0 {
      OutsidersDecideNothing(v, policy, events, n - 1);
      var m, e := Moderated(v, policy, events, n - 1), events[n - 1];
      ForceOfPolicy(v, m, Start(policy), e);
      assert e in events;
      DeniedStep(v, m, e);
      if !InForce(v, m, e) || !(Reserved(e.kind) || e.kind.ContentFlagged?) {
        PendingIgnored(v, m, e);
      } else if Reserved(e.kind) {
        OutsiderDenied(v, m, e);
      } else {
        FlagCounts(v, m, e, Subject(e));
      }
    }
  }

  lemma ForceOfPolicy(v: View, m: Mod, m': Mod, e: Event)
    requires m.policy == m'.policy
    ensures InForce(v, m, e) == InForce(v, m', e)
  {
  }

  lemma DeniedStep(v: View, m: Mod, e: Event)
    ensures m.denied.Keys <= ModStep(v, m, e).denied.Keys
  {
    hide Decide;
  }

  function Subject(e: Event): (subject: string)
    ensures About(e, subject)
  {
    ObjectId(ParseMap(e.payload), e.id)
  }
}
