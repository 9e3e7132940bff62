/** Opposite moderation actions on one object. */
module Conflicts {
  import opened Types
  import opened Text
  import opened Sorting
  import opened Canonical
  import opened Timeline
  import opened Invariant
  import opened History
  import opened Replay
  import opened Moderation
  import opened SmallRuns

  /** After event `j` nothing acts on the object any more. */
  predicate LastWord(v: View, policy: Policy, events: seq<Event>, j: nat, subject: string)
    requires j < |events|
  {
    forall k | j < k < |events| ::
      var a := ActionAt(v, policy, events, k); a != Hide(subject) && a != Unhide(subject) && a != Flag(subject)
  }

  predicate Opposite(a: Action, b: Action, subject: string) {
    (a == Hide(subject) && b == Unhide(subject)) || (a == Unhide(subject) && b == Hide(subject))
  }

  /** The last hide or unhide decides. */
  lemma LastWordDecides(v: View, policy: Policy, events: seq<Event>, j: nat, subject: string)
    requires j < |events| && LastWord(v, policy, events, j, subject)
    requires ActionAt(v, policy, events, j) == Hide(subject) || ActionAt(v, policy, events, j) == Unhide(subject)
    ensures subject in Moderated(v, policy, events, |events|).hidden <==> ActionAt(v, policy, events, j) == Hide(subject)
  {
    hide Moderated, ActionAt;
    HiddenClosedForm(v, policy, events, |events|, subject);
    if ActionAt(v, policy, events, j) == Hide(subject) {
      assert Hides(v, policy, events, j, subject);
    }
  }

  /** What moderation-plan.md prefers: the higher block, and in one block the smaller id. */
  predicate PlanPrefers(index: map<string, nat>, x: Event, y: Event) {
    var p, q := Position(index, x.id), Position(index, y.id);
    p > q || (p == q && LexLess(x.id, y.id))
  }

  /**
   * For an accepted hide and an accepted unhide of one object with nothing about it after them, the code lets the later
   * one in replay order decide. That is what the plan prefers exactly when they lie in different blocks or the later one
   * has the smaller id, which takes a later time stamp.
   */
  lemma PlanAndCode(cfg: Config, policy: Policy, c: Chain, i: nat, j: nat, subject: string)
    requires Placed(cfg, c) && i < j < |Ordered(c)| && LastWord(ViewOf(c), policy, Ordered(c), j, subject)
    requires Opposite(ActionAt(ViewOf(c), policy, Ordered(c), i), ActionAt(ViewOf(c), policy, Ordered(c), j), subject)
    ensures var v, s, index := ViewOf(c), Ordered(c), IndexOf(c.blocks);
            var first, last := s[i], s[j];
            var preferred := if PlanPrefers(index, first, last) then i else j;
            && first.id != last.id
            && (subject in ModerationOf(policy, c).hidden <==> ActionAt(v, policy, s, j) == Hide(subject))
            && ((subject in ModerationOf(policy, c).hidden <==> ActionAt(v, policy, s, preferred) == Hide(subject)) <==>
                Position(index, first.id) != Position(index, last.id) || LexLess(last.id, first.id))
            && (Position(index, first.id) == Position(index, last.id) && LexLess(last.id, first.id) ==> first.ts < last.ts)
  {
    hide Limits, IdBag, EventIds, Moderated, Decide, Sort, IndexUpTo, Position, LexLess, Positions;
    LastWordDecides(ViewOf(c), policy, Ordered(c), j, subject);
    ModerationKinds(ViewOf(c), Moderated(ViewOf(c), policy, Ordered(c), i), Ordered(c)[i]);
    ModerationKinds(ViewOf(c), Moderated(ViewOf(c), policy, Ordered(c), j), Ordered(c)[j]);
    InOrder(cfg, c, i, j);
    LexTotal(Ordered(c)[i].id, Ordered(c)[j].id);
  }

  lemma ModerationKinds(v: View, m: Mod, e: Event)
    ensures Decide(v, m, e).Hide? || Decide(v, m, e).Unhide? ==> Priority(e.kind) == 2
  {
  }

  /** Two places in the replay of a placed chain hold events of different ids, in the order of the comparator. */
  lemma InOrder(cfg: Config, c: Chain, i: nat, j: nat)
    requires Placed(cfg, c) && i < j < |Ordered(c)|
    ensures Ordered(c)[i].id != Ordered(c)[j].id && Before(IndexOf(c.blocks), Ordered(c)[i], Ordered(c)[j])
  {
    hide Limits, IdBag, EventIds, Before, IndexUpTo, Positions;
    var index := IndexOf(c.blocks);
    PlacedUnique(cfg, c);
    ReplayTotal(index, c.events);
    SortSorted(ByReplay(index), c.events);
    SortBag(ByReplay(index), c.events);
    var s := Ordered(c);
    assert s[i] in s && s[j] in s;
    assert s[i] in c.events && s[j] in c.events;
    SortedOnce(c, i, j);
    BeforeStrict(index, s[i], s[j], s[j]);
  }

  // ----- a run on which they differ

  function HideEvent(id: string, author: string, subject: string): Event {
    Event(id, ContentHidden, author, 1, CanonicalText([("object_id", subject)]), "s")
  }

  function UnhideEvent(id: string, author: string, subject: string): Event {
    Event(id, ContentUnhidden, author, 1, CanonicalText([("object_id", subject)]), "s")
  }

  function HideThenUnhide(author: string, subject: string): (events: seq<Event>)
    ensures |events| == 2
  {
    [HideEvent("a", author, subject), UnhideEvent("b", author, subject)]
  }

  lemma HiddenThenShown(v: View, policy: Policy, author: string, subject: string)
    requires policy.enabled && !policy.requireFinality && author in Start(policy).moderators && subject != ""
    ensures var events := HideThenUnhide(author, subject);
            && ActionAt(v, policy, events, 0) == Hide(subject) && ActionAt(v, policy, events, 1) == Unhide(subject)
            && subject !in Moderated(v, policy, events, |events|).hidden
  {
    hide ParseMap, CanonicalText, Seeded, ReplayConfirmations, Moderated;
    var events := HideThenUnhide(author, subject);
    FlagReads(subject);
    OneStep(v, policy, events, 0);
    OneStep(v, policy, events, 1);
    OneStep(v, policy, events, |events|);
  }

  /**
   * Two moderators act at one time, in one block: the hide has the smaller id and the plan prefers it, and the object
   * stays visible.
   */
  lemma SmallerIdLoses(cfg: Config, policy: Policy, psz: string, author: string, subject: string)
    requires policy.enabled && !policy.requireFinality && author in Start(policy).moderators && subject != ""
    requires cfg.maxBlockEvents >= 2
    requires Fit(cfg, HideEvent("a", author, subject)) && Fit(cfg, UnhideEvent("b", author, subject))
    requires EventBytes(HideEvent("a", author, subject)) + EventBytes(UnhideEvent("b", author, subject)) <= cfg.maxBlockBytes
    ensures var a, b := HideEvent("a", author, subject), UnhideEvent("b", author, subject);
            var ops := [AppendAt(a), AppendAt(b)]; var c := Run(cfg, Blank(psz), ops, |ops|);
            && Valid(cfg, c) && Ordered(c) == [a, b]
            && ActionAt(ViewOf(c), policy, [a, b], 0) == Hide(subject) && PlanPrefers(IndexOf(c.blocks), a, b)
            && subject !in ModerationOf(policy, c).hidden
  {
    hide Run, Append, Valid, Fit, CanonicalText, Ordered, Moderated, Seeded, IndexUpTo, EventBytes;
    var a, b := HideEvent("a", author, subject), UnhideEvent("b", author, subject);
    TwoOps(cfg, Blank(psz), AppendAt(a), AppendAt(b));
    TiedOrder(cfg, psz, a, b);
    var c := Append(cfg, Append(cfg, Blank(psz), a, a.ts, a.ts), b, b.ts, b.ts);
    HiddenThenShown(ViewOf(c), policy, author, subject);
    SharedBlock(cfg, psz, a, b);
  }
}
