/** Replaying again, on chains that stores reach. */
module Rerun {
  import opened Types
  import opened Text
  import opened Sorting
  import opened Decimal
  import opened Canonical
  import opened Sha256
  import opened Timeline
  import opened Invariant
  import opened History
  import opened Ledger
  import opened Replay
  import opened Moderation
  import opened Logs
  import opened BlockLog
  import opened Reopen
  import opened SmallRuns

  // ----- any chain

  /** What replaying a chain again does, on the replay order a store uses. */
  lemma ReplayChainAgain(policy: Policy, c: Chain)
    ensures ModerationOf(policy, c).policy == policy <==> Restores(ViewOf(c), policy, Ordered(c))
    ensures Restores(ViewOf(c), policy, Ordered(c)) ==>
              ModerationOf(ModerationOf(policy, c).policy, c) == ModerationOf(policy, c)
    ensures (forall e | e in c.events :: !e.kind.PolicyUpdated?) ==> Restores(ViewOf(c), policy, Ordered(c))
  {
    hide Moderated, Restores, Sort;
    PolicyRestored(ViewOf(c), policy, Ordered(c));
    SortBag(ByReplay(IndexOf(c.blocks)), c.events);
    if forall e | e in c.events :: !e.kind.PolicyUpdated? {
      NoUpdatesNoChange(ViewOf(c), policy, Ordered(c));
    }
  }

  /**
   * A store opened from files replays its chain state by state as a single replay would exactly when the replay of the
   * bare event log restores every setting, as it does when the files hold no policy update. It then shows the same.
   */
  lemma OpenShowsOneReplay(policy: Policy, events: seq<Event>, psz: string, r: Chain)
    ensures var bare, s := Chain(events, [], psz), Ordered(r);
            var left := ModerationOf(policy, bare).policy;
            && ((forall n | 0 <= n <= |s| :: Moderated(ViewOf(r), left, s, n) == Moderated(ViewOf(r), policy, s, n)) <==>
                Restores(ViewOf(bare), policy, Ordered(bare)))
            && (Restores(ViewOf(bare), policy, Ordered(bare)) ==> ModerationOf(left, r) == ModerationOf(policy, r))
  {
    hide Moderated, Restores, Sort;
    var bare, s := Chain(events, [], psz), Ordered(r);
    var left := ModerationOf(policy, bare).policy;
    ReplayChainAgain(policy, bare);
    OneStep(ViewOf(r), left, s, 0);
    OneStep(ViewOf(r), policy, s, 0);
    if forall n | 0 <= n <= |s| :: Moderated(ViewOf(r), left, s, n) == Moderated(ViewOf(r), policy, s, n) {
      assert 0 <= 0 <= |s| && Moderated(ViewOf(r), left, s, 0) == Moderated(ViewOf(r), policy, s, 0);
    }
  }

  // ----- bytes of small payloads

  lemma {:induction false} EscapeBytes(s: string)
    requires IsBytes(s)
    ensures IsBytes(Escape(s))
  {
    if s != "" {
      EscapeBytes(s[..|s| - 1]);
    }
  }

  lemma OneFieldText(key: string, value: string)
    ensures CanonicalText([(key, value)]) == Line((key, value))
  {
    var fields := [(key, value)];
    assert fields[1..] == [] && fields[..0] == [];
    assert Sort(ByKey(), fields) == fields;
    assert Lines(fields[..0]) + Line(fields[0]) == Line(fields[0]);
  }

  lemma OneFieldBytes(key: string, value: string)
    requires IsBytes(key) && IsBytes(value)
    ensures IsBytes(CanonicalText([(key, value)]))
  {
    hide CanonicalText;
    OneFieldText(key, value);
    EscapeBytes(value);
  }

  lemma NumberBytes(n: int)
    ensures IsBytes(IntText(n))
  {
    var s := NatText(if n < 0 then -n else n);
    assert forall i | 0 <= i < |s| :: IsDigit(s[i]);
  }

  // ----- the run

  /** A moderator flags an object, then lowers the number of flags that hide one. */
  function FlagThenLower(author: string, subject: string): seq<Op> {
    [AppendAt(FlagEvent("a", author, subject)), AppendAt(StricterEvent("b", author))]
  }

  function TwoEvents(author: string, subject: string): (events: seq<Event>)
    ensures |events| == 2
  {
    [FlagEvent("a", author, subject), StricterEvent("b", author)]
  }

  /** The chain after the run, in full where it matters. */
  lemma RunIs(cfg: Config, psz: string, author: string, subject: string)
    requires Fit(cfg, FlagEvent("a", author, subject)) && Fit(cfg, StricterEvent("b", author))
    ensures var ops := FlagThenLower(author, subject);
            var c := Run(cfg, Blank(psz), ops, |ops|);
            && Valid(cfg, c) && c.blocks != [] && c.events == TwoEvents(author, subject)
            && Ordered(c) == TwoEvents(author, subject)
            && |c.blocks| <= 2
            && forall i | 0 <= i < |c.blocks| ::
                 c.blocks[i].index == i && c.blocks[i].openedUnix == 1 &&
                 c.blocks[i].psz == if i == 0 then GenesisText(cfg, psz, 1) else ""
    ensures forall text :: Ordered(Chain(TwoEvents(author, subject), [], text)) == TwoEvents(author, subject)
  {
    hide Run, Append, Valid, Fit, CanonicalText, Ordered, GenesisText;
    var a, b := FlagEvent("a", author, subject), StricterEvent("b", author);
    TwoOps(cfg, Blank(psz), AppendAt(a), AppendAt(b));
    TiedOrder(cfg, psz, a, b);
    TiedStep(cfg, psz, a, b);
  }

  /**
   * On that run, from any policy without finality that hides at two or more flags: the running store leaves the object
   * visible, and replaying its chain once more hides it.
   */
  lemma StoreReplaysDiffer(cfg: Config, policy: Policy, psz: string, author: string, subject: string)
    requires policy.enabled && !policy.requireFinality && author in Start(policy).moderators && subject != ""
    requires policy.maxFlags >= 2
    requires Fit(cfg, FlagEvent("a", author, subject)) && Fit(cfg, StricterEvent("b", author))
    ensures var ops := FlagThenLower(author, subject);
            var c := Run(cfg, Blank(psz), ops, |ops|);
            && c.events != [] && !Restores(ViewOf(c), policy, Ordered(c))
            && subject !in ModerationOf(policy, c).hidden
            && subject in ModerationOf(ModerationOf(policy, c).policy, c).hidden
  {
    hide Run, Moderated, Restores, Ordered, Seeded, Fit, FlagEvent, StricterEvent;
    RunIs(cfg, psz, author, subject);
    var ops := FlagThenLower(author, subject);
    var c := Run(cfg, Blank(psz), ops, |ops|);
    FlagThenStricter(ViewOf(c), policy, author, subject);
    FlagThenStricter(ViewOf(c), policy.(maxFlags := 1), author, subject);
    PolicyRestored(ViewOf(c), policy, Ordered(c));
  }

  lemma TwoCarryable(author: string, subject: string)
    requires IsBytes(subject) && OneLine(author)
    ensures CarryableEvents(TwoEvents(author, subject))
  {
    hide CanonicalText, IsBytes, IntText, ParseMap;
    ShortBytes();
    NumberBytes(1);
    OneFieldBytes("object_id", subject);
    OneFieldBytes("max_flags_before_auto_hide", IntText(1));
    OneField("object_id", subject);
    OneField("max_flags_before_auto_hide", IntText(1));
    TextNonEmpty("object_id", subject);
    TextNonEmpty("max_flags_before_auto_hide", IntText(1));
  }

  lemma TextNonEmpty(key: string, value: string)
    ensures CanonicalText([(key, value)]) != ""
  {
    hide CanonicalText;
    OneFieldText(key, value);
  }

  lemma ShortBytes()
    ensures IsBytes("a") && IsBytes("b") && IsBytes("object_id") && IsBytes("max_flags_before_auto_hide")
  {
  }

  /** The files carry the run's chain. */
  lemma RunIsCarried(cfg: Config, psz: string, author: string, subject: string)
    requires HexHash(cfg.h) && OneLine(cfg.genesisMerkle) && OneLine(cfg.genesisHash) && psz != "" && IsBytes(psz)
    requires IsBytes(subject) && OneLine(author)
    requires Fit(cfg, FlagEvent("a", author, subject)) && Fit(cfg, StricterEvent("b", author))
    ensures var ops := FlagThenLower(author, subject); FilesCarry(Run(cfg, Blank(psz), ops, |ops|))
  {
    hide Run, Valid, HexHash, Fit, Ordered, FilesCarry, CarryableEvents, OneLine, TwoEvents;
    RunIs(cfg, psz, author, subject);
    TwoCarryable(author, subject);
    var ops := FlagThenLower(author, subject);
    var c := Run(cfg, Blank(psz), ops, |ops|);
    forall b | b in c.blocks ensures InRange(b) {
      var i :| 0 <= i < |c.blocks| && c.blocks[i] == b;
    }
    ValidIsCarried(cfg, c);
  }

  /**
   * The same through the files: the store that wrote them left the object visible, and a store opened from them with
   * the same configured policy hides it, because opening replays the bare event log first.
   */
  lemma OpeningHidesMore(cfg: Config, policy: Policy, author: string, subject: string, version: nat, chainId: string,
                         psz: string, now: int)
    requires policy.enabled && !policy.requireFinality && author in Start(policy).moderators && subject != ""
    requires policy.maxFlags >= 2 && IsBytes(subject) && OneLine(author)
    requires HexHash(cfg.h) && OneLine(cfg.genesisMerkle) && OneLine(cfg.genesisHash) && psz != "" && IsBytes(psz)
    requires Lacks(chainId, '\n') && Lacks(cfg.networkId, '\n')
    requires Fit(cfg, FlagEvent("a", author, subject)) && Fit(cfg, StricterEvent("b", author))
    ensures var ops := FlagThenLower(author, subject);
            var c := Run(cfg, Blank(psz), ops, |ops|);
            var log := SaveEvents(c.events);
            var r := Open(cfg, log, SaveBlocks(Header(version, chainId, cfg.networkId), c.blocks), psz, now);
            var first := ModerationOf(policy, Chain(LoadEvents(log), [], psz)).policy;
            subject !in ModerationOf(policy, c).hidden && subject in ModerationOf(first, r).hidden
  {
    hide Run, Valid, HexHash, Fit, Ordered, FilesCarry, OneLine, Moderated, Restores, Seeded, Open, SaveEvents, SaveBlocks,
      Header, LoadEvents, LogSafe, Storable, FlagEvent, StricterEvent, Lacks, IsBytes;
    RunIs(cfg, psz, author, subject);
    RunIsCarried(cfg, psz, author, subject);
    StoreReplaysDiffer(cfg, policy, psz, author, subject);
    var ops := FlagThenLower(author, subject);
    var c := Run(cfg, Blank(psz), ops, |ops|);
    LogReadsBack(c);
    var bare := Chain(c.events, [], psz);
    FlagThenStricter(ViewOf(bare), policy, author, subject);
    FlagThenStricter(ViewOf(c), policy.(maxFlags := 1), author, subject);
    OpenRestores(cfg, Econ(cfg.h, 1), policy.(maxFlags := 1), c, version, chainId, psz, now);
  }

  lemma LogReadsBack(c: Chain)
    requires FilesCarry(c)
    ensures LoadEvents(SaveEvents(c.events)) == c.events
  {
    hide LogSafe, Storable, LoadEvents, SaveEvents;
    EventLogRoundTrip(c.events);
  }
}
