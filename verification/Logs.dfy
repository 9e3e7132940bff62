/** The event log, written and read back. */
module Logs {
  import opened Types
  import opened Text
  import opened Decimal

  // ----- hex

  /** A C++ string holds bytes. */
  predicate IsBytes(s: string) { forall i | 0 <= i < |s| :: s[i] as int < 256 }

  function HexChar(n: nat): char
    requires n < 16
  {
    if n < 10 then '0' + n as char else 'a' + (n - 10) as char
  }

  /** `from_hex_digit`. */
  function HexValue(c: char): (v: int)
    ensures -1 <= v < 16
  {
    if '0' <= c <= '9' then c as int - '0' as int
    else if 'a' <= c <= 'f' then c as int - 'a' as int + 10
    else if 'A' <= c <= 'F' then c as int - 'A' as int + 10
    else -1
  }

  function HexPair(c: char): (s: string)
    ensures |s| == 2
  {
    [HexChar(c as int % 256 / 16), HexChar(c as int % 16)]
  }

  /** Hex of the first `n` bytes. */
  function HexText(s: string, n: nat): (t: string)
    requires n <= |s|
    ensures |t| == 2 * n
  {
    if n == 0 then "" else HexText(s, n - 1) + HexPair(s[n - 1])
  }

  function ToHex(s: string): string { HexText(s, |s|) }

  /** The first `n` bytes behind a hex text, unless some digit is bad. */
  function Unhex(t: string, n: nat): Option<string>
    requires 2 * n <= |t|
  {
    if n == 0 then Some("")
    else
      var hi, lo := HexValue(t[2 * n - 2]), HexValue(t[2 * n - 1]);
      var front := Unhex(t, n - 1);
      if front.None? || hi < 0 || lo < 0 then None else Some(front.value + [(16 * hi + lo) as char])
  }

  /** `from_hex`: odd length or a bad digit gives the empty text. */
  function FromHex(t: string): string {
    if |t| % 2 != 0 then "" else if Unhex(t, |t| / 2).None? then "" else Unhex(t, |t| / 2).value
  }

  method HexOf(bytes: string) returns (out: string)
    requires IsBytes(bytes)
    ensures out == ToHex(bytes)
  {
    hide HexChar, HexText, IsBytes;
    out := "";
    NoHex(bytes);
    for i := 0 to |bytes|
      invariant out == HexText(bytes, i)
    {
      HexStep(bytes, i);
      var c := bytes[i] as int;
      out := out + [HexChar(c / 16)] + [HexChar(c % 16)];
    }
  }

  lemma NoHex(s: string)
    ensures HexText(s, 0) == ""
  {
  }

  lemma HexStep(s: string, i: nat)
    requires IsBytes(s) && i < |s|
    ensures var c := s[i] as int;
            c < 256 && HexText(s, i + 1) == HexText(s, i) + [HexChar(c / 16)] + [HexChar(c % 16)]
  {
    hide HexChar;
    var c := s[i] as int;
    assert c % 256 == c;
    assert HexPair(s[i]) == [HexChar(c / 16)] + [HexChar(c % 16)];
  }

  method BytesOfHex(hex: string) returns (out: string)
    ensures out == FromHex(hex)
  {
    if |hex| % 2 != 0 {
      return "";
    }
    out := "";
    for i := 0 to |hex| / 2
      invariant Unhex(hex, i) == Some(out)
      invariant |hex| % 2 == 0
    {
      var hi := HexValue(hex[2 * i]);
      var lo := HexValue(hex[2 * i + 1]);
      if hi < 0 || lo < 0 {
        BadDigit(hex, i + 1, |hex| / 2);
        return "";
      }
      out := out + [(16 * hi + lo) as char];
    }
  }

  lemma {:induction false} BadDigit(t: string, k: nat, n: nat)
    requires k <= n && 2 * n <= |t| && Unhex(t, k).None?
    ensures Unhex(t, n).None?
  {
    if k < n {
      BadDigit(t, k, n - 1);
    }
  }

  lemma HexDigitBack(n: nat)
    requires n < 16
    ensures HexValue(HexChar(n)) == n
  {
  }

  lemma {:induction false} HexAt(s: string, n: nat, k: nat)
    requires k < n <= |s|
    ensures HexText(s, n)[2 * k] == HexPair(s[k])[0] && HexText(s, n)[2 * k + 1] == HexPair(s[k])[1]
  {
    hide HexPair;
    if k < n - 1 {
      HexAt(s, n - 1, k);
    }
  }

  lemma PairBack(c: char)
    requires c as int < 256
    ensures var hi, lo := HexValue(HexPair(c)[0]), HexValue(HexPair(c)[1]);
            hi >= 0 && lo >= 0 && 16 * hi + lo == c as int
  {
    hide HexChar, HexValue;
    var n := c as int;
    assert n % 256 == n;
    HexDigitBack(n / 16);
    HexDigitBack(n % 16);
  }

  lemma {:induction false} UnhexOfHex(s: string, n: nat)
    requires IsBytes(s) && n <= |s|
    ensures Unhex(ToHex(s), n) == Some(s[..n])
  {
    hide HexPair, HexValue, HexText;
    if n > 0 {
      PairBack(s[n - 1]);
      HexAt(s, |s|, n - 1);
      UnhexOfHex(s, n - 1);
      assert s[..n] == s[..n - 1] + [s[n - 1]];
    }
  }

  lemma {:induction false} UnhexBytes(t: string, n: nat)
    requires 2 * n <= |t|
    ensures Unhex(t, n).Some? ==> IsBytes(Unhex(t, n).value)
  {
    if n > 0 {
      UnhexBytes(t, n - 1);
    }
  }

  /** Reading hex back gives the bytes, and reading any hex gives bytes. */
  lemma HexRoundTrip(s: string)
    requires IsBytes(s)
    ensures FromHex(ToHex(s)) == s
  {
    assert s[..|s|] == s;
    UnhexOfHex(s, |s|);
  }

  lemma FromHexBytes(t: string)
    ensures IsBytes(FromHex(t))
  {
    if |t| % 2 == 0 {
      UnhexBytes(t, |t| / 2);
    }
  }

  lemma {:induction false} HexLacks(s: string, n: nat, c: char)
    requires n <= |s| && HexValue(c) < 0
    ensures Lacks(HexText(s, n), c)
  {
    if n > 0 {
      HexLacks(s, n - 1, c);
      HexDigitBack(s[n - 1] as int % 256 / 16);
      HexDigitBack(s[n - 1] as int % 16);
    }
  }

  // ----- kinds

  function KindText(kind: EventKind): string {
    match kind
    case RecipeCreated => "RecipeCreated"
    case ThreadCreated => "ThreadCreated"
    case ReplyCreated => "ReplyCreated"
    case ReviewAdded => "ReviewAdded"
    case ThumbsUpAdded => "ThumbsUpAdded"
    case BlockRewardClaimed => "BlockRewardClaimed"
    case RewardTransferred => "RewardTransferred"
    case ProfileUpdated => "ProfileUpdated"
    case KeyRotated => "KeyRotated"
    case ModeratorAdded => "ModeratorAdded"
    case ModeratorRemoved => "ModeratorRemoved"
    case ContentFlagged => "ContentFlagged"
    case ContentHidden => "ContentHidden"
    case ContentUnhidden => "ContentUnhidden"
    case CoreTopicPinned => "CoreTopicPinned"
    case CoreTopicUnpinned => "CoreTopicUnpinned"
    case PolicyUpdated => "PolicyUpdated"
  }

  /** Unknown text reads as `RecipeCreated`. */
  function KindOf(text: string): EventKind {
    if text == "ThreadCreated" then ThreadCreated
    else if text == "ReplyCreated" then ReplyCreated
    else if text == "ReviewAdded" then ReviewAdded
    else if text == "ThumbsUpAdded" then ThumbsUpAdded
    else if text == "BlockRewardClaimed" then BlockRewardClaimed
    else if text == "RewardTransferred" then RewardTransferred
    else if text == "ProfileUpdated" then ProfileUpdated
    else if text == "KeyRotated" then KeyRotated
    else if text == "ModeratorAdded" then ModeratorAdded
    else if text == "ModeratorRemoved" then ModeratorRemoved
    else if text == "ContentFlagged" then ContentFlagged
    else if text == "ContentHidden" then ContentHidden
    else if text == "ContentUnhidden" then ContentUnhidden
    else if text == "CoreTopicPinned" then CoreTopicPinned
    else if text == "CoreTopicUnpinned" then CoreTopicUnpinned
    else if text == "PolicyUpdated" then PolicyUpdated
    else RecipeCreated
  }

  predicate Letters(s: string) { forall i | 0 <= i < |s| :: 'A' <= s[i] <= 'z' }

  lemma PostKinds(kind: EventKind)
    requires IsPostKind(kind)
    ensures KindOf(KindText(kind)) == kind
  {
  }

  lemma PersonKinds(kind: EventKind)
    requires kind.ProfileUpdated? || kind.KeyRotated? || kind.ModeratorAdded?
    ensures KindOf(KindText(kind)) == kind
  {
  }

  lemma ActionKinds(kind: EventKind)
    requires kind.ModeratorRemoved? || kind.PolicyUpdated? || kind.BlockRewardClaimed?
    ensures KindOf(KindText(kind)) == kind
  {
  }

  lemma ContentKinds(kind: EventKind)
    requires kind.ContentFlagged? || kind.ContentHidden? || kind.ContentUnhidden?
    ensures KindOf(KindText(kind)) == kind
  {
  }

  lemma TopicKinds(kind: EventKind)
    requires kind.CoreTopicPinned? || kind.CoreTopicUnpinned? || kind.RewardTransferred?
    ensures KindOf(KindText(kind)) == kind
  {
  }

  lemma PostLetters(kind: EventKind)
    requires IsPostKind(kind)
    ensures Letters(KindText(kind))
  {
    hide KindOf;
  }

  lemma ModerationLetters(kind: EventKind)
    requires IsModerationKind(kind)
    ensures Letters(KindText(kind))
  {
    hide KindOf;
  }

  lemma OtherLetters(kind: EventKind)
    requires !IsPostKind(kind) && !IsModerationKind(kind)
    ensures Letters(KindText(kind))
  {
    hide KindOf;
  }

  /** All seventeen kinds read back as written, and their names fit into one field of one line. */
  lemma KindRoundTrip(kind: EventKind)
    ensures KindOf(KindText(kind)) == kind && Lacks(KindText(kind), '\t') && Lacks(KindText(kind), '\n')
  {
    hide KindOf, KindText;
    assert Letters(KindText(kind)) by {
      if IsPostKind(kind) {
        PostLetters(kind);
      } else if IsModerationKind(kind) {
        ModerationLetters(kind);
      } else {
        OtherLetters(kind);
      }
    }
    if IsPostKind(kind) {
      PostKinds(kind);
    } else if kind.CoreTopicPinned? || kind.CoreTopicUnpinned? || kind.RewardTransferred? {
      TopicKinds(kind);
    } else if kind.ContentFlagged? || kind.ContentHidden? || kind.ContentUnhidden? {
      ContentKinds(kind);
    } else if kind.ModeratorRemoved? || kind.PolicyUpdated? || kind.BlockRewardClaimed? {
      ActionKinds(kind);
    } else {
      PersonKinds(kind);
    }
  }

  // ----- event lines

  function EventFields(e: Event): (fields: seq<string>)
    ensures |fields| == 6
  {
    [e.id, KindText(e.kind), e.author, IntText(e.ts), ToHex(e.payload), e.signature]
  }

  /** `serialize_event_line` without its newline. */
  function EventLine(e: Event): string { Join(EventFields(e), '\t') }

  function EventOf(fields: seq<string>): Option<Event>
    requires |fields| == 6
  {
    var ts := ParseI64(fields[3]);
    var e := Event(fields[0], KindOf(fields[1]), fields[2], if ts.Some? then ts.value else 0, FromHex(fields[4]), fields[5]);
    if ts.None? || e.id == "" || e.payload == "" then None else Some(e)
  }

  /** `parse_event_line`. */
  function ParseEvent(line: string): Option<Event> {
    var fields := Split(line, '\t');
    if |fields| != 6 then None else EventOf(fields)
  }

  method ParseEventLine(line: string) returns (r: Option<Event>)
    ensures r == ParseEvent(line)
  {
    hide EventOf, Split;
    var fields: seq<string> := [];
    var start := 0;
    NoText(line[..0]);
    for i := 0 to |line|
      invariant start <= i && |fields| <= 5
      invariant Split(line[..i], '\t') == fields + [line[start..i]]
    {
      NextPiece(line, fields, start, i, '\t');
      if line[i] == '\t' {
        if |fields| == 5 {
          TooManyPieces(line, i + 1, '\t');
          return None;
        }
        fields := fields + [line[start..i]];
        start := i + 1;
      }
    }
    assert line[..|line|] == line;
    fields := fields + [line[start..]];
    if |fields| != 6 {
      return None;
    }
    return EventOf(fields);
  }

  lemma TooManyPieces(s: string, i: nat, sep: char)
    requires i <= |s|
    ensures |Split(s, sep)| >= |Split(s[..i], sep)|
  {
    hide Split;
    MorePieces(s, i, |s|, sep);
    assert s[..|s|] == s;
  }

  /** One step of a field scan: the pieces so far and the piece under way. */
  lemma NextPiece(s: string, fields: seq<string>, start: nat, i: nat, sep: char)
    requires start <= i < |s| && Split(s[..i], sep) == fields + [s[start..i]]
    ensures s[i] == sep ==> Split(s[..i + 1], sep) == fields + [s[start..i]] + [s[i + 1..i + 1]]
    ensures s[i] != sep ==> Split(s[..i + 1], sep) == fields + [s[start..i + 1]]
  {
    hide Split;
    SplitNext(s, i, sep);
    assert s[start..i] + [s[i]] == s[start..i + 1];
    assert s[i + 1..i + 1] == "";
  }

  lemma SplitNext(s: string, i: nat, sep: char)
    requires i < |s|
    ensures var parts := Split(s[..i], sep);
            Split(s[..i + 1], sep) ==
              if s[i] == sep then parts + [""] else parts[|parts| - 1 := parts[|parts| - 1] + [s[i]]]
  {
    assert s[..i + 1][..i] == s[..i];
  }

  lemma {:induction false} MorePieces(s: string, i: nat, j: nat, sep: char)
    requires i <= j <= |s|
    ensures |Split(s[..i], sep)| <= |Split(s[..j], sep)|
  {
    if i < j {
      MorePieces(s, i, j - 1, sep);
      SplitNext(s, j - 1, sep);
    }
  }

  /** What the log can carry in one line. */
  predicate LineSafe(e: Event) {
    e.id != "" && e.payload != "" && Lacks(e.id, '\t') && Lacks(e.author, '\t') && Lacks(e.signature, '\t')
  }

  /** What a C++ event can hold at all. */
  predicate Storable(e: Event) { IsI64(e.ts) && IsBytes(e.payload) }

  /** A written event line reads back as the event exactly when the event is safe for a line. */
  lemma EventLineRoundTrip(e: Event)
    requires Storable(e)
    ensures ParseEvent(EventLine(e)) == Some(e) <==> LineSafe(e)
  {
    hide KindText, KindOf, ToHex, FromHex;
    if LineSafe(e) {
      SafeFields(e);
      SplitOfJoin(EventFields(e), '\t');
      KindRoundTrip(e.kind);
      ParseI64OfText(e.ts);
      HexRoundTrip(e.payload);
    }
    if ParseEvent(EventLine(e)) == Some(e) {
      ParsedLineSafe(EventLine(e));
    }
  }

  lemma SafeFields(e: Event)
    requires LineSafe(e)
    ensures forall f | f in EventFields(e) :: Lacks(f, '\t')
  {
    hide KindText, ToHex, IntText, HexText;
    KindRoundTrip(e.kind);
    IntTextLacks(e.ts, '\t');
    assert Lacks(ToHex(e.payload), '\t') by { PayloadLacks(e.payload, '\t'); }
  }

  lemma PayloadLacks(s: string, c: char)
    requires HexValue(c) < 0
    ensures Lacks(ToHex(s), c)
  {
    HexLacks(s, |s|, c);
  }

  /** Whatever line parses, the event that comes out is safe and storable. */
  lemma ParsedLineSafe(line: string)
    ensures ParseEvent(line).Some? ==> LineSafe(ParseEvent(line).value) && Storable(ParseEvent(line).value)
  {
    hide KindOf, FromHex;
    JoinOfSplit(line, '\t');
    var fields := Split(line, '\t');
    if |fields| == 6 {
      assert fields[0] in fields && fields[2] in fields && fields[5] in fields;
      FromHexBytes(fields[4]);
    }
  }

  // ----- the event log

  function EventLines(events: seq<Event>, n: nat): (lines: seq<string>)
    requires n <= |events|
    ensures |lines| == n && forall i | 0 <= i < n :: lines[i] == EventLine(events[i])
  {
    if n == 0 then [] else EventLines(events, n - 1) + [EventLine(events[n - 1])]
  }

  /** `persist_event_log`. */
  function SaveEvents(events: seq<Event>): string { EndedLines(EventLines(events, |events|), |events|) }

  /** Empty lines and comments carry no event. */
  function LoadLine(line: string): Option<Event> { if line == "" || line[0] == '#' then None else ParseEvent(line) }

  function LoadUpTo(lines: seq<string>, n: nat): seq<Event>
    requires n <= |lines|
  {
    if n == 0 then []
    else
      var e := LoadLine(lines[n - 1]);
      if e.None? then LoadUpTo(lines, n - 1) else LoadUpTo(lines, n - 1) + [e.value]
  }

  /** `load_event_log`. */
  function LoadEvents(text: string): seq<Event> {
    var lines := Split(text, '\n');
    LoadUpTo(lines, |lines|)
  }

  method LoadEventLog(text: string) returns (events: seq<Event>)
    ensures events == LoadEvents(text)
  {
    hide ParseEvent, Split;
    var lines := Split(text, '\n');
    events := [];
    for i := 0 to |lines|
      invariant events == LoadUpTo(lines, i)
    {
      if lines[i] == "" || lines[i][0] == '#' {
        continue;
      }
      var e := ParseEventLine(lines[i]);
      if e.Some? {
        events := events + [e.value];
      }
    }
  }

  /** What the log file can carry. */
  predicate LogSafe(e: Event) {
    LineSafe(e) && e.id[0] != '#' && Lacks(e.id, '\n') && Lacks(e.author, '\n') && Lacks(e.signature, '\n')
  }

  lemma {:induction false} JoinLacks(parts: seq<string>, sep: char, c: char)
    requires c != sep
    ensures Lacks(Join(parts, sep), c) <==> forall p | p in parts :: Lacks(p, c)
  {
    if |parts| == 1 {
      assert parts[0] in parts;
    } else if parts != [] {
      var front, last := parts[..|parts| - 1], parts[|parts| - 1];
      JoinLacks(front, sep, c);
      ConcatLacks(Join(front, sep), sep, last, c);
      assert forall p :: p in parts <==> p in front || p == last;
    }
  }

  lemma ConcatLacks(s: string, sep: char, last: string, c: char)
    requires c != sep
    ensures Lacks(s + [sep] + last, c) <==> Lacks(s, c) && Lacks(last, c)
  {
    var t := s + [sep] + last;
    assert s == t[..|s|] && last == t[|s| + 1..];
  }

  lemma {:induction false} JoinFirst(parts: seq<string>, sep: char)
    requires parts != [] && parts[0] != ""
    ensures Join(parts, sep) != "" && Join(parts, sep)[0] == parts[0][0]
  {
    if |parts| > 1 {
      JoinFirst(parts[..|parts| - 1], sep);
    }
  }

  lemma SafeLine(e: Event)
    requires LogSafe(e)
    ensures EventLine(e) != "" && EventLine(e)[0] != '#' && Lacks(EventLine(e), '\n')
  {
    hide KindText, ToHex, IntText, Join;
    JoinFirst(EventFields(e), '\t');
    KindRoundTrip(e.kind);
    IntTextLacks(e.ts, '\n');
    PayloadLacks(e.payload, '\n');
    JoinLacks(EventFields(e), '\t', '\n');
  }

  lemma {:induction false} LoadedLines(events: seq<Event>, lines: seq<string>, n: nat)
    requires n <= |events| && n <= |lines| && forall e | e in events :: LogSafe(e) && Storable(e)
    requires forall i | 0 <= i < n :: lines[i] == EventLine(events[i])
    ensures LoadUpTo(lines, n) == events[..n]
  {
    hide EventLine, ParseEvent, Storable;
    if n > 0 {
      LoadedLines(events, lines, n - 1);
      assert events[n - 1] in events;
      SafeLine(events[n - 1]);
      EventLineRoundTrip(events[n - 1]);
      assert events[..n] == events[..n - 1] + [events[n - 1]];
    }
  }

  lemma LoadedSafe(line: string)
    requires Lacks(line, '\n') && LoadLine(line).Some?
    ensures LogSafe(LoadLine(line).value)
  {
    hide KindOf, FromHex;
    ParsedLineSafe(line);
    JoinOfSplit(line, '\t');
    var fields := Split(line, '\t');
    JoinLacks(fields, '\t', '\n');
    JoinFirst(fields, '\t');
    assert fields[0] in fields && fields[2] in fields && fields[5] in fields;
  }

  lemma {:induction false} AllLoadedSafe(lines: seq<string>, n: nat)
    requires n <= |lines| && forall l | l in lines :: Lacks(l, '\n')
    ensures forall e | e in LoadUpTo(lines, n) :: LogSafe(e)
  {
    hide LoadLine, LogSafe, Lacks;
    if n > 0 {
      AllLoadedSafe(lines, n - 1);
      assert lines[n - 1] in lines;
      if LoadLine(lines[n - 1]).Some? {
        LoadedSafe(lines[n - 1]);
      }
    }
  }

  /** A saved event log loads as the same events, in order, exactly when every event is safe for the file. */
  lemma EventLogRoundTrip(events: seq<Event>)
    requires forall e | e in events :: Storable(e)
    ensures LoadEvents(SaveEvents(events)) == events <==> forall e | e in events :: LogSafe(e)
  {
    hide LogSafe, Storable, EventLine, EndedLines, Split, ParseEvent, Lacks;
    var saved := EventLines(events, |events|);
    var lines := Split(SaveEvents(events), '\n');
    if forall e | e in events :: LogSafe(e) {
      forall line | line in saved ensures Lacks(line, '\n') {
        var i :| 0 <= i < |saved| && saved[i] == line;
        assert events[i] in events;
        SafeLine(events[i]);
      }
      SplitOfLines(saved, |saved|);
      assert saved[..|saved|] == saved;
      LoadedLines(events, lines, |events|);
      assert events[..|events|] == events;
      assert lines[|events|] == "" && LoadLine(lines[|events|]).None?;
    }
    JoinOfSplit(SaveEvents(events), '\n');
    AllLoadedSafe(lines, |lines|);
  }
}
