/** Text helpers: byte order on strings, cutting a text at a separator, joining the pieces, and files as ended lines. */
module Text {

  /** `std::string::operator<`: lexicographic order. */
  predicate LexLess(a: string, b: string) {
    if b == "" then false
    else if a == "" then true
    else a[0] < b[0] || (a[0] == b[0] && LexLess(a[1..], b[1..]))
  }

  lemma {:induction false} LexTransitive(a: string, b: string, c: string)
    requires LexLess(a, b) && LexLess(b, c)
    ensures LexLess(a, c)
  {
    if a != "" && a[0] == b[0] == c[0] {
      LexTransitive(a[1..], b[1..], c[1..]);
    }
  }

  lemma {:induction false} LexTotal(a: string, b: string)
    ensures LexLess(a, b) || LexLess(b, a) || a == b
    ensures !(LexLess(a, b) && LexLess(b, a))
    ensures LexLess(a, b) ==> a != b
  {
    if a != "" && b != "" && a[0] == b[0] {
      LexTotal(a[1..], b[1..]);
      assert a == [a[0]] + a[1..] && b == [b[0]] + b[1..];
    }
  }

  /** `parse_boolish`. */
  predicate IsYes(s: string) { s == "1" || s == "true" || s == "TRUE" || s == "yes" || s == "YES" }

  predicate Lacks(s: string, c: char) { forall i | 0 <= i < |s| :: s[i] != c }

  /** The pieces of `s` between occurrences of `sep`; always at least one piece. */
  function Split(s: string, sep: char): (parts: seq<string>)
    ensures |parts| >= 1
  {
    if s == "" then [""]
    else if s[|s| - 1] == sep then Split(s[..|s| - 1], sep) + [""]
    else
      var parts := Split(s[..|s| - 1], sep);
      parts[|parts| - 1 := parts[|parts| - 1] + [s[|s| - 1]]]
  }

  function Join(parts: seq<string>, sep: char): string {
    if parts == [] then ""
    else if |parts| == 1 then parts[0]
    else Join(parts[..|parts| - 1], sep) + [sep] + parts[|parts| - 1]
  }

  /** Every piece is free of the separator, and joining the pieces restores the text. */
  lemma {:induction false} JoinOfSplit(s: string, sep: char)
    ensures forall p | p in Split(s, sep) :: Lacks(p, sep)
    ensures Join(Split(s, sep), sep) == s
  {
    if s != "" {
      var front, last := s[..|s| - 1], s[|s| - 1];
      JoinOfSplit(front, sep);
      var parts := Split(front, sep);
      if last == sep {
        assert (parts + [""])[..|parts|] == parts;
      } else {
        var parts' := Split(s, sep);
        var p := parts[|parts| - 1];
        assert parts'[..|parts| - 1] == parts[..|parts| - 1];
        assert s == front + [last];
        assert p in parts && Lacks(p + [last], sep);
        forall q | q in parts' ensures Lacks(q, sep) {
          assert q == p + [last] || q in parts[..|parts| - 1];
        }
      }
    }
  }

  /** Appending separator-free text extends the last piece. */
  lemma {:induction false} SplitAppend(s: string, p: string, sep: char)
    requires Lacks(p, sep)
    ensures var parts := Split(s, sep); Split(s + p, sep) == parts[|parts| - 1 := parts[|parts| - 1] + p]
  {
    var parts := Split(s, sep);
    if p == "" {
      assert s + p == s && parts[|parts| - 1] + p == parts[|parts| - 1];
    } else {
      var q := p[..|p| - 1];
      SplitAppend(s, q, sep);
      assert (s + p)[..|s + p| - 1] == s + q;
      assert q + [p[|p| - 1]] == p;
      assert parts[|parts| - 1] + p == (parts[|parts| - 1] + q) + [p[|p| - 1]];
    }
  }

  lemma {:induction false} SplitPlain(p: string, sep: char)
    requires Lacks(p, sep)
    ensures Split(p, sep) == [p]
  {
    if p != "" {
      var front := p[..|p| - 1];
      SplitPlain(front, sep);
      assert front + [p[|p| - 1]] == p;
    }
  }

  lemma SplitSnoc(s: string, last: string, sep: char)
    requires Lacks(last, sep)
    ensures Split(s + [sep] + last, sep) == Split(s, sep) + [last]
  {
    var t := s + [sep];
    assert t[..|t| - 1] == s;
    SplitAppend(t, last, sep);
    assert "" + last == last;
  }

  /** Splitting undoes joining when no piece holds the separator. */
  lemma {:induction false} SplitOfJoin(parts: seq<string>, sep: char)
    requires parts != []
    requires forall p | p in parts :: Lacks(p, sep)
    ensures Split(Join(parts, sep), sep) == parts
  {
    hide Split, Lacks;
    var front, last := parts[..|parts| - 1], parts[|parts| - 1];
    if |parts| == 1 {
      SplitPlain(last, sep);
    } else {
      SplitOfJoin(front, sep);
      SplitSnoc(Join(front, sep), last, sep);
    }
  }

  /** A separator-free head is determined by the text it starts. */
  lemma HeadUnique(a: string, x: string, b: string, y: string, sep: char)
    requires Lacks(a, sep) && Lacks(b, sep)
    requires a + [sep] + x == b + [sep] + y
    ensures a == b && x == y
  {
    var s, t := a + [sep] + x, b + [sep] + y;
    HeadReaches(a, x, b, y, sep);
    HeadReaches(b, y, a, x, sep);
    assert a == s[..|a|] && b == t[..|b|];
    assert x == s[|a| + 1..] && y == t[|b| + 1..];
  }

  lemma HeadReaches(a: string, x: string, b: string, y: string, sep: char)
    requires Lacks(b, sep)
    requires a + [sep] + x == b + [sep] + y
    ensures |a| >= |b|
  {
    var t := b + [sep] + y;
    assert (a + [sep] + x)[|a|] == sep;
    assert forall i | 0 <= i < |b| :: t[i] == b[i] != sep;
  }

  // ----- lines

  /** The first `n` lines, each ended by a newline. */
  function EndedLines(lines: seq<string>, n: nat): string
    requires n <= |lines|
  {
    if n == 0 then "" else EndedLines(lines, n - 1) + lines[n - 1] + "\n"
  }

  lemma NoText(s: string)
    requires |s| == 0
    ensures forall sep :: |Split(s, sep)| == 1 && Split(s, sep)[0] == ""
  {
  }

  lemma NextLine(s: string, line: string)
    requires Lacks(line, '\n') && Split(s, '\n')[|Split(s, '\n')| - 1] == ""
    ensures var lines := Split(s, '\n'); Split(s + line + "\n", '\n') == lines[|lines| - 1 := line] + [""]
  {
    var t := s + line + "\n";
    SplitAppend(s, line, '\n');
    assert "" + line == line;
    assert t[..|t| - 1] == s + line && t[|t| - 1] == '\n';
  }

  /** Splitting a file at its newlines gives back its lines, and an empty piece after the last newline. */
  lemma {:induction false} SplitOfLines(lines: seq<string>, n: nat)
    requires n <= |lines| && forall line | line in lines :: Lacks(line, '\n')
    ensures Split(EndedLines(lines, n), '\n') == lines[..n] + [""]
  {
    hide Split, Lacks;
    if n > 0 {
      SplitOfLines(lines, n - 1);
      assert lines[n - 1] in lines;
      NextLine(EndedLines(lines, n - 1), lines[n - 1]);
    } else {
      NoText(EndedLines(lines, n));
    }
  }
}
