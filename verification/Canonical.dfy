/** Canonical payload text, written and read. */
module Canonical {
  import opened Text
  import opened Sorting

  type Pair = (string, string)

  // ----- trimming

  /** `std::isspace` in the C locale. */
  predicate IsSpace(c: char) { c == ' ' || '\t' <= c <= '\r' }

  /** `t` is `s` without the white space around it. */
  ghost predicate IsTrimmed(s: string, t: string) {
    exists i, j | 0 <= i <= j <= |s| ::
      && t == s[i..j]
      && (forall k | 0 <= k < i || j <= k < |s| :: IsSpace(s[k]))
      && (i < j ==> !IsSpace(s[i]) && !IsSpace(s[j - 1]))
  }

  function SkipSpaces(s: string, i: nat): (k: nat)
    requires i <= |s|
    ensures i <= k <= |s| && (forall j | i <= j < k :: IsSpace(s[j])) && (k < |s| ==> !IsSpace(s[k]))
    decreases |s| - i
  {
    if i < |s| && IsSpace(s[i]) then SkipSpaces(s, i + 1) else i
  }

  function DropSpaces(s: string, begin: nat, end: nat): (k: nat)
    requires begin <= end <= |s|
    ensures begin <= k <= end && (forall j | k <= j < end :: IsSpace(s[j])) && (begin < k ==> !IsSpace(s[k - 1]))
  {
    if begin < end && IsSpace(s[end - 1]) then DropSpaces(s, begin, end - 1) else end
  }

  function Trim(s: string): (t: string)
    ensures IsTrimmed(s, t)
  {
    var begin := SkipSpaces(s, 0);
    s[begin..DropSpaces(s, begin, |s|)]
  }

  method TrimCopy(value: string) returns (t: string)
    ensures t == Trim(value)
  {
    var begin := 0;
    while begin < |value| && IsSpace(value[begin])
      invariant begin <= |value| && SkipSpaces(value, begin) == SkipSpaces(value, 0)
    {
      begin := begin + 1;
    }
    var end := |value|;
    while end > begin && IsSpace(value[end - 1])
      invariant begin <= end <= |value| && DropSpaces(value, begin, end) == DropSpaces(value, begin, |value|)
    {
      end := end - 1;
    }
    t := value[begin..end];
  }

  // ----- writing

  function EscapeChar(c: char): string {
    if c == '\n' then "\\n" else if c == '\\' then "\\\\" else [c]
  }

  function Escape(value: string): string {
    if value == "" then "" else Escape(value[..|value| - 1]) + EscapeChar(value[|value| - 1])
  }

  function Line(field: Pair): string { field.0 + "=" + Escape(field.1) + "\n" }

  function Lines(fields: seq<Pair>): string {
    if fields == [] then "" else Lines(fields[..|fields| - 1]) + Line(fields[|fields| - 1])
  }

  function ByKey(): (Pair, Pair) -> bool { (a: Pair, b: Pair) => LexLess(a.0, b.0) }

  /** The text `canonical_join` returns. */
  function CanonicalText(fields: seq<Pair>): string { Lines(Sort(ByKey(), fields)) }

  method CanonicalJoin(fields: seq<Pair>) returns (payload: string)
    ensures payload == CanonicalText(fields)
  {
    var sorted := Sort(ByKey(), fields);
    payload := "";
    for i := 0 to |sorted|
      invariant payload == Lines(sorted[..i])
    {
      var (key, value) := sorted[i];
      payload := payload + key;
      payload := payload + "=";
      ghost var head := payload;
      for j := 0 to |value|
        invariant payload == head + Escape(value[..j])
      {
        EscapeNext(value, j);
        if value[j] == '\n' {
          payload := payload + "\\n";
        } else if value[j] == '\\' {
          payload := payload + "\\\\";
        } else {
          payload := payload + [value[j]];
        }
      }
      payload := payload + "\n";
      LinesNext(sorted, i);
    }
    assert sorted[..|sorted|] == sorted;
  }

  lemma EscapeNext(value: string, j: nat)
    requires j < |value|
    ensures Escape(value[..j + 1]) == Escape(value[..j]) + EscapeChar(value[j])
    ensures j + 1 == |value| ==> value[..j + 1] == value
  {
    assert value[..j + 1][..j] == value[..j];
  }

  lemma LinesNext(sorted: seq<Pair>, i: nat)
    requires i < |sorted|
    ensures var (key, value) := sorted[i];
            Lines(sorted[..i + 1]) == Lines(sorted[..i]) + key + "=" + Escape(value[..|value|]) + "\n"
  {
    var (key, value) := sorted[i];
    assert sorted[..i + 1][..i] == sorted[..i] && value[..|value|] == value;
    assert Lines(sorted[..i]) + (key + "=" + Escape(value) + "\n") ==
           Lines(sorted[..i]) + key + "=" + Escape(value) + "\n";
  }

  // ----- reading

  /** The reader's variables between two characters. */
  datatype Reader = Reader(parsed: map<string, string>, key: string, value: string, readingKey: bool, escaping: bool)

  const START := Reader(map[], "", "", true, false)

  /** `unordered_map::emplace`: the first value of a key wins. */
  function Emplace(m: map<string, string>, key: string, value: string): map<string, string> {
    if key in m then m else m[key := value]
  }

  function Read(r: Reader, c: char): Reader {
    if r.readingKey then
      if c == '=' then r.(readingKey := false)
      else if c == '\n' then r.(key := "")
      else r.(key := r.key + [c])
    else if r.escaping then
      r.(value := r.value + [if c == 'n' then '\n' else c], escaping := false)
    else if c == '\\' then
      r.(escaping := true)
    else if c == '\n' then
      Reader(if r.key != "" then Emplace(r.parsed, r.key, r.value) else r.parsed, "", "", true, false)
    else
      r.(value := r.value + [c])
  }

  function ReadAll(r: Reader, s: string): Reader {
    if s == "" then r else Read(ReadAll(r, s[..|s| - 1]), s[|s| - 1])
  }

  function Finish(r: Reader): map<string, string> {
    if !r.readingKey && r.key != "" then Emplace(r.parsed, r.key, r.value) else r.parsed
  }

  /** The map `parse_canonical_map` returns. */
  function ParseMap(payload: string): map<string, string> { Finish(ReadAll(START, payload)) }

  method ParseCanonicalMap(payload: string) returns (parsed: map<string, string>)
    ensures parsed == ParseMap(payload)
  {
    parsed := map[];
    var key, value := "", "";
    var readingKey, escaping := true, false;
    for i := 0 to |payload|
      invariant Reader(parsed, key, value, readingKey, escaping) == ReadAll(START, payload[..i])
    {
      var c := payload[i];
      assert payload[..i + 1][..i] == payload[..i];
      if readingKey {
        if c == '=' {
          readingKey := false;
          continue;
        }
        if c == '\n' {
          key := "";
          continue;
        }
        key := key + [c];
        continue;
      }
      if escaping {
        if c == 'n' {
          value := value + "\n";
        } else {
          value := value + [c];
        }
        escaping := false;
        continue;
      }
      if c == '\\' {
        escaping := true;
        continue;
      }
      if c == '\n' {
        if key != "" {
          parsed := Emplace(parsed, key, value);
        }
        key, value, readingKey := "", "", true;
        continue;
      }
      value := value + [c];
    }
    assert payload[..|payload|] == payload;
    if !readingKey && key != "" {
      parsed := Emplace(parsed, key, value);
    }
  }

  // ----- round trip

  predicate KeyOk(key: string) { key != "" && Lacks(key, '=') && Lacks(key, '\n') }

  predicate DistinctKeys(fields: seq<Pair>) {
    forall i, j | 0 <= i < j < |fields| :: fields[i].0 != fields[j].0
  }

  predicate KeysOk(fields: seq<Pair>) { forall f | f in fields :: KeyOk(f.0) }

  function MapOf(fields: seq<Pair>): map<string, string> {
    map f | f in fields :: f.0 := Lookup(fields, f.0)
  }

  /** The value of the first field with this key. */
  function Lookup(fields: seq<Pair>, key: string): string {
    if fields == [] then ""
    else if fields[0].0 == key then fields[0].1
    else Lookup(fields[1..], key)
  }

  lemma {:induction false} ReadAllSplits(r: Reader, s: string, t: string)
    ensures ReadAll(r, s + t) == ReadAll(ReadAll(r, s), t)
  {
    if t == "" {
      assert s + t == s;
    } else {
      var front := t[..|t| - 1];
      ReadAllSplits(r, s, front);
      assert (s + t)[..|s + t| - 1] == s + front;
    }
  }

  lemma {:induction false} ReadsKey(r: Reader, key: string)
    requires r.readingKey && Lacks(key, '=') && Lacks(key, '\n')
    ensures ReadAll(r, key) == r.(key := r.key + key)
  {
    if key == "" {
      assert r.key + key == r.key;
    } else {
      var front := key[..|key| - 1];
      ReadsKey(r, front);
      assert r.key + key == (r.key + front) + [key[|key| - 1]];
    }
  }

  lemma ReadsOne(r: Reader, c: char)
    ensures ReadAll(r, [c]) == Read(r, c)
  {
    assert [c][..0] == "";
  }

  lemma ReadsEscape(r: Reader, c: char)
    requires !r.readingKey && !r.escaping
    ensures ReadAll(r, EscapeChar(c)) == r.(value := r.value + [c])
  {
    var text := EscapeChar(c);
    if |text| == 2 {
      ReadAllSplits(r, [text[0]], [text[1]]);
      assert text == [text[0]] + [text[1]];
      ReadsOne(r, text[0]);
      ReadsOne(r.(escaping := true), text[1]);
    } else {
      ReadsOne(r, c);
    }
  }

  lemma {:induction false} ReadsValue(r: Reader, value: string)
    requires !r.readingKey && !r.escaping
    ensures ReadAll(r, Escape(value)) == r.(value := r.value + value)
  {
    hide Read, EscapeChar;
    if value == "" {
      assert r.value + value == r.value;
    } else {
      var front, c := value[..|value| - 1], value[|value| - 1];
      ReadsValue(r, front);
      ReadAllSplits(r, Escape(front), EscapeChar(c));
      ReadsEscape(r.(value := r.value + front), c);
      assert r.value + value == (r.value + front) + [c];
    }
  }

  lemma ReadsHead(r: Reader, key: string)
    requires r == Reader(r.parsed, "", "", true, false) && KeyOk(key)
    ensures ReadAll(r, key + "=") == r.(key := key, readingKey := false)
  {
    ReadsKey(r, key);
    assert "" + key == key;
    ReadAllSplits(r, key, "=");
    ReadsOne(r.(key := key), '=');
  }

  lemma ReadsLine(r: Reader, field: Pair)
    requires r == Reader(r.parsed, "", "", true, false) && KeyOk(field.0)
    ensures ReadAll(r, Line(field)) == r.(parsed := Emplace(r.parsed, field.0, field.1))
  {
    var (key, value) := field;
    var atValue := r.(key := key, readingKey := false);
    ReadsHead(r, key);
    ReadsValue(atValue, value);
    assert "" + value == value;
    ReadAllSplits(r, key + "=", Escape(value));
    ReadAllSplits(r, key + "=" + Escape(value), "\n");
    ReadsOne(atValue.(value := value), '\n');
  }

  lemma {:induction false} ReadsLines(fields: seq<Pair>)
    requires DistinctKeys(fields) && KeysOk(fields)
    ensures ReadAll(START, Lines(fields)) == START.(parsed := MapOf(fields))
  {
    if fields == [] {
      assert MapOf(fields) == map[];
    } else {
      var front, last := fields[..|fields| - 1], fields[|fields| - 1];
      assert last in fields && forall f | f in front :: f in fields;
      assert front + [last] == fields;
      ReadsLines(front);
      MapOfSnoc(front, last);
      ReadsNext(front, last);
    }
  }

  lemma ReadsNext(front: seq<Pair>, last: Pair)
    requires ReadAll(START, Lines(front)) == START.(parsed := MapOf(front))
    requires KeyOk(last.0) && last.0 !in MapOf(front)
    ensures ReadAll(START, Lines(front + [last])) == START.(parsed := MapOf(front)[last.0 := last.1])
  {
    assert (front + [last])[..|front|] == front;
    ReadAllSplits(START, Lines(front), Line(last));
    ReadsLine(START.(parsed := MapOf(front)), last);
  }

  lemma MapOfSnoc(front: seq<Pair>, last: Pair)
    requires DistinctKeys(front + [last])
    ensures last.0 !in MapOf(front)
    ensures MapOf(front + [last]) == MapOf(front)[last.0 := last.1]
  {
    var fields := front + [last];
    assert fields[|front|] == last;
    assert forall i | 0 <= i < |front| :: fields[i] == front[i];
    forall f | f in front ensures f.0 != last.0 {
      var i :| 0 <= i < |front| && front[i] == f;
    }
    forall i | 0 <= i < |fields| ensures Lookup(fields, fields[i].0) == fields[i].1 {
      LookupAt(fields, i);
    }
    forall i | 0 <= i < |front| ensures Lookup(front, front[i].0) == front[i].1 {
      LookupAt(front, i);
    }
    var m := MapOf(front)[last.0 := last.1];
    forall k | k in MapOf(fields) ensures k in m && m[k] == MapOf(fields)[k] {
      var f :| f in fields && f.0 == k;
      var i :| 0 <= i < |fields| && fields[i] == f;
    }
    forall k | k in m ensures k in MapOf(fields) {
      if k != last.0 {
        var f :| f in front && f.0 == k;
        assert f in fields;
      } else {
        assert last in fields;
      }
    }
  }

  lemma {:induction false} LookupAt(fields: seq<Pair>, i: nat)
    requires DistinctKeys(fields) && i < |fields|
    ensures Lookup(fields, fields[i].0) == fields[i].1
  {
    if i > 0 {
      LookupAt(fields[1..], i - 1);
    }
  }

  lemma ByKeyTotal(fields: seq<Pair>)
    requires DistinctKeys(fields)
    ensures TotalOn(ByKey(), fields)
  {
    var less := ByKey();
    forall x, y | x in fields && y in fields ensures x == y || less(x, y) || less(y, x) {
      LexTotal(x.0, y.0);
      var i :| 0 <= i < |fields| && fields[i] == x;
      var j :| 0 <= j < |fields| && fields[j] == y;
    }
    forall x | x in fields ensures !less(x, x) {
      LexTotal(x.0, x.0);
    }
    forall x, y, z | x in fields && y in fields && z in fields && less(x, y) && less(y, z) ensures less(x, z) {
      LexTransitive(x.0, y.0, z.0);
    }
  }

  /** A bag of fields fixes its map, and distinctness of keys is a matter of the bag. */
  lemma SameFields(a: seq<Pair>, b: seq<Pair>)
    requires DistinctKeys(a) && multiset(a) == multiset(b)
    ensures DistinctKeys(b) && MapOf(a) == MapOf(b)
  {
    SameBag(a, b);
    forall i, j | 0 <= i < j < |b| ensures b[i].0 != b[j].0 {
      if b[i].0 == b[j].0 {
        assert b[i] in a && b[j] in a;
        var p :| 0 <= p < |a| && a[p] == b[i];
        var q :| 0 <= q < |a| && a[q] == b[j];
        assert p == q;
        TwiceInBag(b, i, j);
        OnceInBag(a, p);
      }
    }
    forall f | f in a ensures Lookup(a, f.0) == f.1 == Lookup(b, f.0) {
      var i :| 0 <= i < |a| && a[i] == f;
      LookupAt(a, i);
      assert f in b;
      var j :| 0 <= j < |b| && b[j] == f;
      LookupAt(b, j);
    }
    assert forall k :: k in MapOf(a) <==> k in MapOf(b);
  }

  lemma TwiceInBag(s: seq<Pair>, i: nat, j: nat)
    requires i < j < |s| && s[i] == s[j]
    ensures multiset(s)[s[i]] >= 2
  {
    assert s == s[..j] + [s[j]] + s[j + 1..];
    assert s[i] in s[..j];
  }

  lemma OnceInBag(s: seq<Pair>, i: nat)
    requires DistinctKeys(s) && i < |s|
    ensures multiset(s)[s[i]] == 1
  {
    assert s == s[..i] + [s[i]] + s[i + 1..];
    assert s[i] !in s[..i] && s[i] !in s[i + 1..];
  }

  predicate ReaderOk(r: Reader) {
    && (forall k | k in r.parsed :: KeyOk(k))
    && Lacks(r.key, '=') && Lacks(r.key, '\n')
  }

  lemma {:induction false} ReadAllOk(s: string)
    ensures ReaderOk(ReadAll(START, s))
  {
    if s != "" {
      ReadAllOk(s[..|s| - 1]);
    }
  }

  /** Whatever text comes in, the parsed keys are non-empty and free of `=` and newline. */
  lemma ParsedKeysOk(payload: string)
    ensures forall k | k in ParseMap(payload) :: KeyOk(k)
  {
    ReadAllOk(payload);
  }

  /** Parsing undoes joining exactly for well-formed keys; values are arbitrary. */
  lemma RoundTrip(fields: seq<Pair>)
    requires DistinctKeys(fields)
    ensures ParseMap(CanonicalText(fields)) == MapOf(fields) <==> KeysOk(fields)
  {
    var sorted := Sort(ByKey(), fields);
    SortBag(ByKey(), fields);
    SameFields(fields, sorted);
    if KeysOk(fields) {
      ReadsLines(sorted);
    }
    if ParseMap(CanonicalText(fields)) == MapOf(fields) {
      ParsedKeysOk(CanonicalText(fields));
      assert forall f | f in fields :: f.0 in MapOf(fields);
    }
  }

  /** The text is canonical: it depends on the bag of fields only, and equal texts carry equal maps. */
  lemma TextIsCanonical(a: seq<Pair>, b: seq<Pair>)
    requires DistinctKeys(a) && DistinctKeys(b) && KeysOk(a) && KeysOk(b)
    ensures multiset(a) == multiset(b) ==> CanonicalText(a) == CanonicalText(b)
    ensures CanonicalText(a) == CanonicalText(b) ==> MapOf(a) == MapOf(b)
  {
    RoundTrip(a);
    RoundTrip(b);
    if multiset(a) == multiset(b) {
      ByKeyTotal(a);
      SortIgnoresArrival(ByKey(), a, b);
    }
  }
}
