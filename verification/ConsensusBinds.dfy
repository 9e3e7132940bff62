/** What the consensus hash says about a log. */
module ConsensusBinds {
  import opened Types
  import opened Text
  import opened Sorting
  import opened Merkle
  import opened Sha256
  import opened Replay
  import opened Binding

  /** The ids with their payloads: what the consensus hash covers of a log. */
  function Contents(events: seq<Event>, n: nat): (pairs: seq<(string, string)>)
    requires n <= |events|
    ensures |pairs| == n && forall i | 0 <= i < n :: pairs[i] == (events[i].id, events[i].payload)
  {
    if n == 0 then [] else Contents(events, n - 1) + [(events[n - 1].id, events[n - 1].payload)]
  }

  function Lines(h: HashFn, events: seq<Event>): seq<string> { Sort(ByText(), Chunks(h, events, |events|)) }

  /** The text behind the consensus hash. */
  function LogText(h: HashFn, events: seq<Event>): string { EndedLines(Lines(h, events), |Lines(h, events)|) }

  lemma HashOfText(h: HashFn, events: seq<Event>)
    ensures ConsensusHash(h, events) == h(LogText(h, events))
  {
  }

  /** Everything hashed for a log. */
  ghost function HashedForLog(h: HashFn, events: seq<Event>): set<string> {
    {LogText(h, events)} + set e | e in events :: e.payload
  }

  /** Ids of one line. */
  predicate LineIds(events: seq<Event>) { forall e | e in events :: Lacks(e.id, '\n') }

  lemma ContentsWithout(events: seq<Event>, j: nat)
    requires j < |events|
    ensures var rest := events[..j] + events[j + 1..];
            multiset(Contents(events, |events|)) ==
              multiset(Contents(rest, |rest|)) + multiset{(events[j].id, events[j].payload)}
  {
    var rest := events[..j] + events[j + 1..];
    var pairs := Contents(events, |events|);
    assert Contents(rest, |rest|) == pairs[..j] + pairs[j + 1..];
    BagWithout(pairs, j);
  }

  /** Payloads of the two logs with one digest are one payload. */
  ghost predicate Apart(h: HashFn, a: seq<Event>, b: seq<Event>) {
    forall x, y | x in a && y in b && h(x.payload) == h(y.payload) :: x.payload == y.payload
  }

  lemma StillApart(h: HashFn, a: seq<Event>, b: seq<Event>, i: nat, j: nat)
    requires Apart(h, a, b) && i < |a| && j < |b|
    ensures Apart(h, a[..i] + a[i + 1..], b[..j] + b[j + 1..])
  {
  }

  predicate SameChunks(h: HashFn, a: seq<Event>, b: seq<Event>) {
    multiset(Chunks(h, a, |a|)) == multiset(Chunks(h, b, |b|))
  }

  /** The same ids with the same payloads, each as often. */
  predicate SameContents(a: seq<Event>, b: seq<Event>) { multiset(Contents(a, |a|)) == multiset(Contents(b, |b|)) }

  /** Equal bags of chunks mean equal bags of contents, and the other way round. */
  lemma {:induction false} ChunksBind(h: HashFn, a: seq<Event>, b: seq<Event>)
    requires HexHash(h) && Apart(h, a, b)
    ensures SameChunks(h, a, b) <==> SameContents(a, b)
    decreases |a|
  {
    hide HexHash, SameChunks, SameContents, Apart;
    if SameChunks(h, a, b) || SameContents(a, b) {
      SameSizes(h, a, b);
      if a != [] {
        var i := |a| - 1;
        var j := Partner(h, a, b);
        StillApart(h, a, b, i, j);
        ChunksBind(h, a[..i] + a[i + 1..], b[..j] + b[j + 1..]);
        OneLess(h, a, b, i, j);
      } else {
        NoEvents(h, a, b);
      }
    }
  }

  lemma SameSizes(h: HashFn, a: seq<Event>, b: seq<Event>)
    ensures SameChunks(h, a, b) || SameContents(a, b) ==> |a| == |b|
  {
    hide Chunks, Contents;
    Sizes(Chunks(h, a, |a|), Chunks(h, b, |b|));
    Sizes(Contents(a, |a|), Contents(b, |b|));
  }

  /** Two logs without a common event compare as they do with it. */
  lemma OneLess(h: HashFn, a: seq<Event>, b: seq<Event>, i: nat, j: nat)
    requires i < |a| && j < |b| && a[i].id == b[j].id && a[i].payload == b[j].payload
    ensures var a', b' := a[..i] + a[i + 1..], b[..j] + b[j + 1..];
            (SameChunks(h, a', b') <==> SameChunks(h, a, b)) && (SameContents(a', b') <==> SameContents(a, b))
  {
    hide Chunks, Contents;
    var a', b' := a[..i] + a[i + 1..], b[..j] + b[j + 1..];
    Without(h, a, i);
    Without(h, b, j);
    Cancel(multiset(Chunks(h, a', |a'|)), multiset(Chunks(h, b', |b'|)), a[i].id + ":" + h(a[i].payload));
    Cancel(multiset(Contents(a', |a'|)), multiset(Contents(b', |b'|)), (a[i].id, a[i].payload));
  }

  lemma Cancel<T>(a: multiset<T>, b: multiset<T>, x: T)
    ensures a + multiset{x} == b + multiset{x} <==> a == b
  {
    assert a == a + multiset{x} - multiset{x} && b == b + multiset{x} - multiset{x};
  }

  lemma NoEvents(h: HashFn, a: seq<Event>, b: seq<Event>)
    requires |a| == |b| == 0
    ensures SameChunks(h, a, b) && SameContents(a, b)
  {
  }

  lemma Sizes<T>(a: seq<T>, b: seq<T>)
    ensures multiset(a) == multiset(b) ==> |a| == |b|
  {
    assert |multiset(a)| == |a| && |multiset(b)| == |b|;
  }

  lemma Without(h: HashFn, events: seq<Event>, j: nat)
    requires j < |events|
    ensures var rest := events[..j] + events[j + 1..];
            && multiset(Chunks(h, events, |events|)) ==
                 multiset(Chunks(h, rest, |rest|)) + multiset{events[j].id + ":" + h(events[j].payload)}
            && multiset(Contents(events, |events|)) ==
                 multiset(Contents(rest, |rest|)) + multiset{(events[j].id, events[j].payload)}
            && forall e | e in rest :: e in events
  {
    ChunksWithout(h, events, j);
    ContentsWithout(events, j);
  }

  /** The last event of `a` has one in `b` with the same id and payload. */
  lemma Partner(h: HashFn, a: seq<Event>, b: seq<Event>) returns (j: nat)
    requires HexHash(h) && a != [] && Apart(h, a, b)
    requires SameChunks(h, a, b) || SameContents(a, b)
    ensures j < |b| && b[j].id == a[|a| - 1].id && b[j].payload == a[|a| - 1].payload
  {
    hide HexHash;
    var i := |a| - 1;
    if SameContents(a, b) {
      assert Contents(a, |a|)[i] in multiset(Contents(b, |b|));
      j :| 0 <= j < |b| && Contents(b, |b|)[j] == Contents(a, |a|)[i];
    } else {
      assert Chunks(h, a, |a|)[i] in multiset(Chunks(h, b, |b|));
      j :| 0 <= j < |b| && Chunks(h, b, |b|)[j] == Chunks(h, a, |a|)[i];
      PartWidth(h, a[i].id, a[i].payload, b[j].id, b[j].payload);
      assert a[i] in a && b[j] in b;
    }
  }

  lemma ChunkLines(h: HashFn, events: seq<Event>)
    requires HexHash(h) && LineIds(events)
    ensures forall line | line in Lines(h, events) :: Lacks(line, '\n')
  {
    hide HexHash, Sort, Lacks;
    var chunks := Chunks(h, events, |events|);
    SortBag(ByText(), chunks);
    forall line | line in Lines(h, events) ensures Lacks(line, '\n') {
      var i :| 0 <= i < |chunks| && chunks[i] == line;
      assert events[i] in events;
      HexOneLine(h, events[i].payload);
      OneLine(events[i].id, h(events[i].payload));
    }
  }

  lemma OneLine(id: string, digest: string)
    requires Lacks(id, '\n') && Lacks(digest, '\n')
    ensures Lacks(id + ":" + digest, '\n')
  {
  }

  lemma HexOneLine(h: HashFn, s: string)
    requires HexHash(h)
    ensures Lacks(h(s), '\n')
  {
    assert IsHex(h(s));
    forall i | 0 <= i < |h(s)| ensures h(s)[i] != '\n' {
      assert IsHexChar(h(s)[i]);
    }
  }

  /** A text of ended lines has one list of lines. */
  lemma LinesOfText(p: seq<string>, q: seq<string>)
    requires (forall line | line in p :: Lacks(line, '\n')) && (forall line | line in q :: Lacks(line, '\n'))
    requires EndedLines(p, |p|) == EndedLines(q, |q|)
    ensures p == q
  {
    hide Lacks, Split, EndedLines;
    SplitOfLines(p, |p|);
    SplitOfLines(q, |q|);
    assert p[..|p|] == p && q[..|q|] == q;
    var s, t := p + [""], q + [""];
    assert s == t && p == s[..|s| - 1] && q == t[..|t| - 1];
  }

  lemma LinesBind(h: HashFn, a: seq<Event>, b: seq<Event>)
    requires HexHash(h) && LineIds(a) && LineIds(b)
    ensures LogText(h, a) == LogText(h, b) <==> SameChunks(h, a, b)
  {
    hide HexHash, Lacks, EndedLines, LineIds, Sort, Chunks;
    SortBag(ByText(), Chunks(h, a, |a|));
    SortBag(ByText(), Chunks(h, b, |b|));
    if LogText(h, a) == LogText(h, b) {
      ChunkLines(h, a);
      ChunkLines(h, b);
      LinesOfText(Lines(h, a), Lines(h, b));
    }
    if SameChunks(h, a, b) {
      TextTotal(Chunks(h, a, |a|));
      SortIgnoresArrival(ByText(), Chunks(h, a, |a|), Chunks(h, b, |b|));
    }
  }

  /**
   * Two logs with ids of one line have the same consensus hash exactly when they hold the same ids with the same payloads,
   * each as often, unless two different texts hashed for them collide.
   */
  lemma ConsensusSeparates(h: HashFn, a: seq<Event>, b: seq<Event>)
    requires HexHash(h) && LineIds(a) && LineIds(b) && InjectiveOn(h, HashedForLog(h, a) + HashedForLog(h, b))
    ensures ConsensusHash(h, a) == ConsensusHash(h, b) <==> SameContents(a, b)
  {
    hide HexHash, LogText, LineIds, ConsensusHash, SameChunks, SameContents;
    HashOfText(h, a);
    HashOfText(h, b);
    LinesBind(h, a, b);
    assert LogText(h, a) in HashedForLog(h, a) && LogText(h, b) in HashedForLog(h, b);
    forall x, y | x in a && y in b && h(x.payload) == h(y.payload) ensures x.payload == y.payload {
      assert x.payload in HashedForLog(h, a) && y.payload in HashedForLog(h, b);
    }
    ChunksBind(h, a, b);
  }
}
