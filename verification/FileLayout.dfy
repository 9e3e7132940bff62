/** Where things lie in the files. */
module FileLayout {
  import opened Types
  import opened Text
  import opened Decimal
  import opened Timeline
  import opened Logs
  import opened BlockLog
  import opened Producer

  // ----- kinds

  /** The kinds in the order of their numbers, with their names. */
  function Kinds(): (table: seq<(EventKind, string)>)
    ensures |table| == 17
  {
    [(RecipeCreated, "RecipeCreated"), (ThreadCreated, "ThreadCreated"), (ReplyCreated, "ReplyCreated"),
     (ReviewAdded, "ReviewAdded"), (ThumbsUpAdded, "ThumbsUpAdded"), (BlockRewardClaimed, "BlockRewardClaimed"),
     (RewardTransferred, "RewardTransferred"), (ProfileUpdated, "ProfileUpdated"), (KeyRotated, "KeyRotated")] +
    [(ModeratorAdded, "ModeratorAdded"), (ModeratorRemoved, "ModeratorRemoved"), (ContentFlagged, "ContentFlagged"),
     (ContentHidden, "ContentHidden"), (ContentUnhidden, "ContentUnhidden"), (CoreTopicPinned, "CoreTopicPinned"),
     (CoreTopicUnpinned, "CoreTopicUnpinned"), (PolicyUpdated, "PolicyUpdated")]
  }

  /** Every kind has the number and the name the table gives it, and reading the name gives the kind. */
  lemma KindsByTable(kind: EventKind)
    ensures var k := KindNumber(kind);
            k < 17 && Kinds()[k] == (kind, KindText(kind)) && KindOf(Kinds()[k].1) == kind
  {
    hide KindText, KindOf, Kinds;
    KindRoundTrip(kind);
    KindAt(kind);
  }

  lemma KindAt(kind: EventKind)
    ensures Kinds()[KindNumber(kind)] == (kind, KindText(kind))
  {
  }

  // ----- lines

  /** Two hex digits, high half first. */
  predicate HexOfByte(high: char, low: char, c: char) {
    HexDigitIs(high, c as int / 16) && HexDigitIs(low, c as int % 16)
  }

  predicate HexDigitIs(c: char, n: int) {
    if n < 10 then c as int == '0' as int + n else c as int == 'a' as int + n - 10
  }

  predicate HexOfText(t: string, s: string) {
    |t| == 2 * |s| && forall i | 0 <= i < |s| :: HexOfByte(t[2 * i], t[2 * i + 1], s[i])
  }

  lemma {:induction false} HexIs(s: string, n: nat)
    requires n <= |s| && IsBytes(s)
    ensures HexOfText(HexText(s, n), s[..n])
  {
    if n > 0 {
      HexIs(s, n - 1);
      ByteIs(s[n - 1]);
      var t, u := HexText(s, n - 1), HexText(s, n);
      forall i | 0 <= i < n ensures HexOfByte(u[2 * i], u[2 * i + 1], s[i]) {
        if i < n - 1 {
          assert u[2 * i] == t[2 * i] && u[2 * i + 1] == t[2 * i + 1];
          assert HexOfByte(t[2 * i], t[2 * i + 1], s[..n - 1][i]);
        }
      }
    }
  }

  lemma ByteIs(c: char)
    requires c as int < 256
    ensures |HexPair(c)| == 2 && HexOfByte(HexPair(c)[0], HexPair(c)[1], c)
  {
    hide HexChar, HexDigitIs;
    var n := c as int;
    assert n % 256 == n;
    CharIs(n / 16);
    CharIs(n % 16);
  }

  lemma CharIs(n: nat)
    requires n < 16
    ensures HexDigitIs(HexChar(n), n)
  {
  }

  /** A digit in either case, and what it stands for. */
  predicate Digit(c: char, n: int) {
    ('0' <= c <= '9' && c as int - '0' as int == n) || ('a' <= c <= 'f' && c as int - 'a' as int == n - 10) ||
    ('A' <= c <= 'F' && c as int - 'A' as int == n - 10)
  }

  lemma DigitIs(c: char, n: int)
    ensures Digit(c, n) <==> n >= 0 && HexValue(c) == n
  {
  }

  /** The byte behind two digits. */
  predicate ByteOf(high: char, low: char, c: char) {
    exists n :: 0 <= n < 16 && Digit(high, n) && Digit(low, c as int - 16 * n)
  }

  predicate BytesOf(t: string, s: string) {
    |t| == 2 * |s| && forall i | 0 <= i < |s| :: ByteOf(t[2 * i], t[2 * i + 1], s[i])
  }

  lemma ByteRead(high: char, low: char)
    ensures var h, l := HexValue(high), HexValue(low);
            && (h >= 0 && l >= 0 ==> 16 * h + l < 256 && ByteOf(high, low, (16 * h + l) as char))
            && forall c :: ByteOf(high, low, c) ==> h >= 0 && l >= 0 && c as int == 16 * h + l
  {
    hide Digit, HexValue;
    var h, l := HexValue(high), HexValue(low);
    DigitIs(high, h);
    DigitIs(low, l);
    forall c | ByteOf(high, low, c) ensures h >= 0 && l >= 0 && c as int == 16 * h + l {
      var n :| 0 <= n < 16 && Digit(high, n) && Digit(low, c as int - 16 * n);
      DigitIs(high, n);
      DigitIs(low, c as int - 16 * n);
    }
  }

  lemma {:induction false} UnhexReads(t: string, n: nat)
    requires 2 * n <= |t|
    ensures Unhex(t, n).Some? ==> BytesOf(t[..2 * n], Unhex(t, n).value)
    ensures forall s | BytesOf(t[..2 * n], s) :: Unhex(t, n) == Some(s)
  {
    hide ByteOf, HexValue;
    if n > 0 {
      var high, low := t[2 * n - 2], t[2 * n - 1];
      UnhexReads(t, n - 1);
      ByteRead(high, low);
      forall s | BytesOf(t[..2 * n], s) ensures Unhex(t, n) == Some(s) {
        assert ByteOf(t[..2 * n][2 * (n - 1)], t[..2 * n][2 * (n - 1) + 1], s[n - 1]);
        assert BytesOf(t[..2 * (n - 1)], s[..n - 1]);
        assert s == s[..n - 1] + [s[n - 1]];
      }
    }
  }

  /** Reading hex gives the bytes two digits at a time, and nothing if there are none. */
  lemma HexIsRead(t: string)
    ensures BytesOf(t, FromHex(t)) || (FromHex(t) == "" && forall s :: !BytesOf(t, s))
  {
    hide ByteOf, Unhex;
    UnhexReads(t, |t| / 2);
    if |t| % 2 == 0 {
      assert t[..2 * (|t| / 2)] == t;
    }
  }

  /** An event line: id, kind, author, time, payload in hex, signature, with tabs between. */
  lemma EventLineLayout(e: Event)
    requires Storable(e) && LineSafe(e)
    ensures var f := Split(EventLine(e), '\t');
            && |f| == 6 && f[0] == e.id && f[1] == KindText(e.kind) && f[2] == e.author
            && ParseI64(f[3]) == Some(e.ts) && HexOfText(f[4], e.payload) && f[5] == e.signature
  {
    hide KindText, HexText, ParseI64, Split, IntText;
    SafeFields(e);
    SplitOfJoin(EventFields(e), '\t');
    ParseI64OfText(e.ts);
    HexIs(e.payload, |e.payload|);
    assert e.payload[..|e.payload|] == e.payload;
  }

  /** A block line: index, time, three bits, four hashes, and in hex the genesis text and the ids with commas between. */
  lemma BlockLineLayout(b: Block)
    requires StorableBlock(b) && TabFree(b)
    ensures var f := Split(BlockLine(b), '\t');
            && |f| == 11 && ParseU64(f[0]) == Some(b.index) && ParseI64(f[1]) == Some(b.openedUnix)
            && f[2] == (if b.reserved then "1" else "0") && f[3] == (if b.confirmed then "1" else "0")
            && f[4] == (if b.backfilled then "1" else "0")
            && f[5] == b.prevHash && f[6] == b.merkleRoot && f[7] == b.contentHash && f[8] == b.blockHash
            && HexOfText(f[9], b.psz) && HexOfText(f[10], Join(b.eventIds, ','))
  {
    hide HexText, ParseI64, ParseU64, Split, IntText, NatText, Join;
    FieldsLack(b, '\t');
    SplitOfJoin(BlockFields(b), '\t');
    ParseU64OfText(b.index);
    ParseI64OfText(b.openedUnix);
    HexIs(b.psz, |b.psz|);
    HexIs(Join(b.eventIds, ','), |Join(b.eventIds, ',')|);
    assert b.psz[..|b.psz|] == b.psz && Join(b.eventIds, ',')[..|Join(b.eventIds, ',')|] == Join(b.eventIds, ',');
  }

  // ----- the older block line

  /** The nine fields: no content hash and no genesis text. */
  function OldFields(b: Block): (fields: seq<string>)
    ensures |fields| == 9
  {
    [NatText(b.index), IntText(b.openedUnix), Bit(b.reserved), Bit(b.confirmed), Bit(b.backfilled), b.prevHash,
     b.merkleRoot, b.blockHash, ToHex(Join(b.eventIds, ','))]
  }

  lemma OldFieldsLack(b: Block)
    requires TabFree(b)
    ensures forall f | f in OldFields(b) :: Lacks(f, '\t')
  {
    hide ToHex, IntText, NatText, Bit, Join;
    BitBack(b.reserved);
    BitBack(b.confirmed);
    BitBack(b.backfilled);
    NumberLacks(b.index, '\t');
    IntTextLacks(b.openedUnix, '\t');
    PayloadLacks(Join(b.eventIds, ','), '\t');
  }

  /** A line of the older layout reads with the Merkle root for the content hash, and without a genesis text. */
  lemma OldLineReads(b: Block)
    requires StorableBlock(b) && TabFree(b) && IdsSafe(b.eventIds)
    ensures ParseBlock(Join(OldFields(b), '\t')) == Some(b.(contentHash := b.merkleRoot, psz := ""))
  {
    hide ToHex, FromHex, NatText, IntText, Bit, IsYes, ParseU64, ParseI64, Join, SplitIds;
    OldFieldsLack(b);
    SplitOfJoin(OldFields(b), '\t');
    ParseU64OfText(b.index);
    ParseI64OfText(b.openedUnix);
    BitBack(b.reserved);
    BitBack(b.confirmed);
    BitBack(b.backfilled);
    HexRoundTrip(Join(b.eventIds, ','));
    IdsRoundTrip(b.eventIds);
  }
}
