/** The block log, written and read back. */
module BlockLog {
  import opened Types
  import opened Text
  import opened Decimal
  import opened Sorting
  import opened Timeline
  import opened Logs
  import opened Checkpoint

  // ----- id lists

  /** `split_event_ids`: the non-empty pieces between commas. */
  function NonEmpty(parts: seq<string>, n: nat): seq<string>
    requires n <= |parts|
  {
    if n == 0 then [] else if parts[n - 1] == "" then NonEmpty(parts, n - 1) else NonEmpty(parts, n - 1) + [parts[n - 1]]
  }

  function SplitIds(text: string): seq<string> {
    var parts := Split(text, ',');
    NonEmpty(parts, |parts|)
  }

  method SplitEventIds(text: string) returns (ids: seq<string>)
    ensures ids == SplitIds(text)
  {
    ids := [];
    var current := "";
    for i := 0 to |text|
      invariant var parts := Split(text[..i], ',');
                parts[|parts| - 1] == current && NonEmpty(parts, |parts| - 1) == ids
    {
      SplitNext(text, i, ',');
      var c := text[i];
      NonEmptyNext(Split(text[..i], ','), current, c);
      if c == ',' {
        if current != "" {
          ids := ids + [current];
          current := "";
        }
        continue;
      }
      current := current + [c];
    }
    assert text[..|text|] == text;
    if current != "" {
      ids := ids + [current];
    }
  }

  lemma NonEmptyNext(parts: seq<string>, current: string, c: char)
    requires parts != [] && parts[|parts| - 1] == current
    ensures NonEmpty(parts + [""], |parts|) == NonEmpty(parts, |parts|)
    ensures NonEmpty(parts[|parts| - 1 := current + [c]], |parts| - 1) == NonEmpty(parts, |parts| - 1)
  {
    hide NonEmpty;
    NonEmptyLocal(parts + [""], parts, |parts|);
    NonEmptyLocal(parts[|parts| - 1 := current + [c]], parts, |parts| - 1);
  }

  lemma {:induction false} NonEmptyLocal(a: seq<string>, b: seq<string>, n: nat)
    requires n <= |a| && n <= |b| && forall i | 0 <= i < n :: a[i] == b[i]
    ensures NonEmpty(a, n) == NonEmpty(b, n)
  {
    if n > 0 {
      NonEmptyLocal(a, b, n - 1);
    }
  }

  predicate IdsSafe(ids: seq<string>) { forall id | id in ids :: id != "" && Lacks(id, ',') }

  lemma {:induction false} NonEmptyAll(parts: seq<string>, n: nat)
    requires n <= |parts| && forall p | p in parts :: p != ""
    ensures NonEmpty(parts, n) == parts[..n]
  {
    if n > 0 {
      NonEmptyAll(parts, n - 1);
      assert parts[n - 1] in parts;
    }
  }

  lemma {:induction false} NonEmptySafe(parts: seq<string>, n: nat)
    requires n <= |parts| && forall p | p in parts :: Lacks(p, ',')
    ensures IdsSafe(NonEmpty(parts, n))
  {
    if n > 0 {
      NonEmptySafe(parts, n - 1);
      assert parts[n - 1] in parts;
    }
  }

  /** An id list reads back exactly when no id is empty or holds a comma. */
  lemma IdsRoundTrip(ids: seq<string>)
    ensures SplitIds(Join(ids, ',')) == ids <==> IdsSafe(ids)
  {
    var parts := Split(Join(ids, ','), ',');
    if IdsSafe(ids) {
      if |ids| == 0 {
        assert |parts| == 1 && parts[0] == "";
      } else {
        SplitOfJoin(ids, ',');
        NonEmptyAll(ids, |ids|);
        assert ids[..|ids|] == ids;
      }
    }
    JoinOfSplit(Join(ids, ','), ',');
    NonEmptySafe(parts, |parts|);
  }

  // ----- block lines

  function BlockFields(b: Block): (fields: seq<string>)
    ensures |fields| == 11
  {
    [NatText(b.index), IntText(b.openedUnix), Bit(b.reserved), Bit(b.confirmed), Bit(b.backfilled), b.prevHash,
     b.merkleRoot, b.contentHash, b.blockHash, ToHex(b.psz), ToHex(Join(b.eventIds, ','))]
  }

  /** `serialize_block_line` without its newline. */
  function BlockLine(b: Block): string { Join(BlockFields(b), '\t') }

  function BlockOfFields(f: seq<string>): Option<Block>
    requires |f| == 9 || |f| == 11
  {
    var index, opens := ParseU64(f[0]), ParseI64(f[1]);
    if index.None? || opens.None? then None
    else
      var wide := |f| == 11;
      Some(Block(index.value, opens.value, IsYes(f[2]), IsYes(f[3]), IsYes(f[4]),
                 SplitIds(FromHex(f[|f| - 1])),
                 if wide then FromHex(f[9]) else "",
                 f[5], f[6],
                 if wide then f[7] else f[6],
                 if wide then f[8] else f[7]))
  }

  /** `parse_block_line`: eleven fields, or nine in the older format. */
  function ParseBlock(line: string): Option<Block> {
    var f := Split(line, '\t');
    if |f| != 9 && |f| != 11 then None else BlockOfFields(f)
  }

  method ParseBlockLine(line: string) returns (r: Option<Block>)
    ensures r == ParseBlock(line)
  {
    hide BlockOfFields, Split;
    var fields: seq<string> := [];
    var start := 0;
    NoText(line[..0]);
    for i := 0 to |line|
      invariant start <= i
      invariant Split(line[..i], '\t') == fields + [line[start..i]]
    {
      NextPiece(line, fields, start, i, '\t');
      if line[i] == '\t' {
        fields := fields + [line[start..i]];
        start := i + 1;
      }
    }
    assert line[..|line|] == line;
    fields := fields + [line[start..]];
    if |fields| != 9 && |fields| != 11 {
      return None;
    }
    return BlockOfFields(fields);
  }

  /** What a C++ block can hold at all. */
  predicate StorableBlock(b: Block) {
    b.index <= U64_MAX && IsI64(b.openedUnix) && IsBytes(b.psz) && IsBytes(Join(b.eventIds, ','))
  }

  predicate TabFree(b: Block) {
    Lacks(b.prevHash, '\t') && Lacks(b.merkleRoot, '\t') && Lacks(b.contentHash, '\t') && Lacks(b.blockHash, '\t')
  }

  predicate NewlineFree(b: Block) {
    Lacks(b.prevHash, '\n') && Lacks(b.merkleRoot, '\n') && Lacks(b.contentHash, '\n') && Lacks(b.blockHash, '\n')
  }

  lemma BitBack(b: bool)
    ensures IsYes(Bit(b)) == b && Lacks(Bit(b), '\t') && Lacks(Bit(b), '\n')
  {
  }

  lemma FieldsLack(b: Block, c: char)
    requires c == '\t' || c == '\n'
    requires Lacks(b.prevHash, c) && Lacks(b.merkleRoot, c) && Lacks(b.contentHash, c) && Lacks(b.blockHash, c)
    ensures forall f | f in BlockFields(b) :: Lacks(f, c)
  {
    hide ToHex, IntText, NatText, Bit, Join;
    BitBack(b.reserved);
    BitBack(b.confirmed);
    BitBack(b.backfilled);
    NumberLacks(b.index, c);
    IntTextLacks(b.openedUnix, c);
    PayloadLacks(b.psz, c);
    PayloadLacks(Join(b.eventIds, ','), c);
  }

  lemma NumberLacks(n: nat, c: char)
    requires c == '\t' || c == '\n'
    ensures Lacks(NatText(n), c)
  {
    IntTextLacks(n, c);
  }

  /** Whatever line parses, the block that comes out can be written in one line. */
  lemma ParsedBlockSafe(line: string)
    ensures ParseBlock(line).Some? ==>
              TabFree(ParseBlock(line).value) && IdsSafe(ParseBlock(line).value.eventIds)
    ensures ParseBlock(line).Some? && Lacks(line, '\n') ==> NewlineFree(ParseBlock(line).value)
  {
    hide FromHex, IsYes, ParseU64, ParseI64;
    JoinOfSplit(line, '\t');
    var f := Split(line, '\t');
    JoinLacks(f, '\t', '\n');
    if |f| == 9 || |f| == 11 {
      assert f[5] in f && f[6] in f && f[7] in f && f[8] in f;
      var parts := Split(FromHex(f[|f| - 1]), ',');
      JoinOfSplit(FromHex(f[|f| - 1]), ',');
      NonEmptySafe(parts, |parts|);
    }
  }

  /** A written block line reads back as the block exactly when no hash holds a tab and the ids are safe. */
  lemma BlockLineRoundTrip(b: Block)
    requires StorableBlock(b)
    ensures ParseBlock(BlockLine(b)) == Some(b) <==> TabFree(b) && IdsSafe(b.eventIds)
  {
    hide ToHex, FromHex, NatText, IntText, Bit, IsYes, ParseU64, ParseI64, Join, SplitIds;
    if TabFree(b) && IdsSafe(b.eventIds) {
      FieldsLack(b, '\t');
      SplitOfJoin(BlockFields(b), '\t');
      ParseU64OfText(b.index);
      ParseI64OfText(b.openedUnix);
      BitBack(b.reserved);
      BitBack(b.confirmed);
      BitBack(b.backfilled);
      HexRoundTrip(b.psz);
      HexRoundTrip(Join(b.eventIds, ','));
      IdsRoundTrip(b.eventIds);
    }
    ParsedBlockSafe(BlockLine(b));
  }

  // ----- the block log

  /** The first line of the block log. */
  function Header(version: nat, chainId: string, networkId: string): string {
    "# got-soup blockdata version=" + NatText(version) + " chain_id=" + chainId + " network=" + networkId
  }

  function BlockLines(blocks: seq<Block>, n: nat): (lines: seq<string>)
    requires n <= |blocks|
    ensures |lines| == n && forall i | 0 <= i < n :: lines[i] == BlockLine(blocks[i])
  {
    if n == 0 then [] else BlockLines(blocks, n - 1) + [BlockLine(blocks[n - 1])]
  }

  /** `persist_block_log`. */
  function SaveBlocks(header: string, blocks: seq<Block>): string {
    EndedLines([header] + BlockLines(blocks, |blocks|), |blocks| + 1)
  }

  function ReadBlock(line: string): Option<Block> { if line == "" || line[0] == '#' then None else ParseBlock(line) }

  function ReadUpTo(lines: seq<string>, n: nat): seq<Block>
    requires n <= |lines|
  {
    if n == 0 then []
    else
      var b := ReadBlock(lines[n - 1]);
      if b.None? then ReadUpTo(lines, n - 1) else ReadUpTo(lines, n - 1) + [b.value]
  }

  function ByIndex(): (Block, Block) -> bool { (a: Block, b: Block) => a.index < b.index }

  /** `load_block_log`: the blocks that parse, sorted by index. */
  function LoadBlocks(text: string): seq<Block> {
    var lines := Split(text, '\n');
    Sort(ByIndex(), ReadUpTo(lines, |lines|))
  }

  method LoadBlockLog(text: string) returns (blocks: seq<Block>)
    ensures blocks == LoadBlocks(text)
  {
    hide ParseBlock, Split, Sort;
    var lines := Split(text, '\n');
    blocks := [];
    for i := 0 to |lines|
      invariant blocks == ReadUpTo(lines, i)
    {
      if lines[i] == "" || lines[i][0] == '#' {
        continue;
      }
      var b := ParseBlockLine(lines[i]);
      if b.Some? {
        blocks := blocks + [b.value];
      }
    }
    blocks := Sort(ByIndex(), blocks);
  }

  /** What the block log can carry. */
  predicate FileSafe(b: Block) { TabFree(b) && NewlineFree(b) && IdsSafe(b.eventIds) }

  lemma HeaderLine(version: nat, chainId: string, networkId: string)
    requires Lacks(chainId, '\n') && Lacks(networkId, '\n')
    ensures var h := Header(version, chainId, networkId); |h| > 0 && h[0] == '#' && Lacks(h, '\n')
  {
    NumberLacks(version, '\n');
  }

  lemma SafeBlockLine(b: Block)
    requires NewlineFree(b)
    ensures BlockLine(b) != "" && BlockLine(b)[0] != '#' && Lacks(BlockLine(b), '\n')
  {
    hide ToHex, IntText, Bit, Join;
    NumberStarts(b.index);
    JoinFirst(BlockFields(b), '\t');
    FieldsLack(b, '\n');
    JoinLacks(BlockFields(b), '\t', '\n');
  }

  lemma {:induction false} NumberStarts(n: nat)
    ensures NatText(n) != "" && NatText(n)[0] != '#'
  {
    if n >= 10 {
      NumberStarts(n / 10);
    }
  }

  lemma {:induction false} ReadLines(blocks: seq<Block>, lines: seq<string>, n: nat)
    requires n <= |blocks| && n < |lines| && ReadBlock(lines[0]).None?
    requires forall b | b in blocks :: FileSafe(b) && StorableBlock(b)
    requires forall i | 0 <= i < n :: lines[i + 1] == BlockLine(blocks[i])
    ensures ReadUpTo(lines, n + 1) == blocks[..n]
  {
    hide BlockLine, ParseBlock, StorableBlock;
    if n > 0 {
      ReadLines(blocks, lines, n - 1);
      assert blocks[n - 1] in blocks;
      assert lines[n] == BlockLine(blocks[n - 1]);
      SafeBlockLine(blocks[n - 1]);
      BlockLineRoundTrip(blocks[n - 1]);
      assert blocks[..n] == blocks[..n - 1] + [blocks[n - 1]];
    }
  }

  lemma {:induction false} ReadSafe(lines: seq<string>, n: nat)
    requires n <= |lines| && forall line | line in lines :: Lacks(line, '\n')
    ensures forall b | b in ReadUpTo(lines, n) :: FileSafe(b)
  {
    hide ParseBlock, Lacks, IdsSafe;
    if n > 0 {
      ReadSafe(lines, n - 1);
      assert lines[n - 1] in lines;
      ParsedBlockSafe(lines[n - 1]);
    }
  }

  lemma SortIncreasing(blocks: seq<Block>)
    requires Increasing(blocks)
    ensures Sort(ByIndex(), blocks) == blocks
  {
    forall x, y | x in blocks && y in blocks ensures x == y || ByIndex()(x, y) || ByIndex()(y, x) {
      var i :| 0 <= i < |blocks| && blocks[i] == x;
      var j :| 0 <= j < |blocks| && blocks[j] == y;
    }
    SortSorted(ByIndex(), blocks);
    SortBag(ByIndex(), blocks);
    SortedUnique(ByIndex(), blocks, Sort(ByIndex(), blocks));
  }

  lemma LoadedBlocks(header: string, blocks: seq<Block>)
    requires |header| > 0 && header[0] == '#' && Lacks(header, '\n')
    requires forall b | b in blocks :: FileSafe(b) && StorableBlock(b)
    ensures var lines := Split(SaveBlocks(header, blocks), '\n'); ReadUpTo(lines, |lines|) == blocks
  {
    hide BlockLine, TabFree, NewlineFree, IdsSafe, StorableBlock, Split, EndedLines, ParseBlock, Lacks;
    var saved := [header] + BlockLines(blocks, |blocks|);
    forall line | line in saved ensures Lacks(line, '\n') {
      var i :| 0 <= i < |saved| && saved[i] == line;
      if i > 0 {
        assert blocks[i - 1] in blocks;
        SafeBlockLine(blocks[i - 1]);
      }
    }
    SplitOfLines(saved, |saved|);
    assert saved[..|saved|] == saved;
    var lines := saved + [""];
    ReadLines(blocks, lines, |blocks|);
    assert blocks[..|blocks|] == blocks;
    assert lines[|blocks| + 1] == "" && ReadBlock(lines[|blocks| + 1]).None?;
  }

  /** A saved block log loads as the same blocks exactly when every block is safe for the file. */
  lemma BlockLogRoundTrip(version: nat, chainId: string, networkId: string, blocks: seq<Block>)
    requires Lacks(chainId, '\n') && Lacks(networkId, '\n')
    requires Increasing(blocks) && forall b | b in blocks :: StorableBlock(b)
    ensures LoadBlocks(SaveBlocks(Header(version, chainId, networkId), blocks)) == blocks <==>
            forall b | b in blocks :: FileSafe(b)
  {
    hide Header, BlockLine, FileSafe, StorableBlock, Split, EndedLines, ReadUpTo, Sort, SaveBlocks;
    var header := Header(version, chainId, networkId);
    HeaderLine(version, chainId, networkId);
    var lines := Split(SaveBlocks(header, blocks), '\n');
    if forall b | b in blocks :: FileSafe(b) {
      LoadedBlocks(header, blocks);
      SortIncreasing(blocks);
    }
    JoinOfSplit(SaveBlocks(header, blocks), '\n');
    ReadSafe(lines, |lines|);
    SortBag(ByIndex(), ReadUpTo(lines, |lines|));
  }
}
