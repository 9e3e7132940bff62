/** What the tip hash says about the past. */
module Binding {
  import opened Types
  import opened Text
  import opened Decimal
  import opened Merkle
  import opened Sha256
  import opened Timeline
  import opened Invariant
  import Checkpoint

  /** The text hashed into the content hash of block `i`. */
  function ContentText(cfg: Config, c: Chain, i: nat): string
    requires i < |c.blocks|
  {
    Join(Parts(Payloads(cfg, c.events), c.blocks[i].eventIds, |c.blocks[i].eventIds|), ',')
  }

  /** The text hashed into the block hash of block `i`. */
  function HeaderText(c: Chain, i: nat): string
    requires i < |c.blocks|
  {
    DigestText(c.blocks[i], c.blocks[i].prevHash, c.blocks[i].merkleRoot, c.blocks[i].contentHash)
  }

  /** Everything hashed for the blocks after genesis, and the payloads. */
  ghost function HashedFor(cfg: Config, c: Chain): set<string> {
    (set i | 1 <= i < |c.blocks| :: ContentText(cfg, c, i)) +
    (set i | 1 <= i < |c.blocks| :: HeaderText(c, i)) +
    (set e | e in c.events :: e.payload)
  }

  lemma HeaderBinds(a: Block, b: Block)
    requires Lacks(a.prevHash, '|') && Lacks(b.prevHash, '|') && Lacks(a.merkleRoot, '|') && Lacks(b.merkleRoot, '|')
    requires Lacks(a.contentHash, '|') && Lacks(b.contentHash, '|')
    requires DigestText(a, a.prevHash, a.merkleRoot, a.contentHash) == DigestText(b, b.prevHash, b.merkleRoot, b.contentHash)
    ensures a.(eventIds := [], blockHash := "") == b.(eventIds := [], blockHash := "")
  {
    var a8, b8 := a.psz, b.psz;
    var a7, b7 := a.contentHash + "|" + a8, b.contentHash + "|" + b8;
    var a6, b6 := a.merkleRoot + "|" + a7, b.merkleRoot + "|" + b7;
    var a5, b5 := a.prevHash + "|" + a6, b.prevHash + "|" + b6;
    var a4, b4 := Bit(a.backfilled) + "|" + a5, Bit(b.backfilled) + "|" + b5;
    var a3, b3 := Bit(a.confirmed) + "|" + a4, Bit(b.confirmed) + "|" + b4;
    var a2, b2 := Bit(a.reserved) + "|" + a3, Bit(b.reserved) + "|" + b3;
    var a1, b1 := IntText(a.openedUnix) + "|" + a2, IntText(b.openedUnix) + "|" + b2;
    NumberHead(a.index, a1, b.index, b1);
    NumberHead(a.openedUnix, a2, b.openedUnix, b2);
    HeadUnique(Bit(a.reserved), a3, Bit(b.reserved), b3, '|');
    HeadUnique(Bit(a.confirmed), a4, Bit(b.confirmed), b4, '|');
    HeadUnique(Bit(a.backfilled), a5, Bit(b.backfilled), b5, '|');
    HeadUnique(a.prevHash, a6, b.prevHash, b6, '|');
    HeadUnique(a.merkleRoot, a7, b.merkleRoot, b7, '|');
    HeadUnique(a.contentHash, a8, b.contentHash, b8, '|');
  }

  lemma NumberHead(m: int, x: string, n: int, y: string)
    requires IntText(m) + "|" + x == IntText(n) + "|" + y
    ensures m == n && x == y
  {
    IntTextLacks(m, '|');
    IntTextLacks(n, '|');
    HeadUnique(IntText(m), x, IntText(n), y, '|');
    IntTextInjective(m, n);
  }

  /** Two lists of non-empty parts without commas are equal when their joined texts are. */
  lemma PartsBind(a: seq<string>, b: seq<string>)
    requires (forall p | p in a :: Lacks(p, ',') && p != "") && (forall p | p in b :: Lacks(p, ',') && p != "")
    requires Join(a, ',') == Join(b, ',')
    ensures a == b
  {
    JoinEmpty(a);
    JoinEmpty(b);
    if a != [] && b != [] {
      SplitOfJoin(a, ',');
      SplitOfJoin(b, ',');
    }
  }

  lemma JoinEmpty(a: seq<string>)
    requires forall p | p in a :: p != ""
    ensures Join(a, ',') == "" <==> a == []
  {
    if |a| == 1 {
      assert a[0] in a;
    }
  }

  lemma PartWidth(h: HashFn, a: string, x: string, b: string, y: string)
    requires HexHash(h) && a + ":" + h(x) == b + ":" + h(y)
    ensures a == b && h(x) == h(y)
  {
    var s, t := a + ":" + h(x), b + ":" + h(y);
    assert |s| == |a| + 65 && |t| == |b| + 65;
    assert a == s[..|a|] && b == t[..|b|];
    assert h(x) == s[|a| + 1..] && h(y) == t[|b| + 1..];
  }

  // ----- digests have no separator

  lemma HexLacks(s: string)
    requires IsHex(s)
    ensures Lacks(s, '|') && Lacks(s, ',')
  {
    forall i | 0 <= i < |s| ensures s[i] != '|' && s[i] != ',' {
      assert IsHexChar(s[i]);
    }
  }

  lemma HexWidth(h: HashFn)
    requires HexHash(h)
    ensures DigestWidth(h, 64) && forall s :: Lacks(h(s), ',')
  {
    forall s ensures |h(s)| == 64 && Lacks(h(s), '|') && Lacks(h(s), ',') {
      HexLacks(h(s));
    }
  }

  lemma {:induction false} RootWidth(h: HashFn, leaves: seq<string>)
    requires DigestWidth(h, 64) && FixedWidth(leaves, 64)
    ensures |Root(h, leaves)| == 64 && Lacks(Root(h, leaves), '|')
    decreases |leaves|
  {
    hide DigestWidth, Level;
    if |leaves| == 0 {
      EmptyRootWidth(h);
    } else if |leaves| == 1 {
      assert leaves[0] in leaves;
    } else {
      LevelWidth(h, leaves, 64);
      RootWidth(h, Level(h, leaves));
    }
  }

  lemma EmptyRootWidth(h: HashFn)
    requires DigestWidth(h, 64)
    ensures |h("merkle-empty")| == 64 && Lacks(h("merkle-empty"), '|')
  {
  }

  lemma {:induction false} LeavesWidth(h: HashFn, parts: seq<string>, n: nat)
    requires DigestWidth(h, 64) && n <= |parts|
    ensures FixedWidth(Leaves(h, parts, n), 64)
  {
    if n > 0 {
      LeavesWidth(h, parts, n - 1);
    }
  }

  // ----- one block

  predicate CommaFree(events: seq<Event>) { forall e | e in events :: Lacks(e.id, ',') }

  /** The hash fields of a block after genesis. */
  lemma BlockDigests(cfg: Config, c: Chain, i: nat)
    requires Valid(cfg, c) && HexHash(cfg.h) && 1 <= i < |c.blocks|
    ensures var b := c.blocks[i];
            && b.contentHash == cfg.h(ContentText(cfg, c, i)) && b.blockHash == cfg.h(HeaderText(c, i))
            && b.prevHash == c.blocks[i - 1].blockHash
            && Lacks(b.contentHash, '|') && Lacks(b.merkleRoot, '|') && Lacks(b.blockHash, '|')
  {
    hide Leaves, Root, PayloadHashes, Limits, IdBag, IsHex;
    HexWidth(cfg.h);
    assert SealedAt(cfg, Payloads(cfg, c.events), c.blocks, i);
    assert c.blocks[i].index == i;
    var parts := Parts(Payloads(cfg, c.events), c.blocks[i].eventIds, |c.blocks[i].eventIds|);
    LeavesWidth(cfg.h, parts, |parts|);
    RootWidth(cfg.h, Leaves(cfg.h, parts, |parts|));
  }

  lemma {:induction false} PartAt(payloads: map<string, string>, ids: seq<string>, n: nat, k: nat)
    requires k < n <= |ids|
    ensures Parts(payloads, ids, n)[k] == Part(payloads, ids[k])
  {
    hide Part;
    if k < n - 1 {
      PartAt(payloads, ids, n - 1, k);
    }
  }

  /** In a valid chain each part names an event and the digest of its payload. */
  lemma PartOf(cfg: Config, c: Chain, i: nat, k: nat) returns (e: Event)
    requires Valid(cfg, c) && i < |c.blocks| && k < |c.blocks[i].eventIds|
    ensures e in c.events && e.id == c.blocks[i].eventIds[k]
    ensures Part(Payloads(cfg, c.events), c.blocks[i].eventIds[k]) == e.id + ":" + cfg.h(e.payload)
  {
    hide Linked, Limits, IdBag;
    var id := c.blocks[i].eventIds[k];
    assert id in c.blocks[i].eventIds && Assigned(c.blocks, id);
    PlacedIds(cfg, c, id);
    var j :| 0 <= j < |c.events| && c.events[j].id == id;
    e := c.events[j];
    Checkpoint.PayloadOf(cfg.h, c.events, |c.events|, j);
  }

  lemma PartsClean(cfg: Config, c: Chain, i: nat)
    requires Valid(cfg, c) && HexHash(cfg.h) && CommaFree(c.events) && i < |c.blocks|
    ensures forall p | p in Parts(Payloads(cfg, c.events), c.blocks[i].eventIds, |c.blocks[i].eventIds|) ::
              Lacks(p, ',') && p != ""
  {
    hide Linked, Placed, PayloadHashes, IsHex;
    HexWidth(cfg.h);
    var ids := c.blocks[i].eventIds;
    var parts := Parts(Payloads(cfg, c.events), ids, |ids|);
    forall p | p in parts ensures Lacks(p, ',') && p != "" {
      var k :| 0 <= k < |ids| && parts[k] == p;
      PartAt(Payloads(cfg, c.events), ids, |ids|, k);
      var e := PartOf(cfg, c, i, k);
      assert Lacks(e.id, ',') && Lacks(cfg.h(e.payload), ',');
    }
  }

  /** Equal content hashes: the same ids in the same order, with the same payloads. */
  lemma ContentBinds(cfg: Config, c: Chain, d: Chain, i: nat)
    requires Valid(cfg, c) && Valid(cfg, d) && HexHash(cfg.h) && CommaFree(c.events) && CommaFree(d.events)
    requires i < |c.blocks| && i < |d.blocks| && ContentText(cfg, c, i) == ContentText(cfg, d, i)
    ensures c.blocks[i].eventIds == d.blocks[i].eventIds
    ensures forall x, y | x in c.events && y in d.events && x.id == y.id && x.id in c.blocks[i].eventIds ::
              cfg.h(x.payload) == cfg.h(y.payload)
  {
    hide Linked, Placed, PayloadHashes, Join, IsHex, HexHash;
    var ids, ids' := c.blocks[i].eventIds, d.blocks[i].eventIds;
    var p, q := Payloads(cfg, c.events), Payloads(cfg, d.events);
    PartsClean(cfg, c, i);
    PartsClean(cfg, d, i);
    PartsBind(Parts(p, ids, |ids|), Parts(q, ids', |ids'|));
    assert |ids| == |ids'|;
    forall k | 0 <= k < |ids| ensures ids[k] == ids'[k] {
      SamePart(cfg, c, d, i, k);
    }
    forall x, y | x in c.events && y in d.events && x.id == y.id && x.id in ids ensures cfg.h(x.payload) == cfg.h(y.payload) {
      var k :| 0 <= k < |ids| && ids[k] == x.id;
      SamePart(cfg, c, d, i, k);
      OneEvent(cfg, c, x, k, i);
      OneEvent(cfg, d, y, k, i);
    }
  }

  lemma SamePart(cfg: Config, c: Chain, d: Chain, i: nat, k: nat)
    requires Valid(cfg, c) && Valid(cfg, d) && HexHash(cfg.h) && i < |c.blocks| && i < |d.blocks|
    requires k < |c.blocks[i].eventIds| && k < |d.blocks[i].eventIds|
    requires Parts(Payloads(cfg, c.events), c.blocks[i].eventIds, |c.blocks[i].eventIds|) ==
             Parts(Payloads(cfg, d.events), d.blocks[i].eventIds, |d.blocks[i].eventIds|)
    ensures c.blocks[i].eventIds[k] == d.blocks[i].eventIds[k]
    ensures Field(Payloads(cfg, c.events), c.blocks[i].eventIds[k], "missing") ==
            Field(Payloads(cfg, d.events), d.blocks[i].eventIds[k], "missing")
  {
    hide Linked, Placed, PayloadHashes, IsHex;
    var e := PartOf(cfg, c, i, k);
    var f := PartOf(cfg, d, i, k);
    PartAt(Payloads(cfg, c.events), c.blocks[i].eventIds, |c.blocks[i].eventIds|, k);
    PartAt(Payloads(cfg, d.events), d.blocks[i].eventIds, |d.blocks[i].eventIds|, k);
    PartWidth(cfg.h, e.id, e.payload, f.id, f.payload);
    FieldOf(cfg, c, e);
    FieldOf(cfg, d, f);
  }

  lemma FieldOf(cfg: Config, c: Chain, e: Event)
    requires Valid(cfg, c) && e in c.events
    ensures Field(Payloads(cfg, c.events), e.id, "missing") == cfg.h(e.payload)
  {
    hide Linked, Limits, IdBag;
    var j :| 0 <= j < |c.events| && c.events[j] == e;
    Checkpoint.PayloadOf(cfg.h, c.events, |c.events|, j);
  }

  lemma OneEvent(cfg: Config, c: Chain, e: Event, k: nat, i: nat)
    requires Valid(cfg, c) && e in c.events && i < |c.blocks| && k < |c.blocks[i].eventIds| && c.blocks[i].eventIds[k] == e.id
    ensures Field(Payloads(cfg, c.events), c.blocks[i].eventIds[k], "missing") == cfg.h(e.payload)
  {
    FieldOf(cfg, c, e);
  }

  // ----- the whole chain

  /** What two chains share at block `i`: the whole record, and the payloads of its events. */
  ghost predicate SameRecord(c: Chain, d: Chain, i: nat)
    requires i < |c.blocks| && i < |d.blocks|
  {
    && c.blocks[i] == d.blocks[i]
    && forall x, y | x in c.events && y in d.events && x.id == y.id && x.id in c.blocks[i].eventIds :: x.payload == y.payload
  }

  lemma TextsHashed(cfg: Config, c: Chain, i: nat)
    requires 1 <= i < |c.blocks|
    ensures HeaderText(c, i) in HashedFor(cfg, c) && ContentText(cfg, c, i) in HashedFor(cfg, c)
    ensures forall e | e in c.events :: e.payload in HashedFor(cfg, c)
  {
    hide HeaderText, ContentText;
  }

  lemma RecordBinds(cfg: Config, c: Chain, d: Chain, i: nat)
    requires Valid(cfg, c) && Valid(cfg, d) && HexHash(cfg.h) && CommaFree(c.events) && CommaFree(d.events)
    requires 1 <= i < |c.blocks| && i < |d.blocks| && c.blocks[i].blockHash == d.blocks[i].blockHash
    requires Lacks(c.blocks[0].blockHash, '|') && Lacks(d.blocks[0].blockHash, '|')
    requires InjectiveOn(cfg.h, HashedFor(cfg, c) + HashedFor(cfg, d))
    ensures SameRecord(c, d, i) && c.blocks[i - 1].blockHash == d.blocks[i - 1].blockHash
  {
    hide Valid, HashedFor, HexHash, DigestText, ContentText, Lacks, CommaFree;
    BlockDigests(cfg, c, i);
    BlockDigests(cfg, d, i);
    if i > 1 {
      BlockDigests(cfg, c, i - 1);
      BlockDigests(cfg, d, i - 1);
    }
    TextsHashed(cfg, c, i);
    TextsHashed(cfg, d, i);
    HeaderBinds(c.blocks[i], d.blocks[i]);
    ContentBinds(cfg, c, d, i);
  }

  /**
   * The tip hash binds the history: two valid chains of one length whose last block hashes agree share every block
   * after genesis, field by field, and the payloads of the events in them, unless two different texts hashed for
   * them collide.
   */
  lemma {:induction false} TipBindsHistory(cfg: Config, c: Chain, d: Chain, n: nat, i: nat)
    requires Valid(cfg, c) && Valid(cfg, d) && HexHash(cfg.h) && CommaFree(c.events) && CommaFree(d.events)
    requires 1 <= n <= |c.blocks| && n <= |d.blocks|
    requires Lacks(c.blocks[0].blockHash, '|') && Lacks(d.blocks[0].blockHash, '|')
    requires InjectiveOn(cfg.h, HashedFor(cfg, c) + HashedFor(cfg, d))
    requires c.blocks[n - 1].blockHash == d.blocks[n - 1].blockHash
    ensures c.blocks[0].blockHash == d.blocks[0].blockHash
    ensures 1 <= i < n ==> SameRecord(c, d, i)
  {
    hide Valid, HexHash, HashedFor, SameRecord, InjectiveOn;
    if n > 1 {
      RecordBinds(cfg, c, d, n - 1);
      TipBindsHistory(cfg, c, d, n - 1, i);
    }
  }
}
