/** What every operation on the timeline keeps: positions, ids placed once, block limits, and links by hash. */
module Invariant {
  import opened Types
  import opened Timeline

  // ----- the parts of the invariant

  predicate Positions(blocks: seq<Block>) { forall i | 0 <= i < |blocks| :: blocks[i].index == i }

  predicate UniqueIds(events: seq<Event>) {
    forall i, j | 0 <= i < j < |events| :: events[i].id != events[j].id
  }

  function EventIds(events: seq<Event>, n: nat): (ids: seq<string>)
    requires n <= |events|
    ensures |ids| == n && forall i | 0 <= i < n :: ids[i] == events[i].id
  {
    if n == 0 then [] else EventIds(events, n - 1) + [events[n - 1].id]
  }

  /** All ids in the first `n` blocks, with multiplicity. */
  function IdBag(blocks: seq<Block>, n: nat): multiset<string>
    requires n <= |blocks|
  {
    if n == 0 then multiset{} else IdBag(blocks, n - 1) + multiset(blocks[n - 1].eventIds)
  }

  function Payloads(cfg: Config, events: seq<Event>): map<string, string> {
    PayloadHashes(cfg.h, events, |events|)
  }

  /** Block `i` carries the hashes recomputed from its contents and its predecessor. */
  ghost predicate SealedAt(cfg: Config, payloads: map<string, string>, blocks: seq<Block>, i: nat)
    requires i < |blocks|
  {
    blocks[i] == Sealed(cfg, payloads, blocks[i], PrevHash(blocks, i)) && (blocks[i].index == 0 ==> blocks[i].psz != "")
  }

  ghost predicate Linked(cfg: Config, payloads: map<string, string>, blocks: seq<Block>) {
    forall i | 0 <= i < |blocks| :: SealedAt(cfg, payloads, blocks, i)
  }

  /** A block keeps its limits, except that an event too large for any block has one to itself. */
  predicate WithinLimits(cfg: Config, events: seq<Event>, b: Block) {
    |b.eventIds| <= cfg.maxBlockEvents &&
    (|b.eventIds| == 1 || BlockBytes(events, b.eventIds, |b.eventIds|) <= cfg.maxBlockBytes)
  }

  predicate Limits(cfg: Config, events: seq<Event>, blocks: seq<Block>) {
    forall i | 0 <= i < |blocks| :: WithinLimits(cfg, events, blocks[i])
  }

  /** The part that does not look at hashes. */
  predicate Placed(cfg: Config, c: Chain) {
    && Positions(c.blocks) && UniqueIds(c.events)
    && IdBag(c.blocks, |c.blocks|) == multiset(EventIds(c.events, |c.events|))
    && Limits(cfg, c.events, c.blocks)
  }

  ghost predicate Valid(cfg: Config, c: Chain) {
    Placed(cfg, c) && Linked(cfg, Payloads(cfg, c.events), c.blocks)
  }

  /** A block without its hash fields and genesis text. */
  function Shape(b: Block): Block {
    b.(psz := "", prevHash := "", merkleRoot := "", contentHash := "", blockHash := "")
  }

  // ----- bags of ids

  lemma {:induction false} InBag(blocks: seq<Block>, n: nat, id: string)
    requires n <= |blocks|
    ensures id in IdBag(blocks, n) <==> exists i | 0 <= i < n :: id in blocks[i].eventIds
  {
    if n > 0 {
      InBag(blocks, n - 1, id);
      assert id in multiset(blocks[n - 1].eventIds) <==> id in blocks[n - 1].eventIds;
    }
  }

  lemma {:induction false} BagOfShape(a: seq<Block>, b: seq<Block>, n: nat)
    requires n <= |a| && n <= |b| && forall i | 0 <= i < n :: a[i].eventIds == b[i].eventIds
    ensures IdBag(a, n) == IdBag(b, n)
  {
    if n > 0 {
      BagOfShape(a, b, n - 1);
    }
  }

  lemma {:induction false} BagOfPut(blocks: seq<Block>, k: nat, id: string, n: nat)
    requires k < |blocks| && n <= |blocks|
    ensures IdBag(blocks[k := Put(blocks[k], id)], n) == IdBag(blocks, n) + if k < n then multiset{id} else multiset{}
  {
    hide Put;
    var blocks' := blocks[k := Put(blocks[k], id)];
    if k < n {
      BagOfPut(blocks, k, id, n - 1);
      if k == n - 1 {
        PutIds(blocks[k], id);
      } else {
        assert blocks'[n - 1] == blocks[n - 1];
      }
    } else {
      BagOfShape(blocks', blocks, n);
    }
  }

  lemma PutIds(b: Block, id: string)
    ensures multiset(Put(b, id).eventIds) == multiset(b.eventIds) + multiset{id}
  {
  }

  lemma BagOfAppend(blocks: seq<Block>, b: Block)
    ensures IdBag(blocks + [b], |blocks| + 1) == IdBag(blocks, |blocks|) + multiset(b.eventIds)
  {
    BagOfShape(blocks + [b], blocks, |blocks|);
  }

  /** An id that lies in two blocks counts twice. */
  lemma {:induction false} TwoBlocks(blocks: seq<Block>, n: nat, i: nat, j: nat, id: string)
    requires i < j < n <= |blocks| && id in blocks[i].eventIds && id in blocks[j].eventIds
    ensures IdBag(blocks, n)[id] >= 2
  {
    if j < n - 1 {
      TwoBlocks(blocks, n - 1, i, j, id);
    } else {
      InBag(blocks, n - 1, id);
      assert id in multiset(blocks[j].eventIds);
    }
  }

  lemma {:induction false} BagAtLeast(blocks: seq<Block>, n: nat, i: nat, id: string)
    requires i < n <= |blocks|
    ensures IdBag(blocks, n)[id] >= multiset(blocks[i].eventIds)[id]
  {
    if i < n - 1 {
      BagAtLeast(blocks, n - 1, i, id);
    }
  }

  lemma {:induction false} IdCount(events: seq<Event>, n: nat, id: string)
    requires n <= |events| && UniqueIds(events)
    ensures multiset(EventIds(events, n))[id] == if exists i | 0 <= i < n :: events[i].id == id then 1 else 0
  {
    if n > 0 {
      IdCount(events, n - 1, id);
      if events[n - 1].id == id {
        assert forall i | 0 <= i < n - 1 :: events[i].id != id;
      }
    }
  }

  lemma IdsOnce(events: seq<Event>, id: string)
    requires UniqueIds(events)
    ensures multiset(EventIds(events, |events|))[id] <= 1
    ensures id in multiset(EventIds(events, |events|)) <==> HasEvent(events, id)
  {
    IdCount(events, |events|, id);
  }

  lemma IdsOfAppend(events: seq<Event>, e: Event)
    ensures EventIds(events + [e], |events| + 1) == EventIds(events, |events|) + [e.id]
  {
  }

  /** In a placed chain: no id twice, no id without an event, no event without a block. */
  lemma PlacedIds(cfg: Config, c: Chain, id: string)
    requires Placed(cfg, c)
    ensures IdBag(c.blocks, |c.blocks|)[id] <= 1
    ensures Assigned(c.blocks, id) <==> HasEvent(c.events, id)
  {
    IdsOnce(c.events, id);
    InBag(c.blocks, |c.blocks|, id);
  }

  /** An id has one block. */
  lemma OneBlock(cfg: Config, c: Chain, i: nat, j: nat, id: string)
    requires Placed(cfg, c) && i < |c.blocks| && j < |c.blocks|
    requires id in c.blocks[i].eventIds && id in c.blocks[j].eventIds
    ensures i == j
  {
    PlacedIds(cfg, c, id);
    if i < j {
      TwoBlocks(c.blocks, |c.blocks|, i, j, id);
    } else if j < i {
      TwoBlocks(c.blocks, |c.blocks|, j, i, id);
    }
  }

  // ----- bytes

  lemma FindAppend(events: seq<Event>, e: Event, id: string, i: nat)
    requires i <= |events| && (HasEvent(events[i..], id) || e.id == id)
    ensures FindEvent(events + [e], id, i) == FindEvent(events, id, i)
    decreases |events| - i
  {
    if i < |events| && events[i].id != id {
      if HasEvent(events[i..], id) {
        var j :| 0 <= j < |events[i..]| && events[i..][j].id == id;
        assert events[i + 1..][j - 1].id == id;
      }
      FindAppend(events, e, id, i + 1);
    } else if i == |events| {
      assert (events + [e])[i] == e;
    }
  }

  lemma {:induction false} BytesAppend(events: seq<Event>, e: Event, ids: seq<string>, n: nat)
    requires n <= |ids| && forall i | 0 <= i < n :: HasEvent(events, ids[i])
    ensures BlockBytes(events + [e], ids, n) == BlockBytes(events, ids, n)
  {
    if n > 0 {
      BytesAppend(events, e, ids, n - 1);
      assert events[0..] == events;
      FindAppend(events, e, ids[n - 1], 0);
    }
  }

  lemma {:induction false} BytesSnoc(events: seq<Event>, ids: seq<string>, id: string, n: nat)
    requires n <= |ids|
    ensures BlockBytes(events, ids + [id], n) == BlockBytes(events, ids, n)
  {
    if n > 0 {
      BytesSnoc(events, ids, id, n - 1);
    }
  }

  lemma IdBytesOf(events: seq<Event>, k: nat)
    requires UniqueIds(events) && k < |events|
    ensures IdBytes(events, events[k].id) == EventBytes(events[k])
  {
    var j := FindEvent(events, events[k].id, 0);
    assert j <= k;
  }

  lemma {:induction false} BytesAtLeast(events: seq<Event>, ids: seq<string>, n: nat, i: nat)
    requires i < n <= |ids|
    ensures BlockBytes(events, ids, n) >= IdBytes(events, ids[i])
  {
    if i < n - 1 {
      BytesAtLeast(events, ids, n - 1, i);
    }
  }

  // ----- hashing

  /** Sealing looks at the contents only, so sealing again changes nothing. */
  lemma SealedTwice(cfg: Config, payloads: map<string, string>, b: Block, prev: string)
    ensures Sealed(cfg, payloads, Sealed(cfg, payloads, b, prev), prev) == Sealed(cfg, payloads, b, prev)
  {
  }

  lemma RelinkFacts(cfg: Config, payloads: map<string, string>, b: Block, prev: string, psz: string)
    ensures var s := Relink(cfg, payloads, b, prev, psz);
            s == Sealed(cfg, payloads, s, prev) && Shape(s) == Shape(b) && (s.index == 0 ==> s.psz != "")
    ensures b == Sealed(cfg, payloads, b, prev) && (b.index == 0 ==> b.psz != "") ==>
            Relink(cfg, payloads, b, prev, psz) == b && PszAfter(cfg, b, psz) == psz
  {
    SealedTwice(cfg, payloads, Stamped(cfg, b, psz), prev);
  }

  lemma {:induction false} RelinkedLinked(cfg: Config, payloads: map<string, string>, blocks: seq<Block>, n: nat, psz: string)
    requires n <= |blocks|
    ensures var r := Relinked(cfg, payloads, blocks, n, psz).0;
            Linked(cfg, payloads, r) && forall i | 0 <= i < n :: Shape(r[i]) == Shape(blocks[i])
  {
    hide Relink, Sealed, Shape, PszAfter;
    if n > 0 {
      var (done, psz') := Relinked(cfg, payloads, blocks, n - 1, psz);
      RelinkFacts(cfg, payloads, blocks[n - 1], PrevHash(done, n - 1), psz');
      var s := Relink(cfg, payloads, blocks[n - 1], PrevHash(done, n - 1), psz');
      RelinkedLinked(cfg, payloads, blocks, n - 1, psz);
      SealedAppend(cfg, payloads, done, s);
    }
  }

  lemma SealedAppend(cfg: Config, payloads: map<string, string>, done: seq<Block>, b: Block)
    requires Linked(cfg, payloads, done)
    requires b == Sealed(cfg, payloads, b, PrevHash(done, |done|)) && (b.index == 0 ==> b.psz != "")
    ensures Linked(cfg, payloads, done + [b])
  {
    hide Sealed;
    var all := done + [b];
    forall i | 0 <= i < |all| ensures SealedAt(cfg, payloads, all, i) {
      assert PrevHash(all, i) == PrevHash(done, i);
      if i < |done| {
        assert SealedAt(cfg, payloads, done, i);
      }
    }
  }

  /** Relinking leaves a linked prefix alone. */
  lemma {:induction false} RelinkedKeeps(cfg: Config, payloads: map<string, string>, blocks: seq<Block>, n: nat, k: nat, psz: string)
    requires k <= n <= |blocks| && forall i | 0 <= i < k :: SealedAt(cfg, payloads, blocks, i)
    ensures var r := Relinked(cfg, payloads, blocks, n, psz); forall i | 0 <= i < k :: r.0[i] == blocks[i]
    ensures n == k ==> Relinked(cfg, payloads, blocks, n, psz).1 == psz
  {
    hide Relink, Sealed, Shape, PszAfter;
    if n > 0 {
      var (done, psz') := Relinked(cfg, payloads, blocks, n - 1, psz);
      RelinkFacts(cfg, payloads, blocks[n - 1], PrevHash(done, n - 1), psz');
      RelinkedKeeps(cfg, payloads, blocks, n - 1, if k < n then k else n - 1, psz);
      if k == n {
        assert SealedAt(cfg, payloads, blocks, n - 1);
        assert PrevHash(done, n - 1) == PrevHash(blocks, n - 1);
      }
    }
  }

  lemma {:induction false} PayloadsAppend(h: HashFn, events: seq<Event>, e: Event, n: nat)
    requires n <= |events|
    ensures PayloadHashes(h, events + [e], n) == PayloadHashes(h, events, n)
  {
    if n > 0 {
      PayloadsAppend(h, events, e, n - 1);
    }
  }

  lemma {:induction false} PartsAgree(p: map<string, string>, q: map<string, string>, ids: seq<string>, n: nat)
    requires n <= |ids| && forall i | 0 <= i < n :: Field(p, ids[i], "missing") == Field(q, ids[i], "missing")
    ensures Parts(p, ids, n) == Parts(q, ids, n)
  {
    if n > 0 {
      PartsAgree(p, q, ids, n - 1);
    }
  }

  lemma SealedAgree(cfg: Config, p: map<string, string>, q: map<string, string>, blocks: seq<Block>, i: nat)
    requires i < |blocks| && forall id | id in blocks[i].eventIds :: Field(p, id, "missing") == Field(q, id, "missing")
    ensures SealedAt(cfg, p, blocks, i) <==> SealedAt(cfg, q, blocks, i)
  {
    PartsAgree(p, q, blocks[i].eventIds, |blocks[i].eventIds|);
  }
}
