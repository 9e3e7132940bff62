/** The self-audit. */
module Audit {
  import opened Types
  import opened Canonical
  import opened Timeline
  import opened Invariant
  import opened History
  import opened Admission
  import opened Ledger

  // ----- the checks on single events

  /** What the audit is told: how content ids are made, whose events it expects, and the time. */
  datatype Inspector = Inspector(
    contentId: string -> string,
    community: string,
    chainId: string,
    networkId: string,
    now: int)

  predicate Filled(payload: map<string, string>, key: string) { key in payload && payload[key] != "" }

  predicate Agrees(payload: map<string, string>, key: string, expected: string) {
    key in payload ==> payload[key] == expected
  }

  /** The payload names an object that can be moderated. */
  predicate NamesContent(payload: map<string, string>) {
    Filled(payload, "object_id") || Filled(payload, "recipe_id") || Filled(payload, "thread_id") || Filled(payload, "reply_id")
  }

  /** The fields each kind of event has to carry. */
  predicate FieldsClean(kind: EventKind, payload: map<string, string>) {
    match kind
    case RecipeCreated => Filled(payload, "recipe_id")
    case ThreadCreated => Filled(payload, "thread_id") && Filled(payload, "recipe_id")
    case ReplyCreated => Filled(payload, "reply_id") && Filled(payload, "thread_id")
    case BlockRewardClaimed => NatField(payload, "block_index").Some? && IntField(payload, "reward") > 0
    case RewardTransferred => Filled(payload, "to_cid") && IntField(payload, "amount") > 0
    case ModeratorAdded => Filled(payload, "target_cid")
    case ModeratorRemoved => Filled(payload, "target_cid")
    case ContentFlagged => NamesContent(payload)
    case ContentHidden => NamesContent(payload)
    case ContentUnhidden => NamesContent(payload)
    case CoreTopicPinned => Filled(payload, "recipe_id")
    case CoreTopicUnpinned => Filled(payload, "recipe_id")
    case _ => true
  }

  /** The checks that appending has not made already. */
  predicate ContentClean(x: Inspector, e: Event) {
    var payload := ParseMap(e.payload);
    && e.id == x.contentId(e.payload)
    && (x.community != "" ==> Agrees(payload, "community_id", x.community))
    && Agrees(payload, "chain_id", x.chainId) && Agrees(payload, "network_id", x.networkId)
    && FieldsClean(e.kind, payload)
    && (IsPostKind(e.kind) ==> IntField(payload, "post_value") >= 0)
  }

  /** The checks that appending makes too. */
  predicate LimitsClean(cfg: Config, e: Event) { |e.payload| <= cfg.maxEventBytes && e.signature != "" }

  /** The same, but appending makes this one at its own time. */
  predicate TimeClean(cfg: Config, now: int, e: Event) { e.ts <= now + cfg.maxFutureDrift }

  predicate EventClean(cfg: Config, x: Inspector, e: Event) {
    ContentClean(x, e) && LimitsClean(cfg, e) && TimeClean(cfg, x.now, e)
  }

  // ----- the checks on blocks

  /** The checks on one block that look at hashes and at the genesis text. */
  ghost predicate HashesClean(cfg: Config, payloads: map<string, string>, blocks: seq<Block>, i: nat)
    requires i < |blocks|
  {
    var b := blocks[i];
    var expected := Sealed(cfg, payloads, b, b.prevHash);
    && (b.index == 0 ==> b.psz != "")
    && b.prevHash == PrevHash(blocks, i)
    && b.merkleRoot == expected.merkleRoot
    && b.contentHash == expected.contentHash
    && b.blockHash == expected.blockHash
  }

  ghost predicate BlockClean(cfg: Config, c: Chain, i: nat)
    requires i < |c.blocks|
  {
    var b := c.blocks[i];
    && HashesClean(cfg, Payloads(cfg, c.events), c.blocks, i)
    && |b.eventIds| <= cfg.maxBlockEvents
    && BlockBytes(c.events, b.eventIds, |b.eventIds|) <= cfg.maxBlockBytes
    && forall id | id in b.eventIds :: HasEvent(c.events, id)
  }

  /** No structural issue: clean blocks, no id twice, no event outside the blocks. */
  ghost predicate Clean(cfg: Config, c: Chain) {
    && (forall i | 0 <= i < |c.blocks| :: BlockClean(cfg, c, i))
    && (forall id :: IdBag(c.blocks, |c.blocks|)[id] <= 1)
    && (forall e | e in c.events :: Assigned(c.blocks, e.id))
  }

  predicate FitsAlone(cfg: Config, events: seq<Event>) {
    forall e | e in events :: EventBytes(e) <= cfg.maxBlockBytes
  }

  /** A valid chain passes the block checks exactly when every event fits a block alone. */
  lemma ValidIsClean(cfg: Config, c: Chain)
    requires Valid(cfg, c)
    ensures Clean(cfg, c) <==> FitsAlone(cfg, c.events)
  {
    hide Sealed, BlockBytes, EventBytes, IdBag, EventIds;
    forall id ensures IdBag(c.blocks, |c.blocks|)[id] <= 1 {
      PlacedIds(cfg, c, id);
    }
    forall e | e in c.events ensures Assigned(c.blocks, e.id) {
      var j :| 0 <= j < |c.events| && c.events[j] == e;
      PlacedIds(cfg, c, e.id);
    }
    if FitsAlone(cfg, c.events) {
      forall i | 0 <= i < |c.blocks| ensures BlockClean(cfg, c, i) {
        ValidBlockClean(cfg, c, i);
      }
    }
    if Clean(cfg, c) {
      forall e | e in c.events ensures EventBytes(e) <= cfg.maxBlockBytes {
        CleanFits(cfg, c, e);
      }
    }
  }

  lemma ValidBlockClean(cfg: Config, c: Chain, i: nat)
    requires Valid(cfg, c) && FitsAlone(cfg, c.events) && i < |c.blocks|
    ensures BlockClean(cfg, c, i)
  {
    hide Sealed, EventBytes, IdBag, EventIds, PayloadHashes;
    var b := c.blocks[i];
    assert SealedAt(cfg, Payloads(cfg, c.events), c.blocks, i);
    assert WithinLimits(cfg, c.events, b);
    forall id | id in b.eventIds ensures HasEvent(c.events, id) {
      assert Assigned(c.blocks, id);
      PlacedIds(cfg, c, id);
    }
    if |b.eventIds| == 1 {
      assert b.eventIds[0] in b.eventIds;
      var k :| 0 <= k < |c.events| && c.events[k].id == b.eventIds[0];
      IdBytesOf(c.events, k);
      assert BlockBytes(c.events, b.eventIds, 0) == 0;
    }
    SealedClean(cfg, Payloads(cfg, c.events), c.blocks, i);
  }

  lemma SealedClean(cfg: Config, payloads: map<string, string>, blocks: seq<Block>, i: nat)
    requires i < |blocks| && SealedAt(cfg, payloads, blocks, i)
    ensures HashesClean(cfg, payloads, blocks, i)
  {
    SealedPrev(cfg, payloads, blocks[i], PrevHash(blocks, i));
  }

  lemma SealedPrev(cfg: Config, payloads: map<string, string>, b: Block, prev: string)
    ensures Sealed(cfg, payloads, b, prev).prevHash == prev
  {
  }

  lemma CleanFits(cfg: Config, c: Chain, e: Event)
    requires Valid(cfg, c) && Clean(cfg, c) && e in c.events
    ensures EventBytes(e) <= cfg.maxBlockBytes
  {
    hide Sealed, IdBag, EventIds, PayloadHashes, HashesClean;
    var k :| 0 <= k < |c.events| && c.events[k] == e;
    IdBytesOf(c.events, k);
    var i :| 0 <= i < |c.blocks| && e.id in c.blocks[i].eventIds;
    var ids := c.blocks[i].eventIds;
    var j :| 0 <= j < |ids| && ids[j] == e.id;
    BytesAtLeast(c.events, ids, |ids|, j);
    assert BlockClean(cfg, c, i);
  }

  /** No issue with any event, nor with the blocks. */
  ghost predicate Passes(cfg: Config, x: Inspector, c: Chain) {
    (forall e | e in c.events :: EventClean(cfg, x, e)) && Clean(cfg, c)
  }

  // ----- whole runs

  /** No clock reading of the run is past `now`. */
  predicate ClockBy(ops: seq<Op>, n: nat, now: int)
    requires n <= |ops|
  {
    forall i | 0 <= i < n && ops[i].AppendOp? :: ops[i].now <= now
  }

  /** What appending checked stays true, whatever the operations; what it checked against the clock, until that is put back. */
  lemma RunLimits(cfg: Config, c: Chain, ops: seq<Op>, n: nat, now: int)
    requires New(c) && n <= |ops|
    ensures forall e | e in Run(cfg, c, ops, n).events :: LimitsClean(cfg, e)
    ensures ClockBy(ops, n, now) ==> forall e | e in Run(cfg, c, ops, n).events :: TimeClean(cfg, now, e)
  {
    hide Run;
    RunAdmits(cfg, c, ops, n);
    forall e | e in Run(cfg, c, ops, n).events
      ensures LimitsClean(cfg, e) && (ClockBy(ops, n, now) ==> TimeClean(cfg, now, e))
    {
      assert CameIn(cfg, ops, n, e);
    }
  }

  /**
   * After any run from a new store the audit passes exactly when every event fits a block alone, lies within the drift at
   * the time of the audit, and passes the checks that appending does not make. The drift is no matter if the clock was not
   * put back.
   */
  lemma EveryRunPasses(cfg: Config, x: Inspector, c: Chain, ops: seq<Op>, n: nat)
    requires New(c) && n <= |ops|
    ensures var r := Run(cfg, c, ops, n);
            Passes(cfg, x, r) <==>
            FitsAlone(cfg, r.events) && forall e | e in r.events :: ContentClean(x, e) && TimeClean(cfg, x.now, e)
    ensures ClockBy(ops, n, x.now) ==> forall e | e in Run(cfg, c, ops, n).events :: TimeClean(cfg, x.now, e)
  {
    hide Run, Clean, FitsAlone, ContentClean, LimitsClean, TimeClean;
    RunLimits(cfg, c, ops, n, x.now);
    EveryRunIsClean(cfg, c, ops, n);
  }

  /** Every chain reached from a new store by any run passes the block checks exactly when every event fits alone. */
  lemma EveryRunIsClean(cfg: Config, c: Chain, ops: seq<Op>, n: nat)
    requires New(c) && n <= |ops|
    ensures var r := Run(cfg, c, ops, n); Clean(cfg, r) <==> FitsAlone(cfg, r.events)
  {
    hide Clean, Run, Valid, FitsAlone;
    NewValid(cfg, c);
    RunValid(cfg, c, ops, n);
    ValidIsClean(cfg, Run(cfg, c, ops, n));
  }
}
