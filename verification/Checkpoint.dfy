/** Checkpoints, and cutting back to one. */
module Checkpoint {
  import opened Types
  import opened Timeline
  import opened Invariant
  import opened Preservation

  function Confirmations(tip: nat, index: nat): nat { if tip >= index then tip - index + 1 else 0 }

  predicate Qualifies(cfg: Config, tip: nat, b: Block) {
    b.confirmed && b.index % cfg.checkpointInterval == 0 && Confirmations(tip, b.index) >= cfg.checkpointConfirmations
  }

  // ----- the three places that look for checkpoints

  /** `latest_checkpoint_block` over the first `n` blocks: the last one that qualifies. */
  function LatestUpTo(cfg: Config, blocks: seq<Block>, tip: nat, n: nat): Option<Block>
    requires n <= |blocks|
  {
    if n == 0 then None
    else if blocks[n - 1].index != 0 && Qualifies(cfg, tip, blocks[n - 1]) then Some(blocks[n - 1])
    else LatestUpTo(cfg, blocks, tip, n - 1)
  }

  function LatestCheckpoint(cfg: Config, blocks: seq<Block>): Option<Block> {
    match Tip(blocks)
    case Some(tip) => LatestUpTo(cfg, blocks, tip, |blocks|)
    case None => None
  }

  /** The lines `persist_checkpoints` writes for the first `n` blocks. */
  function SavedUpTo(cfg: Config, blocks: seq<Block>, tip: nat, n: nat): seq<Block>
    requires n <= |blocks|
  {
    if n == 0 then []
    else
      var saved := SavedUpTo(cfg, blocks, tip, n - 1);
      if blocks[n - 1].index != 0 && Qualifies(cfg, tip, blocks[n - 1]) then saved + [blocks[n - 1]] else saved
  }

  function SavedCheckpoints(cfg: Config, blocks: seq<Block>): seq<Block> {
    match Tip(blocks)
    case Some(tip) => SavedUpTo(cfg, blocks, tip, |blocks|)
    case None => []
  }

  /** The highest qualifying index among the first `n` blocks, 0 when there is none. */
  function TargetUpTo(cfg: Config, blocks: seq<Block>, tip: nat, n: nat): nat
    requires n <= |blocks|
  {
    if n == 0 then 0
    else
      var target := TargetUpTo(cfg, blocks, tip, n - 1);
      if Qualifies(cfg, tip, blocks[n - 1]) then Max(target, blocks[n - 1].index) else target
  }

  /** The index `rollback_to_last_checkpoint` cuts back to. */
  function RollbackTarget(cfg: Config, blocks: seq<Block>): nat {
    match Tip(blocks)
    case Some(tip) => TargetUpTo(cfg, blocks, tip, |blocks|)
    case None => 0
  }

  predicate Increasing(blocks: seq<Block>) { forall i, j | 0 <= i < j < |blocks| :: blocks[i].index < blocks[j].index }

  function IndexOr0(b: Option<Block>): nat { if b.Some? then b.value.index else 0 }

  lemma {:induction false} TargetIsLatest(cfg: Config, blocks: seq<Block>, tip: nat, n: nat)
    requires n <= |blocks| && Increasing(blocks)
    ensures TargetUpTo(cfg, blocks, tip, n) == IndexOr0(LatestUpTo(cfg, blocks, tip, n))
    ensures var saved := SavedUpTo(cfg, blocks, tip, n);
            LatestUpTo(cfg, blocks, tip, n) == if saved == [] then None else Some(saved[|saved| - 1])
    ensures n > 0 ==> TargetUpTo(cfg, blocks, tip, n) <= blocks[n - 1].index
  {
    hide Qualifies;
    if n > 0 {
      TargetIsLatest(cfg, blocks, tip, n - 1);
      if n > 1 {
        assert blocks[n - 2].index < blocks[n - 1].index;
      }
    }
  }

  /** On strictly increasing indices the three searches name one checkpoint, 0 when there is none. */
  lemma CheckpointsAgree(cfg: Config, blocks: seq<Block>)
    requires Increasing(blocks)
    ensures RollbackTarget(cfg, blocks) == IndexOr0(LatestCheckpoint(cfg, blocks))
    ensures var saved := SavedCheckpoints(cfg, blocks);
            LatestCheckpoint(cfg, blocks) == if saved == [] then None else Some(saved[|saved| - 1])
  {
    if Tip(blocks).Some? {
      TargetIsLatest(cfg, blocks, Tip(blocks).value, |blocks|);
    }
  }

  // ----- rollback

  function RetainedUpTo(blocks: seq<Block>, target: nat, n: nat): (kept: seq<Block>)
    requires n <= |blocks|
    ensures |kept| <= n
  {
    if n == 0 then []
    else
      var kept := RetainedUpTo(blocks, target, n - 1);
      if blocks[n - 1].index > target then kept else kept + [blocks[n - 1]]
  }

  function KeptEvents(events: seq<Event>, blocks: seq<Block>, n: nat): seq<Event>
    requires n <= |events|
  {
    if n == 0 then []
    else
      var kept := KeptEvents(events, blocks, n - 1);
      if Assigned(blocks, events[n - 1].id) then kept + [events[n - 1]] else kept
  }

  /** The blocks rollback keeps, with a new genesis block when it keeps none. */
  function Remaining(c: Chain, target: nat, now: int): (kept: seq<Block>)
    ensures kept != []
  {
    var kept := RetainedUpTo(c.blocks, target, |c.blocks|);
    if kept == [] then [EmptyBlock(0, now).(psz := c.psz)] else kept
  }

  /** `rollback_to_last_checkpoint`. */
  function Rollback(cfg: Config, c: Chain, now: int): Chain {
    var c0 := EnsureGenesis(cfg, c, now);
    var target := RollbackTarget(cfg, c0.blocks);
    var retained := RetainedUpTo(c0.blocks, target, |c0.blocks|);
    var events := KeptEvents(c0.events, retained, |c0.events|);
    Settle(cfg, Chain(events, Remaining(c0, target, now), c0.psz))
  }

  lemma {:induction false} RetainedIsPrefix(blocks: seq<Block>, target: nat, n: nat)
    requires n <= |blocks| && Positions(blocks)
    ensures RetainedUpTo(blocks, target, n) == blocks[..Min(n, target + 1)]
  {
    if n > 0 {
      RetainedIsPrefix(blocks, target, n - 1);
    }
  }

  lemma {:induction false} KeptIn(events: seq<Event>, blocks: seq<Block>, n: nat, e: Event)
    requires n <= |events|
    ensures e in KeptEvents(events, blocks, n) <==> e in events[..n] && Assigned(blocks, e.id)
  {
    if n > 0 {
      KeptIn(events, blocks, n - 1, e);
      assert events[..n] == events[..n - 1] + [events[n - 1]];
    }
  }

  lemma {:induction false} KeptUnique(events: seq<Event>, blocks: seq<Block>, n: nat)
    requires n <= |events| && UniqueIds(events)
    ensures UniqueIds(KeptEvents(events, blocks, n))
  {
    if n > 0 {
      KeptUnique(events, blocks, n - 1);
      forall e | e in KeptEvents(events, blocks, n - 1) ensures e.id != events[n - 1].id {
        KeptIn(events, blocks, n - 1, e);
      }
    }
  }

  lemma {:induction false} KeptAll(events: seq<Event>, blocks: seq<Block>, n: nat)
    requires n <= |events| && forall i | 0 <= i < n :: Assigned(blocks, events[i].id)
    ensures KeptEvents(events, blocks, n) == events[..n]
  {
    if n > 0 {
      KeptAll(events, blocks, n - 1);
    }
  }

  lemma {:induction false} BagOfPrefix(blocks: seq<Block>, k: nat, n: nat, id: string)
    requires k <= n <= |blocks|
    ensures IdBag(blocks[..k], k)[id] <= IdBag(blocks, n)[id]
  {
    if k == n {
      BagOfShape(blocks[..k], blocks, k);
    } else {
      BagOfPrefix(blocks, k, n - 1, id);
    }
  }

  /** After the cut every id still counts exactly once on both sides. */
  lemma CutBag(cfg: Config, c: Chain, k: nat)
    requires Placed(cfg, c) && k <= |c.blocks|
    ensures var kept := KeptEvents(c.events, c.blocks[..k], |c.events|);
            UniqueIds(kept) && IdBag(c.blocks[..k], k) == multiset(EventIds(kept, |kept|))
  {
    var blocks := c.blocks[..k];
    var kept := KeptEvents(c.events, blocks, |c.events|);
    KeptUnique(c.events, blocks, |c.events|);
    var a, b := IdBag(blocks, k), multiset(EventIds(kept, |kept|));
    forall id: string ensures a[id] == b[id] {
      BagOfPrefix(c.blocks, k, |c.blocks|, id);
      PlacedIds(cfg, c, id);
      IdsOnce(kept, id);
      InBag(blocks, k, id);
      CutMember(cfg, c, k, id);
    }
  }

  lemma CutMember(cfg: Config, c: Chain, k: nat, id: string)
    requires Placed(cfg, c) && k <= |c.blocks|
    ensures HasEvent(KeptEvents(c.events, c.blocks[..k], |c.events|), id) <==> Assigned(c.blocks[..k], id)
  {
    hide Limits;
    var kept := KeptEvents(c.events, c.blocks[..k], |c.events|);
    if HasEvent(kept, id) {
      var i :| 0 <= i < |kept| && kept[i].id == id;
      KeptIn(c.events, c.blocks[..k], |c.events|, kept[i]);
    }
    if Assigned(c.blocks[..k], id) {
      var i :| 0 <= i < k && id in c.blocks[..k][i].eventIds;
      assert id in c.blocks[i].eventIds;
      PlacedIds(cfg, c, id);
      var j :| 0 <= j < |c.events| && c.events[j].id == id;
      assert c.events[..|c.events|] == c.events;
      KeptIn(c.events, c.blocks[..k], |c.events|, c.events[j]);
    }
  }

  lemma BytesOfKept(events: seq<Event>, kept: seq<Event>, id: string)
    requires UniqueIds(events) && UniqueIds(kept) && HasEvent(kept, id) && forall e | e in kept :: e in events
    ensures IdBytes(kept, id) == IdBytes(events, id)
  {
    var i :| 0 <= i < |kept| && kept[i].id == id;
    assert kept[i] in events;
    var j :| 0 <= j < |events| && events[j] == kept[i];
    IdBytesOf(kept, i);
    IdBytesOf(events, j);
  }

  lemma {:induction false} BlockBytesOfKept(events: seq<Event>, kept: seq<Event>, ids: seq<string>, n: nat)
    requires n <= |ids| && UniqueIds(events) && UniqueIds(kept)
    requires (forall e | e in kept :: e in events) && (forall i | 0 <= i < n :: HasEvent(kept, ids[i]))
    ensures BlockBytes(kept, ids, n) == BlockBytes(events, ids, n)
  {
    hide IdBytes;
    if n > 0 {
      BlockBytesOfKept(events, kept, ids, n - 1);
      BytesOfKept(events, kept, ids[n - 1]);
    }
  }

  /** Cutting a placed chain after `k` blocks leaves a placed chain. */
  lemma CutPlaced(cfg: Config, c: Chain, k: nat)
    requires Placed(cfg, c) && k <= |c.blocks|
    ensures Placed(cfg, Chain(KeptEvents(c.events, c.blocks[..k], |c.events|), c.blocks[..k], c.psz))
  {
    hide BlockBytes, IdBag, KeptEvents;
    var blocks := c.blocks[..k];
    var kept := KeptEvents(c.events, blocks, |c.events|);
    CutBag(cfg, c, k);
    forall e | e in kept ensures e in c.events {
      KeptIn(c.events, blocks, |c.events|, e);
      assert c.events[..|c.events|] == c.events;
    }
    forall i | 0 <= i < k ensures WithinLimits(cfg, kept, blocks[i]) {
      var ids := c.blocks[i].eventIds;
      assert WithinLimits(cfg, c.events, c.blocks[i]);
      forall j | 0 <= j < |ids| ensures HasEvent(kept, ids[j]) {
        assert ids[j] in blocks[i].eventIds;
        assert Assigned(blocks, ids[j]);
        CutMember(cfg, c, k, ids[j]);
      }
      BlockBytesOfKept(c.events, kept, ids, |ids|);
    }
  }

  // ----- hashes after the cut

  lemma {:induction false} PayloadOf(h: HashFn, events: seq<Event>, n: nat, k: nat)
    requires k < n <= |events| && UniqueIds(events)
    ensures var p := PayloadHashes(h, events, n); events[k].id in p && p[events[k].id] == h(events[k].payload)
  {
    if k < n - 1 {
      PayloadOf(h, events, n - 1, k);
    }
  }

  lemma PayloadOfKept(h: HashFn, events: seq<Event>, kept: seq<Event>, id: string)
    requires UniqueIds(events) && UniqueIds(kept) && HasEvent(kept, id) && forall e | e in kept :: e in events
    ensures Field(PayloadHashes(h, kept, |kept|), id, "missing") == Field(PayloadHashes(h, events, |events|), id, "missing")
  {
    var i :| 0 <= i < |kept| && kept[i].id == id;
    assert kept[i] in events;
    var j :| 0 <= j < |events| && events[j] == kept[i];
    PayloadOf(h, kept, |kept|, i);
    PayloadOf(h, events, |events|, j);
  }

  /** The retained blocks are still linked, over the kept events. */
  lemma CutLinked(cfg: Config, c: Chain, k: nat)
    requires Valid(cfg, c) && k <= |c.blocks|
    ensures Linked(cfg, Payloads(cfg, KeptEvents(c.events, c.blocks[..k], |c.events|)), c.blocks[..k])
  {
    hide Sealed, KeptEvents, PayloadHashes, Limits, IdBag;
    var blocks := c.blocks[..k];
    var kept := KeptEvents(c.events, blocks, |c.events|);
    KeptUnique(c.events, blocks, |c.events|);
    forall e | e in kept ensures e in c.events {
      KeptIn(c.events, blocks, |c.events|, e);
      assert c.events[..|c.events|] == c.events;
    }
    forall i | 0 <= i < k ensures SealedAt(cfg, Payloads(cfg, kept), blocks, i) {
      assert SealedAt(cfg, Payloads(cfg, c.events), c.blocks, i);
      assert PrevHash(blocks, i) == PrevHash(c.blocks, i);
      forall id | id in blocks[i].eventIds
        ensures Field(Payloads(cfg, c.events), id, "missing") == Field(Payloads(cfg, kept), id, "missing")
      {
        assert Assigned(blocks, id);
        CutMember(cfg, c, k, id);
        PayloadOfKept(cfg.h, c.events, kept, id);
      }
      SealedAgree(cfg, Payloads(cfg, c.events), Payloads(cfg, kept), blocks, i);
    }
  }

  /** A linked chain is settled already. */
  lemma SettleFixed(cfg: Config, c: Chain)
    requires Linked(cfg, Payloads(cfg, c.events), c.blocks)
    ensures Settle(cfg, c) == c
  {
    hide Sealed, PayloadHashes;
    RelinkedKeeps(cfg, Payloads(cfg, c.events), c.blocks, |c.blocks|, |c.blocks|, c.psz);
    var r := Relinked(cfg, Payloads(cfg, c.events), c.blocks, |c.blocks|, c.psz);
    assert r.0 == c.blocks;
  }

  /** A valid chain with blocks has its genesis text. */
  lemma GenesisIdle(cfg: Config, c: Chain, now: int)
    requires Valid(cfg, c) && c.blocks != []
    ensures EnsureGenesis(cfg, c, now) == c
  {
    hide Sealed, PayloadHashes, Limits, IdBag;
    assert SealedAt(cfg, Payloads(cfg, c.events), c.blocks, 0);
  }

  lemma TargetInRange(cfg: Config, blocks: seq<Block>)
    requires Positions(blocks) && blocks != []
    ensures RollbackTarget(cfg, blocks) < |blocks|
  {
    if Tip(blocks).Some? {
      TargetIsLatest(cfg, blocks, Tip(blocks).value, |blocks|);
    }
  }

  /**
   * On a valid chain, rollback keeps exactly the blocks up to the checkpoint, untouched to the last hash, and the
   * events in them.
   */
  lemma RollbackCuts(cfg: Config, c: Chain, now: int)
    requires Valid(cfg, c) && c.blocks != []
    ensures var k := RollbackTarget(cfg, c.blocks) + 1;
            k <= |c.blocks| &&
            Rollback(cfg, c, now) == Chain(KeptEvents(c.events, c.blocks[..k], |c.events|), c.blocks[..k], c.psz)
  {
    hide Sealed, PayloadHashes, Limits, IdBag, KeptEvents, Relinked;
    GenesisIdle(cfg, c, now);
    TargetInRange(cfg, c.blocks);
    var k := RollbackTarget(cfg, c.blocks) + 1;
    RetainedIsPrefix(c.blocks, k - 1, |c.blocks|);
    CutLinked(cfg, c, k);
    SettleFixed(cfg, Chain(KeptEvents(c.events, c.blocks[..k], |c.events|), c.blocks[..k], c.psz));
  }

  /** Rolling back keeps the invariant. */
  lemma RollbackValid(cfg: Config, c: Chain, now: int)
    requires Valid(cfg, c)
    ensures Valid(cfg, Rollback(cfg, c, now))
  {
    hide Sealed, PayloadHashes, Limits, IdBag, KeptEvents, Relinked;
    if c.blocks == [] {
      RollbackEmpty(cfg, c, now);
    } else {
      RollbackCuts(cfg, c, now);
      var k := RollbackTarget(cfg, c.blocks) + 1;
      CutPlaced(cfg, c, k);
      CutLinked(cfg, c, k);
    }
  }

  lemma RollbackEmpty(cfg: Config, c: Chain, now: int)
    requires Valid(cfg, c) && c.blocks == []
    ensures Valid(cfg, Rollback(cfg, c, now))
  {
    hide Sealed, Relinked, BlockBytes;
    assert |EventIds(c.events, |c.events|)| == |multiset(EventIds(c.events, |c.events|))| == 0;
    var c0 := EnsureGenesis(cfg, c, now);
    RetainedIsPrefix(c0.blocks, RollbackTarget(cfg, c0.blocks), 1);
    assert c0.blocks[..1] == c0.blocks;
    GenesisOk(cfg, c, now, multiset{});
    var c1 := Chain([], c0.blocks, c0.psz);
    assert Rollback(cfg, c, now) == Settle(cfg, c1);
    SettleOk(cfg, c1, multiset{});
  }

  // ----- recovering again and again

  lemma {:induction false} TipFacts(blocks: seq<Block>, n: nat)
    requires n <= |blocks|
    ensures var tip := ConfirmedTip(blocks, n);
            && (tip.None? <==> forall i | 0 <= i < n :: !blocks[i].confirmed)
            && (tip.Some? ==> exists i | 0 <= i < n :: blocks[i].confirmed && blocks[i].index == tip.value)
            && (tip.Some? ==> forall i | 0 <= i < n && blocks[i].confirmed :: blocks[i].index <= tip.value)
  {
    if n > 0 {
      TipFacts(blocks, n - 1);
      var tip := ConfirmedTip(blocks, n - 1);
      if tip.Some? {
        var i :| 0 <= i < n - 1 && blocks[i].confirmed && blocks[i].index == tip.value;
        assert 0 <= i < n;
      }
    }
  }

  lemma {:induction false} TargetFacts(cfg: Config, blocks: seq<Block>, tip: nat, n: nat)
    requires n <= |blocks|
    ensures var t := TargetUpTo(cfg, blocks, tip, n);
            && (t == 0 || exists i | 0 <= i < n :: Qualifies(cfg, tip, blocks[i]) && blocks[i].index == t)
            && (forall i | 0 <= i < n && Qualifies(cfg, tip, blocks[i]) :: blocks[i].index <= t)
  {
    hide Qualifies;
    if n > 0 {
      TargetFacts(cfg, blocks, tip, n - 1);
      var t := TargetUpTo(cfg, blocks, tip, n - 1);
      if t != 0 {
        var i :| 0 <= i < n - 1 && Qualifies(cfg, tip, blocks[i]) && blocks[i].index == t;
        assert 0 <= i < n;
      }
    }
  }

  /** Cut right after a positive checkpoint, the tip is the checkpoint itself. */
  lemma TipAfterCut(cfg: Config, blocks: seq<Block>)
    requires Positions(blocks) && RollbackTarget(cfg, blocks) > 0
    ensures var t := RollbackTarget(cfg, blocks);
            t < |blocks| && blocks[t].confirmed && t % cfg.checkpointInterval == 0 && Tip(blocks[..t + 1]) == Some(t)
  {
    var t := RollbackTarget(cfg, blocks);
    var tip := Tip(blocks).value;
    TargetFacts(cfg, blocks, tip, |blocks|);
    var i :| 0 <= i < |blocks| && Qualifies(cfg, tip, blocks[i]) && blocks[i].index == t;
    var cut := blocks[..t + 1];
    TipFacts(cut, t + 1);
    assert cut[t].confirmed;
  }

  /** With at least two required confirmations, recovering again strictly lowers a positive checkpoint. */
  lemma RollbackLowers(cfg: Config, c: Chain, now: int)
    requires Valid(cfg, c) && RollbackTarget(cfg, c.blocks) > 0 && cfg.checkpointConfirmations >= 2
    ensures RollbackTarget(cfg, Rollback(cfg, c, now).blocks) < RollbackTarget(cfg, c.blocks)
  {
    hide Sealed, PayloadHashes, Limits, IdBag, KeptEvents, Relinked;
    var t := RollbackTarget(cfg, c.blocks);
    TipAfterCut(cfg, c.blocks);
    RollbackCuts(cfg, c, now);
    var cut := c.blocks[..t + 1];
    TargetFacts(cfg, cut, t, t + 1);
    var t' := TargetUpTo(cfg, cut, t, t + 1);
    if t' != 0 {
      var i :| 0 <= i < t + 1 && Qualifies(cfg, t, cut[i]) && cut[i].index == t';
      assert cut[i].index == i;
    }
  }

  /** With one required confirmation, or at genesis, recovering again changes nothing. */
  lemma RollbackSettles(cfg: Config, c: Chain, now: int, again: int)
    requires Valid(cfg, c)
    requires cfg.checkpointConfirmations == 1 || RollbackTarget(cfg, c.blocks) == 0
    ensures Rollback(cfg, Rollback(cfg, c, now), again) == Rollback(cfg, c, now)
  {
    hide Sealed, PayloadHashes, Limits, IdBag, KeptEvents, Relinked;
    var r := Rollback(cfg, c, now);
    RollbackValid(cfg, c, now);
    RollbackKeepsTarget(cfg, c, now);
    RollbackCuts(cfg, r, again);
    AllAssigned(cfg, r);
    assert r.blocks[..|r.blocks|] == r.blocks && r.events[..|r.events|] == r.events;
    KeptAll(r.events, r.blocks, |r.events|);
  }

  lemma RollbackKeepsTarget(cfg: Config, c: Chain, now: int)
    requires Valid(cfg, c)
    requires cfg.checkpointConfirmations == 1 || RollbackTarget(cfg, c.blocks) == 0
    ensures var r := Rollback(cfg, c, now); r.blocks != [] && RollbackTarget(cfg, r.blocks) == |r.blocks| - 1
  {
    hide Sealed, PayloadHashes, Limits, IdBag, KeptEvents, Relinked;
    var r := Rollback(cfg, c, now);
    RollbackValid(cfg, c, now);
    var t := RollbackTarget(cfg, c.blocks);
    if c.blocks == [] {
      RollbackOfEmpty(cfg, c, now);
      TargetInRange(cfg, r.blocks);
    } else {
      RollbackCuts(cfg, c, now);
      if t == 0 {
        TargetInRange(cfg, r.blocks);
      } else {
        TipAfterCut(cfg, c.blocks);
        TargetFacts(cfg, r.blocks, t, t + 1);
        assert r.blocks[t] == c.blocks[t];
        assert Qualifies(cfg, t, r.blocks[t]);
        TargetInRange(cfg, r.blocks);
      }
    }
  }

  lemma RollbackOfEmpty(cfg: Config, c: Chain, now: int)
    requires c.blocks == []
    ensures |Rollback(cfg, c, now).blocks| == 1
  {
    hide Sealed, Relink;
    var c0 := EnsureGenesis(cfg, c, now);
    assert c0.blocks[0].index == 0;
    RetainedIsPrefix(c0.blocks, RollbackTarget(cfg, c0.blocks), 1);
  }
}
