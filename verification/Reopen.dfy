/** What `open` rebuilds from the two logs. */
module Reopen {
  import opened Types
  import opened Text
  import opened Sorting
  import opened Timeline
  import opened Invariant
  import opened Preservation
  import opened Checkpoint
  import opened History
  import opened Ledger
  import opened Replay
  import opened Logs
  import opened BlockLog
  import opened Merkle
  import opened Sha256
  import opened Moderation
  import opened Views

  /** The chain part of `open`, once both logs are loaded. */
  function Reopened(cfg: Config, c: Chain, now: int): Chain {
    Settle(cfg, EnsureSlots(cfg, Assign(cfg, EnsureGenesis(cfg, c, now)), now))
  }

  /** `open`: the two log files, the configured genesis text and the clock. */
  function Open(cfg: Config, events: string, blocks: string, psz: string, now: int): Chain {
    Reopened(cfg, Chain(LoadEvents(events), LoadBlocks(blocks), psz), now)
  }

  // ----- the blocks

  lemma {:induction false} SlotsEmpty(cfg: Config, blocks: seq<Block>, now: int, budget: nat)
    ensures forall i | |blocks| <= i < |Slots(cfg, blocks, now, budget)| :: Slots(cfg, blocks, now, budget)[i].eventIds == []
    decreases budget
  {
    if !(blocks == [] || now - blocks[|blocks| - 1].openedUnix < cfg.interval || budget == 0) {
      var last := blocks[|blocks| - 1];
      var more := blocks + [EmptyBlock(last.index + 1, last.openedUnix + cfg.interval)];
      SlotsEmpty(cfg, more, now, budget - 1);
      SlotsExtend(cfg, more, now, budget - 1);
    }
  }

  /** On a valid chain with blocks, opening only adds slots before it settles. */
  lemma ReopenedIs(cfg: Config, c: Chain, now: int)
    requires Valid(cfg, c) && c.blocks != []
    ensures Reopened(cfg, c, now) == Settle(cfg, c.(blocks := Slots(cfg, c.blocks, now, MAX_RESERVE_PER_CHECK)))
  {
    hide Slots, Linked, Limits, IdBag, Settle, AssignUpTo;
    GenesisIdle(cfg, c, now);
    AllAssigned(cfg, c);
    AssignIdle(cfg, c);
    if c.events != [] {
      GenesisIdle(cfg, c, c.events[0].ts);
    }
  }

  /** Every stored block comes back as it was, hashes included, and only empty unconfirmed slots follow. */
  lemma ReopenKeepsBlocks(cfg: Config, c: Chain, now: int)
    requires Valid(cfg, c) && c.blocks != []
    ensures var r := Reopened(cfg, c, now);
            && Valid(cfg, r) && r.events == c.events && |c.blocks| <= |r.blocks| && r.blocks[..|c.blocks|] == c.blocks
            && forall i | |c.blocks| <= i < |r.blocks| :: r.blocks[i].eventIds == [] && !r.blocks[i].confirmed
  {
    hide Slots, Sealed, PayloadHashes, Limits, IdBag, Relinked, Settle, Reopened;
    ReopenedIs(cfg, c, now);
    var d := c.(blocks := Slots(cfg, c.blocks, now, MAX_RESERVE_PER_CHECK));
    SlotsExtend(cfg, c.blocks, now, MAX_RESERVE_PER_CHECK);
    SlotsEmpty(cfg, c.blocks, now, MAX_RESERVE_PER_CHECK);
    var bag := multiset(EventIds(c.events, |c.events|));
    SlotsOk(cfg, c.events, c.blocks, now, MAX_RESERVE_PER_CHECK, bag);
    SettleOk(cfg, d, bag);
    PrefixSealed(cfg, c, d.events, d.blocks, |c.blocks|);
    SettleKeepsFirst(cfg, d, |c.blocks|);
    var r := Reopened(cfg, c, now);
    forall i | |c.blocks| <= i < |r.blocks| ensures r.blocks[i].eventIds == [] && !r.blocks[i].confirmed {
      assert Shape(r.blocks[i]) == Shape(d.blocks[i]);
    }
  }

  lemma SettleKeepsFirst(cfg: Config, d: Chain, k: nat)
    requires k <= |d.blocks| && forall i | 0 <= i < k :: SealedAt(cfg, Payloads(cfg, d.events), d.blocks, i)
    ensures |Settle(cfg, d).blocks| == |d.blocks| && Settle(cfg, d).blocks[..k] == d.blocks[..k]
  {
    hide Sealed, PayloadHashes, Relinked;
    RelinkedKeeps(cfg, Payloads(cfg, d.events), d.blocks, |d.blocks|, k, d.psz);
  }

  // ----- the ledger

  lemma {:induction false} EmptyIndex(blocks: seq<Block>, k: nat, n: nat)
    requires k <= n <= |blocks| && forall i | k <= i < n :: blocks[i].eventIds == []
    ensures IndexUpTo(blocks, n) == IndexUpTo(blocks, k)
  {
    if k < n {
      EmptyIndex(blocks, k, n - 1);
    }
  }

  lemma {:induction false} EmptyTip(a: seq<Block>, b: seq<Block>, n: nat)
    requires |a| <= n <= |b| && b[..|a|] == a && forall i | |a| <= i < n :: !b[i].confirmed
    ensures ConfirmedTip(b, n) == Tip(a)
  {
    if |a| < n {
      EmptyTip(a, b, n - 1);
    } else {
      TipOfPrefix(a, b, |a|);
    }
  }

  lemma {:induction false} TipOfPrefix(a: seq<Block>, b: seq<Block>, n: nat)
    requires n <= |a| <= |b| && b[..|a|] == a
    ensures ConfirmedTip(b, n) == ConfirmedTip(a, n)
  {
    if n > 0 {
      TipOfPrefix(a, b, n - 1);
      assert b[n - 1] == b[..|a|][n - 1];
    }
  }

  /** Empty unconfirmed slots at the end change neither the index nor the tip. */
  lemma SlotsUnseen(a: seq<Block>, b: seq<Block>)
    requires |a| <= |b| && b[..|a|] == a
    requires forall i | |a| <= i < |b| :: b[i].eventIds == [] && !b[i].confirmed
    ensures IndexOf(b) == IndexOf(a) && Tip(b) == Tip(a)
  {
    hide ConfirmedTip, IndexUpTo;
    EmptyIndex(b, |a|, |b|);
    IndexOfPrefix(b, |a|, |a|);
    EmptyTip(a, b, |b|);
  }

  /** Reopening gives the ledger of the store that was closed, whatever slots the clock has opened since. */
  lemma ReopenKeepsLedger(cfg: Config, econ: Econ, c: Chain, now: int)
    requires Valid(cfg, c) && c.blocks != []
    ensures var r := Reopened(cfg, c, now);
            Ordered(r) == Ordered(c) && Materialized(econ, r) == Materialized(econ, c)
  {
    hide Linked, Limits, IdBag, Reopened, Economy, IndexUpTo, Sort;
    ReopenKeepsBlocks(cfg, c, now);
    var r := Reopened(cfg, c, now);
    SlotsUnseen(c.blocks, r.blocks);
    assert forall i | 0 <= i < |c.blocks| :: r.blocks[i] == r.blocks[..|c.blocks|][i];
    UnclaimableRest(econ, c.blocks, r.blocks, Ordered(r), |Ordered(r)|);
  }

  // ----- moderation and forum

  lemma SameCounts(a: seq<Block>, b: seq<Block>, id: string)
    requires |a| <= |b| && b[..|a|] == a && IndexOf(b) == IndexOf(a) && Tip(b) == Tip(a)
    ensures ReplayConfirmations(View(b, IndexOf(b), Tip(b)), id) == ReplayConfirmations(View(a, IndexOf(a), Tip(a)), id)
  {
    hide IndexUpTo;
    IndexFacts(a, |a|, id);
    if id in IndexOf(a) {
      assert b[IndexOf(a)[id]] == b[..|a|][IndexOf(a)[id]];
    }
  }

  /** Of the chain, moderation sees only how often events are confirmed. */
  lemma {:induction false} SameCountsModerate(v: View, v': View, policy: Policy, events: seq<Event>, n: nat)
    requires n <= |events| && forall id :: ReplayConfirmations(v', id) == ReplayConfirmations(v, id)
    ensures Moderated(v', policy, events, n) == Moderated(v, policy, events, n)
  {
    hide Request, Enact, Start, ReplayConfirmations;
    if n > 0 {
      SameCountsModerate(v, v', policy, events, n - 1);
    }
  }

  /** Reopening gives the moderation state and the forum too, started from one policy. */
  lemma ReopenKeepsViews(cfg: Config, econ: Econ, policy: Policy, c: Chain, now: int)
    requires Valid(cfg, c) && c.blocks != []
    ensures var r := Reopened(cfg, c, now);
            ModerationOf(policy, r) == ModerationOf(policy, c) && ForumOf(econ, policy, r) == ForumOf(econ, policy, c)
  {
    hide Linked, Limits, IdBag, Reopened, Materialized, Ordered, IndexUpTo, Moderated, ReplayConfirmations, Posted, Visible;
    ReopenKeepsBlocks(cfg, c, now);
    ReopenKeepsLedger(cfg, econ, c, now);
    var r := Reopened(cfg, c, now);
    SlotsUnseen(c.blocks, r.blocks);
    forall id ensures ReplayConfirmations(ViewOf(r), id) == ReplayConfirmations(ViewOf(c), id) {
      SameCounts(c.blocks, r.blocks, id);
    }
    SameCountsModerate(ViewOf(c), ViewOf(r), policy, Ordered(c), |Ordered(c)|);
  }

  // ----- from file to file

  /** What both files can carry. */
  predicate FilesCarry(c: Chain) {
    && (forall e | e in c.events :: Storable(e) && LogSafe(e))
    && (forall b | b in c.blocks :: StorableBlock(b) && FileSafe(b))
  }

  lemma PositionsIncrease(blocks: seq<Block>)
    requires Positions(blocks)
    ensures Increasing(blocks)
  {
  }

  lemma ValidAnyPsz(cfg: Config, c: Chain, psz: string)
    requires Valid(cfg, c)
    ensures Valid(cfg, c.(psz := psz))
  {
    hide Linked, Limits, IdBag;
  }

  /**
   * Closing and opening: from the files a valid store wrote, whatever genesis text is configured now, `open` gives the
   * same events, the same blocks followed by empty slots, the same ledger, and from any one policy the same moderation
   * state and forum.
   */
  lemma OpenRestores(cfg: Config, econ: Econ, policy: Policy, c: Chain, version: nat, chainId: string, psz: string, now: int)
    requires Valid(cfg, c) && c.blocks != [] && FilesCarry(c) && Lacks(chainId, '\n') && Lacks(cfg.networkId, '\n')
    ensures var r := Open(cfg, SaveEvents(c.events), SaveBlocks(Header(version, chainId, cfg.networkId), c.blocks), psz, now);
            && Valid(cfg, r) && r.events == c.events && |c.blocks| <= |r.blocks| && r.blocks[..|c.blocks|] == c.blocks
            && Ordered(r) == Ordered(c) && Materialized(econ, r) == Materialized(econ, c)
            && ModerationOf(policy, r) == ModerationOf(policy, c) && ForumOf(econ, policy, r) == ForumOf(econ, policy, c)
  {
    hide Linked, Limits, IdBag, Reopened, Economy, Ordered, Moderated, Posted, Visible, Storable, LogSafe, StorableBlock, FileSafe,
      LoadEvents, LoadBlocks, SaveEvents, SaveBlocks, Header, Increasing;
    PositionsIncrease(c.blocks);
    EventLogRoundTrip(c.events);
    BlockLogRoundTrip(version, chainId, cfg.networkId, c.blocks);
    var d := c.(psz := psz);
    ValidAnyPsz(cfg, c, psz);
    ReopenKeepsBlocks(cfg, d, now);
    ReopenKeepsLedger(cfg, econ, d, now);
    ReopenKeepsViews(cfg, econ, policy, d, now);
    SameOrder(c, d);
  }

  // ----- which chains the files can carry

  predicate OneLine(s: string) { Lacks(s, '\t') && Lacks(s, '\n') }

  /** Events whose ids and texts fit both files. */
  predicate CarryableEvents(events: seq<Event>) {
    forall e | e in events :: Storable(e) && LogSafe(e) && Lacks(e.id, ',') && IsBytes(e.id)
  }

  /** The numbers and the genesis text of a block fit the C++ types. */
  predicate InRange(b: Block) { b.index <= U64_MAX && IsI64(b.openedUnix) && IsBytes(b.psz) }

  lemma HexOneLine(s: string)
    requires IsHex(s)
    ensures OneLine(s)
  {
    forall i | 0 <= i < |s| ensures s[i] != '\t' && s[i] != '\n' {
      assert IsHexChar(s[i]);
    }
  }

  predicate AllHex(leaves: seq<string>) { forall l | l in leaves :: IsHex(l) }

  lemma {:induction false} LeavesHex(h: HashFn, parts: seq<string>, n: nat)
    requires HexHash(h) && n <= |parts|
    ensures AllHex(Leaves(h, parts, n))
  {
    hide IsHex;
    if n > 0 {
      LeavesHex(h, parts, n - 1);
    }
  }

  lemma {:induction false} NodesHex(h: HashFn, leaves: seq<string>, n: nat)
    requires HexHash(h) && 2 * n <= |leaves| + 1
    ensures AllHex(Nodes(h, leaves, n))
  {
    hide IsHex;
    if n > 0 {
      NodesHex(h, leaves, n - 1);
    }
  }

  lemma RootHex(h: HashFn, leaves: seq<string>)
    requires HexHash(h) && AllHex(leaves)
    ensures IsHex(Root(h, leaves))
    decreases |leaves|
  {
    hide IsHex, Nodes;
    if |leaves| == 1 {
      assert leaves[0] in leaves;
    } else if |leaves| > 1 {
      NodesHex(h, leaves, (|leaves| + 1) / 2);
      RootHex(h, Level(h, leaves));
    }
  }

  /** A sealed block has one-line hashes when its predecessor and the hardcoded genesis hashes have. */
  lemma SealedOneLine(cfg: Config, payloads: map<string, string>, b: Block, prev: string)
    requires HexHash(cfg.h) && OneLine(prev) && OneLine(cfg.genesisMerkle) && OneLine(cfg.genesisHash)
    ensures var s := Sealed(cfg, payloads, b, prev);
            OneLine(s.prevHash) && OneLine(s.merkleRoot) && OneLine(s.contentHash) && OneLine(s.blockHash)
  {
    hide Leaves, Root, Parts, Join, DigestText, IsHex, OneLine;
    var parts := Parts(payloads, b.eventIds, |b.eventIds|);
    LeavesHex(cfg.h, parts, |parts|);
    RootHex(cfg.h, Leaves(cfg.h, parts, |parts|));
    HexOneLine(Root(cfg.h, Leaves(cfg.h, parts, |parts|)));
    HexOneLine(cfg.h(Join(parts, ',')));
    HexOneLine(cfg.h(DigestText(b, prev, Root(cfg.h, Leaves(cfg.h, parts, |parts|)), cfg.h(Join(parts, ',')))));
  }

  lemma {:induction false} LinkedOneLine(cfg: Config, payloads: map<string, string>, blocks: seq<Block>, i: nat)
    requires Linked(cfg, payloads, blocks) && i < |blocks|
    requires HexHash(cfg.h) && OneLine(cfg.genesisMerkle) && OneLine(cfg.genesisHash)
    ensures TabFree(blocks[i]) && NewlineFree(blocks[i])
  {
    hide Sealed, HexHash;
    if i > 0 {
      LinkedOneLine(cfg, payloads, blocks, i - 1);
    }
    assert SealedAt(cfg, payloads, blocks, i);
    SealedOneLine(cfg, payloads, blocks[i], PrevHash(blocks, i));
  }

  lemma {:induction false} JoinBytes(ids: seq<string>)
    requires forall id | id in ids :: IsBytes(id)
    ensures IsBytes(Join(ids, ','))
  {
    if |ids| == 1 {
      assert ids[0] in ids;
    } else if ids != [] {
      var front, last := ids[..|ids| - 1], ids[|ids| - 1];
      assert last in ids && forall id | id in front :: id in ids;
      JoinBytes(front);
    }
  }

  /** Both files can carry every valid chain over such events: hashes and id lists take care of themselves. */
  lemma ValidIsCarried(cfg: Config, c: Chain)
    requires Valid(cfg, c) && HexHash(cfg.h) && OneLine(cfg.genesisMerkle) && OneLine(cfg.genesisHash)
    requires CarryableEvents(c.events) && forall b | b in c.blocks :: InRange(b)
    ensures FilesCarry(c)
  {
    hide HexHash, Linked, Limits, IdBag, EventIds, Storable, LogSafe, TabFree, NewlineFree, IsBytes, OneLine, Join;
    forall b | b in c.blocks ensures StorableBlock(b) && FileSafe(b) {
      var i :| 0 <= i < |c.blocks| && c.blocks[i] == b;
      LinkedOneLine(cfg, Payloads(cfg, c.events), c.blocks, i);
      forall id | id in b.eventIds ensures id != "" && Lacks(id, ',') && IsBytes(id) {
        IdOfEvent(cfg, c, i, id);
      }
      JoinBytes(b.eventIds);
    }
  }

  lemma IdOfEvent(cfg: Config, c: Chain, i: nat, id: string)
    requires Placed(cfg, c) && CarryableEvents(c.events) && i < |c.blocks| && id in c.blocks[i].eventIds
    ensures id != "" && Lacks(id, ',') && IsBytes(id)
  {
    hide Limits, IdBag, Storable, IsBytes;
    assert Assigned(c.blocks, id);
    PlacedIds(cfg, c, id);
    var j :| 0 <= j < |c.events| && c.events[j].id == id;
    assert c.events[j] in c.events;
  }

  /** So a store can be closed and opened after any run over such events. */
  lemma RunReopens(cfg: Config, econ: Econ, policy: Policy, c0: Chain, ops: seq<Op>, version: nat, chainId: string, psz: string, now: int)
    requires New(c0) && HexHash(cfg.h) && OneLine(cfg.genesisMerkle) && OneLine(cfg.genesisHash)
    requires Lacks(chainId, '\n') && Lacks(cfg.networkId, '\n')
    requires var c := Run(cfg, c0, ops, |ops|);
             c.blocks != [] && CarryableEvents(c.events) && forall b | b in c.blocks :: InRange(b)
    ensures var c := Run(cfg, c0, ops, |ops|);
            var r := Open(cfg, SaveEvents(c.events), SaveBlocks(Header(version, chainId, cfg.networkId), c.blocks), psz, now);
            && r.events == c.events && |c.blocks| <= |r.blocks| && r.blocks[..|c.blocks|] == c.blocks
            && Materialized(econ, r) == Materialized(econ, c)
            && ModerationOf(policy, r) == ModerationOf(policy, c) && ForumOf(econ, policy, r) == ForumOf(econ, policy, c)
  {
    hide Run, Valid, HexHash, Materialized, ModerationOf, ForumOf, Open, SaveEvents, SaveBlocks, Header, FilesCarry,
      CarryableEvents, InRange, OneLine, Lacks;
    NewValid(cfg, c0);
    RunValid(cfg, c0, ops, |ops|);
    var c := Run(cfg, c0, ops, |ops|);
    ValidIsCarried(cfg, c);
    OpenRestores(cfg, econ, policy, c, version, chainId, psz, now);
  }
}
