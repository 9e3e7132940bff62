/** The store: mutable fields, the loops that update them, and what every operation leaves behind. */
module Storage {
  import opened Types
  import opened Text
  import opened Sorting
  import opened Merkle
  import opened Timeline
  import opened Invariant
  import opened Preservation
  import opened Decimal
  import opened Canonical
  import opened Checkpoint
  import opened Ledger
  import opened Replay
  import opened Moderation
  import opened Views
  import opened Logs
  import opened BlockLog
  import opened Audit
  import opened StoreSteps
  import Reopen

  class Store {
    // settings
    const cfg: Config
    const econ: Econ
    const header: string

    // the timeline
    var events: seq<Event>
    var blocks: seq<Block>
    var genesisPsz: string
    var eventToBlock: map<string, nat>

    // the ledger
    var balances: map<string, int>
    var claimed: map<nat, string>
    var nonces: map<string, nat>
    var issued: int
    var burned: int
    var refused: map<string, Reason>

    // moderation
    var policy: Policy
    var moderators: set<string>
    var flags: map<string, nat>
    var hidden: set<string>
    var autoHidden: set<string>
    var pins: map<string, bool>
    var denied: map<string, Denial>

    // the forum
    var recipes: map<string, Recipe>
    var threads: map<string, Thread>
    var replies: map<string, seq<Reply>>
    var ratings: map<string, Rating>
    var thumbs: map<string, nat>

    // the files
    var eventLog: string
    var blockLog: string
    var checkpoints: seq<Block>

    constructor (cfg: Config, units: int, policy: Policy, header: string, psz: string)
      ensures this.cfg == cfg && this.econ == Econ(cfg.h, units) && this.policy == policy && this.header == header
      ensures Durable() == Chain([], [], psz) && Indexed()
      ensures Money() == EMPTY && Boards() == NOTHING
      ensures Community() == Mod({}, map[], {}, {}, map[], policy, map[])
      ensures eventLog == "" && blockLog == "" && checkpoints == []
    {
      this.cfg, this.econ, this.policy, this.header := cfg, Econ(cfg.h, units), policy, header;
      events, blocks, genesisPsz, eventToBlock := [], [], psz, map[];
      balances, claimed, nonces, issued, burned, refused := map[], map[], map[], 0, 0, map[];
      moderators, flags, hidden, autoHidden, pins, denied := {}, map[], {}, {}, map[], map[];
      recipes, threads, replies, ratings, thumbs := map[], map[], map[], map[], map[];
      eventLog, blockLog, checkpoints := "", "", [];
    }

    /** `open`, from the text of the two logs; a missing file reads as empty text. */
    constructor Open(cfg: Config, units: int, policy: Policy, header: string, psz: string,
                     eventText: string, blockText: string, now: int)
      ensures this.cfg == cfg && this.econ == Econ(cfg.h, units) && this.header == header
      ensures Durable() == Reopen.Open(cfg, eventText, blockText, psz, now) && Indexed()
      ensures Replayed(ModerationOf(policy, Chain(LoadEvents(eventText), [], psz)).policy)
      ensures eventText == SaveEvents(events) ==> OnDisk()
    {
      this.cfg, this.econ, this.policy, this.header := cfg, Econ(cfg.h, units), policy, header;
      events, blocks, genesisPsz, eventToBlock := [], [], psz, map[];
      balances, claimed, nonces, issued, burned, refused := map[], map[], map[], 0, 0, map[];
      moderators, flags, hidden, autoHidden, pins, denied := {}, map[], {}, {}, map[], map[];
      recipes, threads, replies, ratings, thumbs := map[], map[], map[], map[], map[];
      eventLog, blockLog, checkpoints := eventText, blockText, [];
      new;
      hide Reopen.Reopened, Replayed, ModerationOf, LoadEvents, LoadBlocks, SaveEvents, SaveBlocks, SavedCheckpoints;
      LoadEventsFirst(eventText);
      LoadBlocksNext(blockText, now);
      Publish();
    }

    function Money(): Ledger
      reads `balances, `claimed, `nonces, `issued, `burned, `refused
    {
      Ledger(balances, claimed, nonces, issued, burned, refused)
    }

    function Community(): Mod
      reads `policy, `moderators, `flags, `hidden, `autoHidden, `pins, `denied
    {
      Mod(moderators, flags, hidden, autoHidden, pins, policy, denied)
    }

    function Boards(): Forum
      reads `recipes, `threads, `replies, `ratings, `thumbs
    {
      Forum(recipes, threads, replies, ratings, thumbs)
    }

    function Durable(): Chain
      reads `events, `blocks, `genesisPsz
    {
      Chain(events, blocks, genesisPsz)
    }

    predicate Indexed()
      reads `blocks, `eventToBlock
    {
      eventToBlock == IndexOf(blocks)
    }

    // ----- slots

    method EnsureGenesisBlock(now: int)
      modifies `blocks, `genesisPsz
      ensures Durable() == EnsureGenesis(cfg, old(Durable()), now)
    {
      if blocks != [] {
        if blocks[0].psz == "" && genesisPsz != "" {
          blocks := blocks[0 := blocks[0].(psz := genesisPsz)];
        }
        return;
      }
      if genesisPsz == "" {
        genesisPsz := DefaultPsz(cfg, now);
      }
      var genesis := EmptyBlock(0, now);
      genesis := genesis.(psz := genesisPsz, merkleRoot := cfg.genesisMerkle, blockHash := cfg.genesisHash);
      blocks := blocks + [genesis];
    }

    method EnsureBlockSlotsUntil(now: int)
      modifies `blocks, `genesisPsz
      ensures Durable() == EnsureSlots(cfg, old(Durable()), now)
    {
      hide Slots;
      EnsureGenesisBlock(now);
      ghost var start, psz := blocks, genesisPsz;
      var created := 0;
      while blocks != [] && now - blocks[|blocks| - 1].openedUnix >= cfg.interval && created < MAX_RESERVE_PER_CHECK
        invariant created <= MAX_RESERVE_PER_CHECK && genesisPsz == psz
        invariant Slots(cfg, blocks, now, MAX_RESERVE_PER_CHECK - created) == Slots(cfg, start, now, MAX_RESERVE_PER_CHECK)
        decreases MAX_RESERVE_PER_CHECK - created
      {
        SlotsNext(cfg, blocks, now, MAX_RESERVE_PER_CHECK - created);
        var last := blocks[|blocks| - 1];
        blocks := blocks + [EmptyBlock(last.index + 1, last.openedUnix + cfg.interval)];
        created := created + 1;
      }
      SlotsNext(cfg, blocks, now, MAX_RESERVE_PER_CHECK - created);
    }

    // ----- the index

    method RebuildEventToBlockIndex()
      modifies `eventToBlock
      ensures Indexed()
    {
      eventToBlock := map[];
      for i := 0 to |blocks|
        invariant eventToBlock == IndexUpTo(blocks, i)
      {
        var ids := blocks[i].eventIds;
        ghost var before := eventToBlock;
        for j := 0 to |ids|
          invariant eventToBlock == IndexIds(before, ids, i, j)
        {
          eventToBlock := eventToBlock[ids[j] := i];
        }
      }
    }

    // ----- placing events

    method BlockEventBytes(b: Block) returns (total: nat)
      ensures total == BlockBytes(events, b.eventIds, |b.eventIds|)
    {
      total := 0;
      for i := 0 to |b.eventIds|
        invariant total == BlockBytes(events, b.eventIds, i)
      {
        total := total + |b.eventIds[i]|;
        var k := FindEvent(events, b.eventIds[i], 0);
        if k < |events| {
          total := total + |events[k].payload| + |events[k].signature| + 24;
        } else {
          total := total + 64;
        }
      }
    }

    method FindRoom(bytes: nat) returns (k: nat)
      ensures k == FindSlot(cfg, events, blocks, bytes, 0)
    {
      k := 0;
      while k < |blocks|
        invariant k <= |blocks| && FindSlot(cfg, events, blocks, bytes, 0) == FindSlot(cfg, events, blocks, bytes, k)
      {
        if !blocks[k].confirmed && |blocks[k].eventIds| < cfg.maxBlockEvents {
          var used := BlockEventBytes(blocks[k]);
          if used + bytes <= cfg.maxBlockBytes {
            return;
          }
        }
        k := k + 1;
      }
    }

    method CollectAssigned() returns (taken: set<string>)
      ensures forall id :: id in taken <==> Assigned(blocks, id)
    {
      taken := {};
      for i := 0 to |blocks|
        invariant forall id :: id in taken <==> Assigned(blocks[..i], id)
      {
        var ids := blocks[i].eventIds;
        ghost var before := taken;
        for j := 0 to |ids|
          invariant forall id :: id in taken <==> id in before || id in ids[..j]
        {
          taken := taken + {ids[j]};
          assert ids[..j + 1] == ids[..j] + [ids[j]];
        }
        assert ids[..|ids|] == ids;
        AssignedNext(blocks, i);
      }
      assert blocks[..|blocks|] == blocks;
    }

    method AssignUnassignedEvents()
      modifies `blocks, `genesisPsz, `eventToBlock
      ensures Durable() == Assign(cfg, old(Durable())) && Indexed()
    {
      hide Place;
      if events == [] {
        RebuildEventToBlockIndex();
        return;
      }
      EnsureGenesisBlock(events[0].ts);
      ghost var start, psz := blocks, genesisPsz;
      var taken := CollectAssigned();
      for i := 0 to |events|
        invariant genesisPsz == psz
        invariant blocks == AssignUpTo(cfg, events, start, i)
        invariant forall id :: id in taken <==> Assigned(blocks, id)
      {
        if events[i].id in taken {
          continue;
        }
        PlaceEvent(events[i]);
        taken := taken + {events[i].id};
      }
      RebuildEventToBlockIndex();
    }

    method PlaceEvent(e: Event)
      modifies `blocks
      ensures blocks == Place(cfg, events, old(blocks), e)
      ensures forall id :: Assigned(blocks, id) <==> Assigned(old(blocks), id) || id == e.id
    {
      var bytes := |e.id| + |e.payload| + |e.signature| + 24;
      var slot := FindRoom(bytes);
      PlaceAssigns(cfg, events, blocks, e);
      if slot == |blocks| {
        blocks := blocks + [EmptyBlock(NextIndex(blocks), e.ts)];
      }
      var b := blocks[slot];
      if b.reserved {
        b := b.(backfilled := true);
      }
      b := b.(reserved := false);
      b := b.(eventIds := b.eventIds + [e.id]);
      blocks := blocks[slot := b];
    }

    // ----- hashes

    method HashPayloads() returns (payloads: map<string, string>)
      ensures payloads == Payloads(cfg, events)
    {
      payloads := map[];
      for i := 0 to |events|
        invariant payloads == PayloadHashes(cfg.h, events, i)
      {
        payloads := payloads[events[i].id := cfg.h(events[i].payload)];
      }
    }

    /** The Merkle root and the content hash of a list of ids. */
    method HashContents(payloads: map<string, string>, ids: seq<string>) returns (merkle: string, content: string)
      ensures var parts := Parts(payloads, ids, |ids|);
              merkle == Root(cfg.h, Leaves(cfg.h, parts, |parts|)) && content == cfg.h(Join(parts, ','))
    {
      hide Root, Join;
      var leaves: seq<string> := [];
      var parts: seq<string> := [];
      for i := 0 to |ids|
        invariant parts == Parts(payloads, ids, i) && leaves == Leaves(cfg.h, parts, i)
      {
        LeavesAppend(cfg.h, parts, Part(payloads, ids[i]), i);
        if ids[i] in payloads {
          leaves := leaves + [cfg.h(ids[i] + ":" + payloads[ids[i]])];
          parts := parts + [ids[i] + ":" + payloads[ids[i]]];
        } else {
          leaves := leaves + [cfg.h(ids[i] + ":" + "missing")];
          parts := parts + [ids[i] + ":" + "missing"];
        }
      }
      merkle := ComputeMerkleRoot(cfg.h, leaves);
      content := cfg.h(Join(parts, ','));
    }

    method SealBlock(payloads: map<string, string>, block: Block, prev: string) returns (b: Block)
      ensures b == Sealed(cfg, payloads, block, prev)
    {
      hide Root, Leaves, Parts, Join, DigestText;
      b := block;
      var merkle, content := HashContents(payloads, b.eventIds);
      b := b.(merkleRoot := merkle, contentHash := content, prevHash := prev);
      DigestIgnoresHashes(b, block, prev, merkle, content);
      b := b.(blockHash := cfg.h(DigestText(b, b.prevHash, b.merkleRoot, b.contentHash)));
      if b.index == 0 && b.eventIds == [] {
        if cfg.genesisMerkle != "" {
          b := b.(merkleRoot := cfg.genesisMerkle);
        }
        if cfg.genesisHash != "" {
          b := b.(blockHash := cfg.genesisHash);
        }
      }
    }

    /** One turn of the relinking loop: block `i` and, if it had to be made up, the genesis text. */
    method RelinkBlock(payloads: map<string, string>, i: nat, prev: string)
      requires i < |blocks|
      modifies `blocks, `genesisPsz
      ensures blocks == old(blocks)[i := Relink(cfg, payloads, old(blocks)[i], prev, old(genesisPsz))]
      ensures genesisPsz == PszAfter(cfg, old(blocks)[i], old(genesisPsz))
    {
      hide Sealed;
      var b := blocks[i];
      if b.index == 0 && b.psz == "" {
        if genesisPsz == "" {
          genesisPsz := DefaultPsz(cfg, b.openedUnix);
        }
        b := b.(psz := genesisPsz);
      }
      b := SealBlock(payloads, b, prev);
      blocks := blocks[i := b];
    }

    method RecomputeBlockHashes()
      modifies `blocks, `genesisPsz, `eventToBlock
      ensures Durable() == Settle(cfg, old(Durable())) && Indexed()
    {
      hide Relinked, Relink, PszAfter, PayloadHashes, IndexUpTo;
      RebuildEventToBlockIndex();
      var payloads := HashPayloads();
      ghost var start, psz, index := blocks, genesisPsz, eventToBlock;
      var prev := "genesis";
      NothingRelinked(cfg, payloads, start, psz);
      for i := 0 to |blocks|
        invariant eventToBlock == index
        invariant |blocks| == |start| && forall k | i <= k < |start| :: blocks[k] == start[k]
        invariant forall k | 0 <= k < i :: blocks[k].eventIds == start[k].eventIds
        invariant Relinked(cfg, payloads, start, i, psz) == (blocks[..i], genesisPsz)
        invariant prev == PrevHash(blocks, i)
      {
        RelinkedNext(cfg, payloads, start, i, psz);
        assert PrevHash(blocks[..i], i) == PrevHash(blocks, i);
        ghost var done := blocks[..i];
        RelinkBlock(payloads, i, prev);
        assert blocks[..i + 1] == done + [blocks[i]];
        prev := blocks[i].blockHash;
      }
      assert blocks[..|blocks|] == blocks;
      IndexOfIds(start, blocks, |blocks|);
    }

    // ----- replaying the ledger

    method Refuse(e: Event, reason: Reason)
      requires Idle(reason)
      modifies `refused
      ensures Money() == Book(old(Money()), e, Verdict.Refuse(reason))
    {
      refused := refused[e.id := reason];
    }

    method PayClaim(e: Event, index: nat, reward: int)
      modifies `balances, `claimed, `issued
      ensures Money() == Book(old(Money()), e, Claim(index, reward))
    {
      claimed := claimed[index := e.author];
      balances := balances[e.author := Balance(balances, e.author) + reward];
      issued := issued + reward;
    }

    method IsClaimable(index: nat, tip: Option<nat>) returns (ok: bool)
      requires tip == Tip(blocks)
      ensures ok == Claimable(blocks, index)
    {
      hide Tip;
      var k := FindIndex(blocks, index, 0);
      return k < |blocks| && blocks[k].confirmed && tip.Some? && index <= tip.value;
    }

    method ReplayClaim(e: Event, payload: map<string, string>, tip: Option<nat>)
      requires tip == Tip(blocks)
      modifies `balances, `claimed, `issued, `refused
      ensures Money() == Book(old(Money()), e, JudgeClaim(econ, blocks, old(Money()), e.author, payload))
    {
      hide WorkOk, ClaimWitness, ExpectedReward, Tip, Claimable, Book, ParseU64, ParseI64OrZero;
      if "block_index" !in payload || ParseU64(payload["block_index"]).None? {
        Refuse(e, NoBlockIndex);
        return;
      }
      var index := ParseU64(payload["block_index"]).value;
      var reward := if "reward" in payload then ParseI64OrZero(payload["reward"]) else 0;
      if reward <= 0 || reward != ExpectedReward(econ.units, index, issued) {
        Refuse(e, WrongReward);
        return;
      }
      var confirmed := IsClaimable(index, tip);
      if !confirmed {
        Refuse(e, UnconfirmedBlock);
        return;
      }
      if index in claimed {
        Refuse(e, AlreadyClaimed);
        return;
      }
      if !WorkOk(econ.h, payload) {
        Refuse(e, BadWork);
        return;
      }
      var expected := ClaimWitness(econ.h, e.author, index, reward, Field(payload, "pow_hash", ""));
      if "witness_root" !in payload || payload["witness_root"] != expected {
        Refuse(e, BadClaimWitness);
        return;
      }
      PayClaim(e, index, reward);
    }

    method RefuseNumbered(e: Event, reason: Reason)
      requires LooksUpNonce(reason) && !LooksUpBalance(reason)
      modifies `refused
      ensures Nonced(old(Money()), e.author) ==> Money() == Book(old(Money()), e, Verdict.Refuse(reason))
    {
      refused := refused[e.id := reason];
    }

    method MoveReward(e: Event, to: string, amount: int, fee: int, nonce: nat)
      requires e.author in balances
      modifies `balances, `nonces, `burned
      ensures Money() == Book(old(Money()), e, Transfer(to, amount, fee, nonce))
    {
      balances := balances[e.author := balances[e.author] - (amount + fee)];
      balances := balances[to := Balance(balances, to) + amount];
      burned := burned + fee;
      nonces := nonces[e.author := nonce];
    }

    method PayTransfer(e: Event, to: string, amount: int, fee: int, nonce: nat)
      requires Nonced(Money(), e.author)
      modifies `balances, `nonces, `burned, `refused
      ensures Money() == Book(old(Money()), e, Covered(old(Money()), e.author, to, amount, fee, nonce))
    {
      hide Book;
      ghost var before := Money();
      balances := TouchBalance(balances, e.author);
      LookedUp(before, e, Transfer(to, amount, fee, nonce));
      if balances[e.author] < amount + fee {
        refused := refused[e.id := Overdraft];
        return;
      }
      MoveReward(e, to, amount, fee, nonce);
    }

    method ReplayTransfer(e: Event, payload: map<string, string>)
      modifies `balances, `nonces, `burned, `refused
      ensures Money() == Book(old(Money()), e, JudgeTransfer(econ, old(Money()), e.author, payload))
    {
      hide TransferWitness, BurnFee, Book, ParseU64, ParseI64OrZero;
      var to := Field(payload, "to_cid", "");
      var amount := if "amount" in payload then ParseI64OrZero(payload["amount"]) else 0;
      var fee := if "fee" in payload then ParseI64OrZero(payload["fee"]) else 0;
      var nonce := if "nonce" in payload then ParseU64(payload["nonce"]) else None;
      if to == "" || amount <= 0 || fee < 0 || nonce.None? || nonce.value == 0 {
        Refuse(e, BadTransfer);
        return;
      }
      ghost var before := Money();
      nonces := TouchNonce(nonces, e.author);
      TouchedFirst(before, e, JudgeTransfer(econ, before, e.author, payload));
      if nonce.value != nonces[e.author] + 1 {
        RefuseNumbered(e, BadNonce);
        return;
      }
      if fee != BurnFee(amount) {
        RefuseNumbered(e, BadFee);
        return;
      }
      var expected := TransferWitness(econ.h, e.author, to, amount, fee, nonce.value);
      if "witness_root" !in payload || payload["witness_root"] != expected {
        RefuseNumbered(e, BadTransferWitness);
        return;
      }
      PayTransfer(e, to, amount, fee, nonce.value);
    }

    method ReplaySpend(e: Event, payload: map<string, string>)
      modifies `balances, `burned, `refused
      ensures Money() == Book(old(Money()), e, JudgePost(old(Money()), e.author, payload))
    {
      hide PostValue;
      var value := PostValue(payload);
      if value < 0 {
        refused := refused[e.id := NegativePost];
        return;
      }
      if value > 0 {
        balances := TouchBalance(balances, e.author);
        if balances[e.author] < value {
          refused := refused[e.id := PostOverdraft];
          return;
        }
        balances := balances[e.author := balances[e.author] - value];
        burned := burned + value;
      }
    }

    method ReplayEconomy(ordered: seq<Event>, tip: Option<nat>)
      requires tip == Tip(blocks)
      modifies `balances, `claimed, `nonces, `issued, `burned, `refused
      ensures Money() == Economy(econ, blocks, ordered, |ordered|)
    {
      hide Book, JudgeClaim, JudgeTransfer, JudgePost, ParseMap, ConfirmedTip;
      balances, claimed, nonces, refused := map[], map[], map[], map[];
      issued, burned := 0, 0;
      for i := 0 to |ordered|
        invariant Money() == Economy(econ, blocks, ordered, i)
      {
        var e := ordered[i];
        ghost var before := Money();
        NeutralBooks(before, e);
        var payload := ParseCanonicalMap(e.payload);
        if e.kind.BlockRewardClaimed? {
          ReplayClaim(e, payload, tip);
        } else if e.kind.RewardTransferred? {
          ReplayTransfer(e, payload);
        } else if IsPostKind(e.kind) {
          ReplaySpend(e, payload);
        }
        assert Money() == EconStep(econ, blocks, before, e);
      }
    }

    // ----- replaying moderation and posts

    method SeedModerators()
      modifies `moderators
      ensures moderators == Seeded(policy.moderators, |policy.moderators|)
    {
      hide Trim;
      moderators := {};
      for i := 0 to |policy.moderators|
        invariant moderators == Seeded(policy.moderators, i)
      {
        var trimmed := TrimCopy(policy.moderators[i]);
        if trimmed != "" {
          moderators := moderators + {trimmed};
        }
      }
    }

    method EventConfirmations(id: string, tip: Option<nat>) returns (n: nat)
      ensures n == ReplayConfirmations(View(blocks, eventToBlock, tip), id)
    {
      if id !in eventToBlock || tip.None? {
        return 0;
      }
      var pos := eventToBlock[id];
      if pos >= |blocks| {
        return 0;
      }
      var index := blocks[pos].index;
      if tip.value < index {
        return 0;
      }
      return tip.value - index + 1;
    }

    method ReplayFlag(subject: string)
      modifies `flags, `hidden, `autoHidden
      ensures Community() == Enact(old(Community()), "", Flag(subject))
    {
      var count := FlagCount(flags, subject) + 1;
      flags := flags[subject := count];
      if count >= policy.maxFlags {
        hidden := hidden + {subject};
        autoHidden := autoHidden + {subject};
      }
    }

    method ReplayPolicy(payload: map<string, string>)
      modifies `policy
      ensures policy == Updated(old(policy), payload)
    {
      hide ParseI64OrZero;
      if "max_flags_before_auto_hide" in payload {
        var parsed := ParseI64OrZero(payload["max_flags_before_auto_hide"]);
        if parsed > 0 {
          policy := policy.(maxFlags := parsed);
        }
      }
      if "min_confirmations_for_enforcement" in payload {
        var parsed := ParseI64OrZero(payload["min_confirmations_for_enforcement"]);
        if parsed > 0 {
          policy := policy.(minConfirmations := parsed);
        }
      }
      if "require_finality_for_actions" in payload {
        policy := policy.(requireFinality := IsYes(payload["require_finality_for_actions"]));
      }
    }

    method ReplayModerator(e: Event, target: string)
      requires e.kind.ModeratorAdded? || e.kind.ModeratorRemoved?
      modifies `moderators, `denied
      ensures forall payload | Target(payload) == target ::
                Community() == Enact(old(Community()), e.id, Request(old(Community()), e, payload))
    {
      hide Updated, Trim, ObjectId, Target;
      if target == "" {
        denied := denied[e.id := NoTarget];
      } else if e.kind.ModeratorAdded? {
        moderators := moderators + {target};
      } else if target !in moderators {
        denied := denied[e.id := UnknownTarget];
      } else if |moderators| <= 1 {
        denied := denied[e.id := LastModerator];
      } else {
        moderators := moderators - {target};
      }
    }

    /** The switch over moderation kinds, for an author with the needed authority. */
    method ReplayAction(e: Event, payload: map<string, string>)
      modifies `policy, `moderators, `flags, `hidden, `autoHidden, `pins, `denied
      ensures Community() == Enact(old(Community()), e.id, Request(old(Community()), e, payload))
    {
      hide Updated, Trim, ObjectId;
      var subject := ObjectId(payload, e.id);
      var recipe := Field(payload, "recipe_id", "");
      var target := "";
      if "target_cid" in payload {
        target := TrimCopy(payload["target_cid"]);
      }
      match e.kind
      case ModeratorAdded => ReplayModerator(e, target);
      case ModeratorRemoved => ReplayModerator(e, target);
      case ContentFlagged =>
        if subject == "" {
          denied := denied[e.id := NoObject];
        } else {
          ReplayFlag(subject);
        }
      case ContentHidden =>
        if subject == "" {
          denied := denied[e.id := NoObject];
        } else {
          hidden, autoHidden := hidden + {subject}, autoHidden - {subject};
        }
      case ContentUnhidden =>
        if subject == "" {
          denied := denied[e.id := NoObject];
        } else {
          hidden, autoHidden := hidden - {subject}, autoHidden - {subject};
        }
      case CoreTopicPinned =>
        if recipe == "" {
          denied := denied[e.id := NoRecipe];
        } else {
          pins := pins[recipe := true];
        }
      case CoreTopicUnpinned =>
        if recipe == "" {
          denied := denied[e.id := NoRecipe];
        } else {
          pins := pins[recipe := false];
        }
      case PolicyUpdated => ReplayPolicy(payload);
      case _ =>
    }

    method ReplayModeration(e: Event, payload: map<string, string>, tip: Option<nat>)
      requires IsModerationKind(e.kind) && payload == ParseMap(e.payload)
      modifies `policy, `moderators, `flags, `hidden, `autoHidden, `pins, `denied
      ensures Community() == ModStep(View(blocks, eventToBlock, tip), old(Community()), e)
    {
      hide ParseMap, Request, ReplayConfirmations;
      if !policy.enabled {
        return;
      }
      var confirmations := EventConfirmations(e.id, tip);
      if policy.requireFinality && confirmations < policy.minConfirmations {
        return;
      }
      if NeedsModerator(e.kind) && e.author !in moderators {
        denied := denied[e.id := NoAuthority];
        return;
      }
      ReplayAction(e, payload);
    }

    method ReplayForum(e: Event, payload: map<string, string>)
      modifies `recipes, `threads, `replies, `ratings, `thumbs
      ensures Boards() == Post(old(Boards()), e, payload)
    {
      hide PostValue, IsYes, ParseI32OrZero, Totalled;
      var about := Field(payload, "recipe_id", "");
      match e.kind
      case RecipeCreated =>
        var summary := BareRecipe(e, payload);
        var id := summary.id;
        summary := WithTotals(summary, id);
        recipes := recipes[id := summary];
      case ThreadCreated =>
        var thread := NewThread(e, payload);
        threads := threads[thread.id := thread];
      case ReplyCreated =>
        var reply := NewReply(e, payload);
        if reply.thread != "" {
          replies := replies[reply.thread := RepliesTo(replies, reply.thread) + [reply]];
        }
      case ReviewAdded =>
        if about != "" {
          var r := RatingOf(ratings, about);
          r := r.(sum := r.sum + ParseI32OrZero(Field(payload, "rating", "0")));
          r := r.(count := r.count + 1);
          ratings := ratings[about := r];
        }
      case ThumbsUpAdded =>
        if about != "" {
          thumbs := thumbs[about := ThumbsOf(thumbs, about) + 1];
        }
      case _ =>
    }

    /** One turn of the second replay loop. */
    method ReplayPost(e: Event, tip: Option<nat>)
      modifies `policy, `moderators, `flags, `hidden, `autoHidden, `pins, `denied
      modifies `recipes, `threads, `replies, `ratings, `thumbs
      ensures Community() == ModStep(View(blocks, eventToBlock, tip), old(Community()), e)
      ensures Boards() == if Accepted(refused, e) then Post(old(Boards()), e, ParseMap(e.payload)) else old(Boards())
    {
      hide Post, ParseMap, ModStep;
      if !IsModerationKind(e.kind) {
        NoModeration(View(blocks, eventToBlock, tip), Community(), e);
      }
      if !IsPostKind(e.kind) {
        NoPost(Boards(), e);
      }
      if e.id in refused && IsPostKind(e.kind) {
        return;
      }
      var payload := ParseCanonicalMap(e.payload);
      if IsModerationKind(e.kind) {
        ReplayModeration(e, payload, tip);
        return;
      }
      ReplayForum(e, payload);
    }

    method ClearCommunity()
      modifies `moderators, `flags, `hidden, `autoHidden, `pins, `denied
      modifies `recipes, `threads, `replies, `ratings, `thumbs
      ensures Community() == Start(policy) && Boards() == NOTHING
    {
      hide Seeded;
      ClearBoards();
      flags, hidden, autoHidden, pins, denied := map[], {}, {}, map[], map[];
      SeedModerators();
    }

    method ClearBoards()
      modifies `recipes, `threads, `replies, `ratings, `thumbs
      ensures Boards() == NOTHING
    {
      recipes, threads, replies, ratings, thumbs := map[], map[], map[], map[], map[];
    }

    method ReplayCommunity(ordered: seq<Event>, tip: Option<nat>)
      modifies `policy, `moderators, `flags, `hidden, `autoHidden, `pins, `denied
      modifies `recipes, `threads, `replies, `ratings, `thumbs
      ensures Community() == Moderated(View(blocks, eventToBlock, tip), old(policy), ordered, |ordered|)
      ensures Boards() == Posted(refused, ordered, |ordered|)
    {
      hide Moderated, Posted, ModStep, Post, ParseMap, Accepted, Start;
      ghost var v, p, r := View(blocks, eventToBlock, tip), policy, refused;
      ClearCommunity();
      ReplayStarts(v, p, r, ordered);
      for i := 0 to |ordered|
        invariant View(blocks, eventToBlock, tip) == v && refused == r
        invariant Community() == Moderated(v, p, ordered, i) && Boards() == Posted(r, ordered, i)
      {
        ReplayNext(v, p, r, ordered, i);
        ReplayPost(ordered[i], tip);
      }
    }

    // ----- the passes over the views

    method WithTotals(recipe: Recipe, id: string) returns (summary: Recipe)
      ensures summary == Totalled(recipe, id, ratings, thumbs)
    {
      summary := recipe;
      if id in ratings && ratings[id].count > 0 {
        var r := ratings[id];
        summary := summary.(reviewCount := r.count, averageRating := r.sum as real / r.count as real);
      }
      if id in thumbs {
        summary := summary.(thumbsUp := thumbs[id]);
      }
    }

    method ApplyTotals()
      modifies `recipes
      ensures recipes == map id | id in old(recipes) :: Totalled(old(recipes)[id], id, ratings, thumbs)
    {
      hide Totalled;
      ghost var was := recipes;
      var todo := recipes.Keys;
      while todo != {}
        invariant todo <= recipes.Keys == was.Keys
        invariant forall id | id in was ::
                    recipes[id] == if id in todo then was[id] else Totalled(was[id], id, ratings, thumbs)
        decreases |todo|
      {
        var id :| id in todo;
        todo := todo - {id};
        var summary := WithTotals(recipes[id], id);
        recipes := recipes[id := summary];
      }
    }

    method CountReplies()
      modifies `threads
      ensures threads == map id | id in old(threads) ::
                if id in replies then old(threads)[id].(replyCount := |replies[id]|) else old(threads)[id]
    {
      var todo := replies.Keys;
      while todo != {}
        invariant todo <= replies.Keys && threads.Keys == old(threads).Keys
        invariant forall id | id in threads ::
                    threads[id] == if id in replies && id !in todo then old(threads)[id].(replyCount := |replies[id]|)
                                   else old(threads)[id]
        decreases |todo|
      {
        var id :| id in todo;
        todo := todo - {id};
        if id in threads {
          threads := threads[id := threads[id].(replyCount := |replies[id]|)];
        }
      }
    }

    method ApplyPins()
      modifies `recipes
      ensures recipes == map id | id in old(recipes) :: Pinned(old(recipes)[id], id, pins)
    {
      var todo := pins.Keys;
      while todo != {}
        invariant todo <= pins.Keys && recipes.Keys == old(recipes).Keys
        invariant forall id | id in recipes ::
                    recipes[id] == if id in todo then old(recipes)[id] else Pinned(old(recipes)[id], id, pins)
        decreases |todo|
      {
        var id :| id in todo;
        todo := todo - {id};
        if id in recipes {
          recipes := recipes[id := recipes[id].(coreTopic := pins[id], menuSegment := Menu(pins[id]))];
        }
      }
    }

    method HiddenThreads() returns (gone: set<string>)
      ensures forall id :: id in gone <==> id in threads && ThreadHidden(threads, id, hidden)
    {
      gone := {};
      var todo := threads.Keys;
      while todo != {}
        invariant todo <= threads.Keys
        invariant forall id :: id in gone <==> id in threads && id !in todo && ThreadHidden(threads, id, hidden)
        decreases |todo|
      {
        var id :| id in todo;
        todo := todo - {id};
        if id in hidden || threads[id].recipe in hidden {
          gone := gone + {id};
        }
      }
    }

    method DropHiddenThreads()
      modifies `threads, `replies
      ensures Boards() == WithoutThreads(old(Boards()), hidden)
    {
      hide ThreadHidden;
      var gone := HiddenThreads();
      ghost var t, r := threads, replies;
      var todo := gone;
      while todo != {}
        invariant todo <= gone
        invariant threads == t - (gone - todo) && replies == r - (gone - todo)
        decreases |todo|
      {
        var id :| id in todo;
        ghost var before := todo;
        todo := todo - {id};
        threads := threads - {id};
        replies := replies - {id};
        LessKeys(t, gone, before, id);
        LessKeys(r, gone, before, id);
      }
      assert gone - todo == gone;
      assert gone == set id | id in t && ThreadHidden(t, id, hidden);
    }

    method KeepUnhidden(list: seq<Reply>) returns (kept: seq<Reply>)
      ensures kept == Kept(list, hidden, |list|)
    {
      kept := [];
      for i := 0 to |list|
        invariant kept == Kept(list, hidden, i)
      {
        if !(list[i].id in hidden || list[i].thread in hidden) {
          kept := kept + [list[i]];
        }
      }
    }

    method DropHiddenReplies()
      modifies `replies
      ensures Boards() == WithoutReplies(old(Boards()), hidden)
    {
      hide Kept;
      ghost var was := replies;
      var todo := replies.Keys;
      while todo != {}
        invariant todo <= replies.Keys <= was.Keys
        invariant forall id | id in todo :: replies[id] == was[id]
        invariant forall id | id in was && id !in todo ::
                    id in replies <==> Kept(was[id], hidden, |was[id]|) != []
        invariant forall id | id in replies && id !in todo :: replies[id] == Kept(was[id], hidden, |was[id]|)
        decreases |todo|
      {
        var id :| id in todo;
        todo := todo - {id};
        var kept := KeepUnhidden(replies[id]);
        if kept == [] {
          replies := replies - {id};
        } else {
          replies := replies[id := kept];
        }
      }
    }

    method DropHiddenRecipes()
      modifies `recipes
      ensures recipes == old(recipes) - hidden
    {
      var todo := recipes.Keys;
      while todo != {}
        invariant todo <= recipes.Keys <= old(recipes).Keys
        invariant forall id | id in old(recipes) :: id in recipes <==> id in todo || id !in hidden
        invariant forall id | id in recipes :: recipes[id] == old(recipes)[id]
        decreases |todo|
      {
        var id :| id in todo;
        todo := todo - {id};
        if id in hidden {
          recipes := recipes - {id};
        }
      }
    }

    method RecountReplies()
      modifies `threads
      ensures threads == map id | id in old(threads) :: old(threads)[id].(replyCount := |RepliesTo(replies, id)|)
    {
      ghost var was := threads;
      var todo := threads.Keys;
      while todo != {}
        invariant todo <= threads.Keys == was.Keys
        invariant forall id | id in was ::
                    threads[id] == if id in todo then was[id] else was[id].(replyCount := |RepliesTo(replies, id)|)
        decreases |todo|
      {
        var id :| id in todo;
        todo := todo - {id};
        var count := if id in replies then |replies[id]| else 0;
        threads := threads[id := threads[id].(replyCount := count)];
      }
    }

    method FinishViews()
      modifies `recipes, `threads, `replies
      ensures Boards() == Visible(old(Boards()), pins, hidden)
    {
      hide Totalled, Pinned, Kept, ThreadHidden;
      ApplyTotals();
      CountReplies();
      ApplyPins();
      CountedInSteps(old(Boards()), Boards(), pins);
      DropHiddenThreads();
      DropHiddenReplies();
      DropHiddenRecipes();
      RecountReplies();
    }

    // ----- the whole replay

    /** The views are those of a fresh replay of the timeline, started with this policy. */
    ghost predicate Replayed(start: Policy)
      reads this
    {
      && Money() == Materialized(econ, Durable())
      && Community() == ModerationOf(start, Durable())
      && Boards() == ForumOf(econ, start, Durable())
    }

    method LatestConfirmedBlockIndex() returns (latest: Option<nat>)
      ensures latest == Tip(blocks)
    {
      latest := None;
      for i := 0 to |blocks|
        invariant latest == ConfirmedTip(blocks, i)
      {
        if !blocks[i].confirmed {
          continue;
        }
        if latest.None? || blocks[i].index > latest.value {
          latest := Some(blocks[i].index);
        }
      }
    }

    /** The loops of the replay, over events in replay order. */
    method ReplayOrdered(ordered: seq<Event>, tip: Option<nat>)
      requires tip == Tip(blocks)
      modifies `balances, `claimed, `nonces, `issued, `burned, `refused
      modifies `policy, `moderators, `flags, `hidden, `autoHidden, `pins, `denied
      modifies `recipes, `threads, `replies, `ratings, `thumbs
      ensures Money() == Economy(econ, blocks, ordered, |ordered|)
      ensures Community() == Moderated(View(blocks, eventToBlock, tip), old(policy), ordered, |ordered|)
      ensures Boards() == Visible(Posted(Money().refused, ordered, |ordered|), Community().pins, Community().hidden)
    {
      hide Economy, Moderated, Posted, Visible, Tip;
      ReplayEconomy(ordered, tip);
      ReplayCommunity(ordered, tip);
      FinishViews();
    }

    method MaterializeViews()
      requires Indexed()
      modifies `balances, `claimed, `nonces, `issued, `burned, `refused
      modifies `policy, `moderators, `flags, `hidden, `autoHidden, `pins, `denied
      modifies `recipes, `threads, `replies, `ratings, `thumbs
      ensures Replayed(old(policy))
    {
      hide Sort, ByReplay, Economy, Moderated, Posted, Visible, Tip, IndexUpTo, Materialized, ModerationOf, ForumOf;
      ghost var c, p := Durable(), policy;
      var ordered := Sort(ByReplay(eventToBlock), events);
      var tip := LatestConfirmedBlockIndex();
      ReplayOrdered(ordered, tip);
      ReplayedFrom(econ, p, c, Money(), Community());
    }

    // ----- the files

    /** The files hold what the store holds. */
    ghost predicate OnDisk()
      reads this
    {
      && eventLog == SaveEvents(events) && blockLog == SaveBlocks(header, blocks)
      && checkpoints == SavedCheckpoints(cfg, blocks)
    }

    method PersistEvent(e: Event)
      requires |events| > 0 && events[|events| - 1] == e
      modifies `eventLog
      ensures eventLog == old(eventLog) + EventLine(e) + "\n"
      ensures old(eventLog) == SaveEvents(events[..|events| - 1]) ==> eventLog == SaveEvents(events)
    {
      hide EventLine, SaveEvents;
      eventLog := eventLog + EventLine(e) + "\n";
      SavedAppend(events[..|events| - 1], e);
      assert events[..|events| - 1] + [e] == events;
    }

    method PersistEventLog()
      modifies `eventLog
      ensures eventLog == SaveEvents(events)
    {
      hide EventLine;
      eventLog := "";
      for i := 0 to |events|
        invariant eventLog == EndedLines(EventLines(events, |events|), i)
      {
        eventLog := eventLog + EventLine(events[i]) + "\n";
      }
    }

    method PersistBlockLog()
      modifies `blockLog
      ensures blockLog == SaveBlocks(header, blocks)
    {
      hide BlockLine;
      ghost var lines := [header] + BlockLines(blocks, |blocks|);
      blockLog := header + "\n";
      FirstLine(lines);
      for i := 0 to |blocks|
        invariant blockLog == EndedLines(lines, i + 1)
      {
        blockLog := blockLog + BlockLine(blocks[i]) + "\n";
      }
    }

    method PersistCheckpoints()
      modifies `checkpoints
      ensures checkpoints == SavedCheckpoints(cfg, blocks)
    {
      checkpoints := [];
      var tip := LatestConfirmedBlockIndex();
      if tip.Some? {
        for i := 0 to |blocks|
          invariant checkpoints == SavedUpTo(cfg, blocks, tip.value, i)
        {
          var b := blocks[i];
          if !b.confirmed || b.index == 0 || b.index % cfg.checkpointInterval != 0 {
            continue;
          }
          var confirmations := if tip.value >= b.index then tip.value - b.index + 1 else 0;
          if confirmations < cfg.checkpointConfirmations {
            continue;
          }
          checkpoints := checkpoints + [b];
        }
      }
    }

    /** Replays the timeline and writes the block log and the checkpoints. */
    method Publish()
      requires Indexed()
      modifies `balances, `claimed, `nonces, `issued, `burned, `refused
      modifies `policy, `moderators, `flags, `hidden, `autoHidden, `pins, `denied
      modifies `recipes, `threads, `replies, `ratings, `thumbs
      modifies `blockLog, `checkpoints
      ensures Replayed(old(policy))
      ensures blockLog == SaveBlocks(header, blocks) && checkpoints == SavedCheckpoints(cfg, blocks)
    {
      hide Replayed, SaveBlocks, SavedCheckpoints, IndexOf;
      PersistBlockLog();
      PersistCheckpoints();
      MaterializeViews();
    }

    method LatestCheckpointBlock() returns (result: Option<Block>)
      ensures result == LatestCheckpoint(cfg, blocks)
    {
      var tip := LatestConfirmedBlockIndex();
      if tip.None? {
        return None;
      }
      result := None;
      for i := 0 to |blocks|
        invariant result == LatestUpTo(cfg, blocks, tip.value, i)
      {
        var b := blocks[i];
        if !b.confirmed || b.index == 0 || b.index % cfg.checkpointInterval != 0 {
          continue;
        }
        var confirmations := if tip.value >= b.index then tip.value - b.index + 1 else 0;
        if confirmations < cfg.checkpointConfirmations {
          continue;
        }
        result := Some(b);
      }
    }

    // ----- open

    /** The event log comes first, and is replayed before there are any blocks. */
    method LoadEventsFirst(text: string)
      requires blocks == [] && Indexed()
      modifies `events, `balances, `claimed, `nonces, `issued, `burned, `refused
      modifies `policy, `moderators, `flags, `hidden, `autoHidden, `pins, `denied
      modifies `recipes, `threads, `replies, `ratings, `thumbs
      ensures events == LoadEvents(text)
      ensures policy == ModerationOf(old(policy), Chain(events, [], genesisPsz)).policy
    {
      hide ModerationOf, ForumOf, Materialized, LoadEvents, IndexUpTo;
      events := LoadEventLog(text);
      MaterializeViews();
      assert Community().policy == policy;
    }

    method LoadBlocksNext(text: string, now: int)
      modifies `blocks, `genesisPsz, `eventToBlock
      ensures Durable() == Reopen.Reopened(cfg, Chain(events, LoadBlocks(text), old(genesisPsz)), now) && Indexed()
    {
      hide Settle, EnsureSlots, Assign, EnsureGenesis, LoadBlocks, IndexUpTo;
      blocks := LoadBlockLog(text);
      EnsureGenesisBlock(now);
      AssignUnassignedEvents();
      EnsureBlockSlotsUntil(now);
      RecomputeBlockHashes();
    }

    // ----- append

    /** Adds an event to the log and to the timeline. */
    method Grow(e: Event, later: int)
      modifies `events, `blocks, `genesisPsz, `eventToBlock, `eventLog
      ensures Durable() == Settle(cfg, EnsureSlots(cfg, Assign(cfg, old(Durable()).(events := old(events) + [e])), later))
      ensures Indexed()
      ensures old(eventLog) == SaveEvents(old(events)) ==> eventLog == SaveEvents(events)
    {
      hide Settle, EnsureSlots, Assign, SaveEvents, IndexUpTo, EventLine;
      events := events + [e];
      assert events[..|events| - 1] == old(events);
      PersistEvent(e);
      AssignUnassignedEvents();
      EnsureBlockSlotsUntil(later);
      RecomputeBlockHashes();
    }

    method AppendEvent(e: Event, now: int, later: int) returns (r: AppendResult)
      requires Indexed()
      modifies this
      ensures r == Judge(cfg, old(events), e, now)
      ensures Durable() == Append(cfg, old(Durable()), e, now, later) && Indexed()
      ensures if r.Appended? then Replayed(old(policy)) else unchanged(this)
      ensures old(OnDisk()) ==> OnDisk()
      ensures old(Valid(cfg, Durable())) ==> Valid(cfg, Durable())
    {
      hide Settle, EnsureSlots, Assign, Replayed, SaveEvents, SaveBlocks, SavedCheckpoints, IndexOf, Valid;
      ghost var was := Durable();
      if Valid(cfg, was) {
        AppendValid(cfg, was, e, now, later);
      }
      if e.id == "" {
        return MissingId;
      }
      if e.payload == "" {
        return MissingPayload;
      }
      if e.signature == "" {
        return MissingSignature;
      }
      if |e.payload| > cfg.maxEventBytes {
        return TooLarge;
      }
      if e.ts > now + cfg.maxFutureDrift {
        return TooNew;
      }
      if e.ts < now - cfg.maxPastDrift {
        return TooOld;
      }
      if HasEvent(events, e.id) {
        return Duplicate;
      }
      Grow(e, later);
      Publish();
      return Appended;
    }

    // ----- tick

    method ConfirmBlocks(now: int)
      modifies `blocks
      ensures blocks == ConfirmUpTo(cfg, old(blocks), now, |old(blocks)|)
    {
      ghost var was := blocks;
      for i := 0 to |blocks|
        invariant |blocks| == |was| && forall k | i <= k < |was| :: blocks[k] == was[k]
        invariant blocks[..i] == ConfirmUpTo(cfg, was, now, i)
      {
        ghost var done := blocks[..i];
        if !blocks[i].confirmed && now - blocks[i].openedUnix >= cfg.interval {
          blocks := blocks[i := blocks[i].(confirmed := true)];
        }
        assert blocks[..i + 1] == done + [blocks[i]];
      }
      assert blocks[..|blocks|] == blocks;
    }

    method RoutineBlockCheck(now: int)
      modifies `blocks, `genesisPsz, `eventToBlock, `blockLog, `checkpoints
      ensures Durable() == Tick(cfg, old(Durable()), now) && Indexed()
      ensures old(OnDisk()) ==> OnDisk()
      ensures old(Valid(cfg, Durable())) ==> Valid(cfg, Durable())
    {
      hide Settle, EnsureSlots, EnsureGenesis, Assign, SaveEvents, SaveBlocks, SavedCheckpoints, IndexUpTo, Valid;
      ghost var was := Durable();
      if Valid(cfg, was) {
        TickValid(cfg, was, now);
      }
      EnsureGenesisBlock(now);
      EnsureBlockSlotsUntil(now);
      AssignUnassignedEvents();
      ConfirmBlocks(now);
      RecomputeBlockHashes();
      PersistBlockLog();
      PersistCheckpoints();
    }

    // ----- recovery

    method CheckpointIndex() returns (index: nat)
      ensures index == RollbackTarget(cfg, blocks)
    {
      index := 0;
      var tip := LatestConfirmedBlockIndex();
      if tip.Some? {
        for i := 0 to |blocks|
          invariant index == TargetUpTo(cfg, blocks, tip.value, i)
        {
          var b := blocks[i];
          if !b.confirmed || b.index % cfg.checkpointInterval != 0 {
            continue;
          }
          var confirmations := if tip.value >= b.index then tip.value - b.index + 1 else 0;
          if confirmations < cfg.checkpointConfirmations {
            continue;
          }
          index := Max(index, b.index);
        }
      }
    }

    /** The blocks up to the checkpoint, and the ids in them. */
    method Retain(target: nat) returns (retained: seq<Block>, ids: set<string>)
      ensures retained == RetainedUpTo(blocks, target, |blocks|)
      ensures forall id :: id in ids <==> Assigned(retained, id)
    {
      retained, ids := [], {};
      for i := 0 to |blocks|
        invariant retained == RetainedUpTo(blocks, target, i)
        invariant forall id :: id in ids <==> Assigned(retained, id)
      {
        var b := blocks[i];
        if b.index > target {
          continue;
        }
        ghost var before := ids;
        AssignedSnoc(retained, b);
        retained := retained + [b];
        for j := 0 to |b.eventIds|
          invariant forall id :: id in ids <==> id in before || id in b.eventIds[..j]
        {
          ids := ids + {b.eventIds[j]};
          assert b.eventIds[..j + 1] == b.eventIds[..j] + [b.eventIds[j]];
        }
        assert b.eventIds[..|b.eventIds|] == b.eventIds;
      }
    }

    method DropEvents(ids: set<string>, ghost retained: seq<Block>)
      requires forall id :: id in ids <==> Assigned(retained, id)
      modifies `events
      ensures events == KeptEvents(old(events), retained, |old(events)|)
    {
      hide Assigned;
      var kept: seq<Event> := [];
      for i := 0 to |events|
        invariant kept == KeptEvents(events, retained, i)
      {
        if events[i].id in ids {
          kept := kept + [events[i]];
        }
      }
      events := kept;
    }

    /** Cuts events and blocks back to the checkpoint and links what is left. */
    method CutBack(now: int)
      modifies `events, `blocks, `genesisPsz, `eventToBlock
      ensures Durable() == Rollback(cfg, old(Durable()), now) && Indexed()
    {
      hide Settle, EnsureGenesis, IndexUpTo, RollbackTarget, RetainedUpTo, KeptEvents, Assigned;
      EnsureGenesisBlock(now);
      var target := CheckpointIndex();
      var retained, ids := Retain(target);
      DropEvents(ids, retained);
      if retained == [] {
        var genesis := EmptyBlock(0, now);
        genesis := genesis.(psz := genesisPsz);
        retained := [genesis];
      }
      blocks := retained;
      RecomputeBlockHashes();
    }

    method RollbackToLastCheckpoint(now: int)
      modifies this
      ensures Durable() == Rollback(cfg, old(Durable()), now) && Indexed()
      ensures Replayed(old(policy)) && OnDisk()
      ensures old(Valid(cfg, Durable())) ==> Valid(cfg, Durable())
    {
      hide Rollback, Replayed, SaveEvents, SaveBlocks, SavedCheckpoints, IndexOf, Valid;
      ghost var was := Durable();
      if Valid(cfg, was) {
        RollbackValid(cfg, was, now);
      }
      CutBack(now);
      PersistEventLog();
      Publish();
    }

    // ----- the self-audit

    /** The checks on one block's hashes and limits. */
    method CheckBlock(payloads: map<string, string>, i: nat) returns (issues: nat)
      requires i < |blocks| && payloads == Payloads(cfg, events)
      ensures issues == 0 <==> HashesClean(cfg, payloads, blocks, i) && RoomClean(cfg, events, blocks[i])
    {
      hide Sealed, PayloadHashes, BlockBytes;
      issues := 0;
      var b := blocks[i];
      if b.index == 0 && b.psz == "" {
        issues := issues + 1;
      }
      if i == 0 && b.prevHash != "genesis" {
        issues := issues + 1;
      }
      if i > 0 && b.prevHash != blocks[i - 1].blockHash {
        issues := issues + 1;
      }
      var expected := SealBlock(payloads, b, b.prevHash);
      if b.merkleRoot != expected.merkleRoot {
        issues := issues + 1;
      }
      if b.contentHash != expected.contentHash {
        issues := issues + 1;
      }
      if b.blockHash != expected.blockHash {
        issues := issues + 1;
      }
      if |b.eventIds| > cfg.maxBlockEvents {
        issues := issues + 1;
      }
      var bytes := BlockEventBytes(b);
      if bytes > cfg.maxBlockBytes {
        issues := issues + 1;
      }
    }

    /** The checks on one block's ids, against the ids of the blocks before it. */
    method CheckIds(ids: seq<string>, before: set<string>) returns (issues: nat, seen: set<string>)
      ensures issues == 0 <==> Known(events, ids, |ids|) && NoRepeat(ids, before, |ids|)
      ensures forall id :: id in seen <==> id in before || id in ids
    {
      hide HasEvent;
      issues, seen := 0, before;
      for j := 0 to |ids|
        invariant issues == 0 <==> Known(events, ids, j) && NoRepeat(ids, before, j)
        invariant forall id :: id in seen <==> id in before || id in ids[..j]
      {
        if !HasEvent(events, ids[j]) {
          issues := issues + 1;
        }
        if ids[j] in seen {
          issues := issues + 1;
        }
        seen := seen + {ids[j]};
        assert ids[..j + 1] == ids[..j] + [ids[j]];
      }
      assert ids[..|ids|] == ids;
    }

    /** The checks on one event. */
    method CheckEvent(x: Inspector, e: Event) returns (issues: nat)
      ensures issues == 0 <==> EventClean(cfg, x, e)
    {
      hide ParseMap;
      issues := 0;
      if e.id != x.contentId(e.payload) {
        issues := issues + 1;
      }
      if |e.payload| > cfg.maxEventBytes {
        issues := issues + 1;
      }
      if e.ts > x.now + cfg.maxFutureDrift {
        issues := issues + 1;
      }
      var payload := ParseCanonicalMap(e.payload);
      if x.community != "" && "community_id" in payload && payload["community_id"] != x.community {
        issues := issues + 1;
      }
      if "chain_id" in payload && payload["chain_id"] != x.chainId {
        issues := issues + 1;
      }
      if "network_id" in payload && payload["network_id"] != x.networkId {
        issues := issues + 1;
      }
      var missing := CheckFields(e.kind, payload);
      issues := issues + missing;
      if IsPostKind(e.kind) && "post_value" in payload && ParseI64OrZero(payload["post_value"]) < 0 {
        issues := issues + 1;
      }
      if e.signature == "" {
        issues := issues + 1;
      }
    }

    /** The checks that depend on the kind of an event. */
    method CheckFields(kind: EventKind, payload: map<string, string>) returns (issues: nat)
      ensures issues == 0 <==> FieldsClean(kind, payload)
    {
      hide ParseU64, ParseI64OrZero;
      issues := 0;
      match kind {
        case RecipeCreated =>
          if !Filled(payload, "recipe_id") {
            issues := 1;
          }
        case ThreadCreated =>
          if !Filled(payload, "thread_id") || !Filled(payload, "recipe_id") {
            issues := 1;
          }
        case ReplyCreated =>
          if !Filled(payload, "reply_id") || !Filled(payload, "thread_id") {
            issues := 1;
          }
        case BlockRewardClaimed =>
          var reward := if "reward" in payload then ParseI64OrZero(payload["reward"]) else 0;
          if "block_index" !in payload || ParseU64(payload["block_index"]).None? {
            issues := issues + 1;
          }
          if reward <= 0 {
            issues := issues + 1;
          }
        case RewardTransferred =>
          var amount := if "amount" in payload then ParseI64OrZero(payload["amount"]) else 0;
          if !Filled(payload, "to_cid") || amount <= 0 {
            issues := 1;
          }
        case ModeratorAdded | ModeratorRemoved =>
          if !Filled(payload, "target_cid") {
            issues := 1;
          }
        case ContentFlagged | ContentHidden | ContentUnhidden =>
          if !Filled(payload, "object_id") && !Filled(payload, "recipe_id") && !Filled(payload, "thread_id") &&
             !Filled(payload, "reply_id") {
            issues := 1;
          }
        case CoreTopicPinned | CoreTopicUnpinned =>
          if !Filled(payload, "recipe_id") {
            issues := 1;
          }
        case _ =>
      }
    }

    method CheckEvents(x: Inspector) returns (issues: nat)
      ensures issues == 0 <==> forall e | e in events :: EventClean(cfg, x, e)
    {
      hide EventClean;
      issues := 0;
      for i := 0 to |events|
        invariant issues == 0 <==> forall k | 0 <= k < i :: EventClean(cfg, x, events[k])
      {
        var n := CheckEvent(x, events[i]);
        issues := issues + n;
      }
    }

    /** The checks on the blocks, and that every event has one. */
    method CheckBlocks() returns (issues: nat)
      ensures issues == 0 <==> Clean(cfg, Durable())
    {
      hide HashesClean, RoomClean, NoRepeat, Known, IdBag, PayloadHashes;
      issues := 0;
      var seen: set<string> := {};
      var payloads := HashPayloads();
      NoIds(blocks);
      for i := 0 to |blocks|
        invariant issues == 0 <==> CleanUpTo(cfg, Durable(), i)
        invariant forall id :: id in seen <==> id in IdBag(blocks, i)
      {
        var n := CheckBlock(payloads, i);
        var m, more := CheckIds(blocks[i].eventIds, seen);
        CleanNext(cfg, Durable(), i, seen);
        issues, seen := issues + n + m, more;
      }
      for i := 0 to |events|
        invariant issues == 0 <==>
          CleanUpTo(cfg, Durable(), |blocks|) && forall k | 0 <= k < i :: Assigned(blocks, events[k].id)
      {
        InBag(blocks, |blocks|, events[i].id);
        if events[i].id !in seen {
          issues := issues + 1;
        }
      }
      CleanParts(cfg, Durable());
    }

    /** `backtest_validate`: the refusals of the last replay count as issues. */
    method Backtest(x: Inspector) returns (issues: nat)
      ensures issues == 0 <==> Passes(cfg, x, Durable()) && refused == map[] && denied == map[]
      ensures issues == 0 ==> forall e | e in events :: x.contentId(e.payload) == e.id
    {
      hide Clean, EventClean;
      var n := CheckEvents(x);
      var m := CheckBlocks();
      issues := n + m + |refused| + |denied|;
      if n == 0 {
        CleanIds(cfg, x, events);
      }
    }

    method ConsensusHash() returns (hash: string)
      ensures hash == Replay.ConsensusHash(cfg.h, events)
    {
      hide Sort;
      var chunks: seq<string> := [];
      for i := 0 to |events|
        invariant chunks == Chunks(cfg.h, events, i)
      {
        chunks := chunks + [events[i].id + ":" + cfg.h(events[i].payload)];
      }
      chunks := Sort(ByText(), chunks);
      var text := "";
      for i := 0 to |chunks|
        invariant text == EndedLines(chunks, i)
      {
        text := text + chunks[i] + "\n";
      }
      hash := cfg.h(text);
    }
  }
}
