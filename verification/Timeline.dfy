/** The block timeline: slots, placing events, confirming by age, and linking the blocks by hash. */
module Timeline {
  import opened Types
  import opened Text
  import opened Decimal
  import opened Merkle

  /** Settings, after the clamping done by the setters. */
  datatype RawConfig = RawConfig(
    h: HashFn,
    interval: nat,
    maxBlockEvents: nat,
    maxBlockBytes: nat,
    maxEventBytes: nat,
    maxFutureDrift: nat,
    maxPastDrift: nat,
    checkpointInterval: nat,
    checkpointConfirmations: nat,
    genesisMerkle: string,
    genesisHash: string,
    networkId: string)

  type Config = c: RawConfig |
    c.interval >= 1 && c.maxBlockEvents >= 1 && c.checkpointInterval >= 1 && c.checkpointConfirmations >= 1
    witness RawConfig(s => s, 150, 512, 0x10_0000, 0x1_0000, 120, 604800, 288, 24, "", "", "mainnet")

  /** The durable part of the store: event log, block list, and the genesis text. */
  datatype Chain = Chain(events: seq<Event>, blocks: seq<Block>, psz: string)

  // ----- hashing

  /** `event_payload_hash`: the last event with an id decides. */
  function PayloadHashes(h: HashFn, events: seq<Event>, n: nat): map<string, string>
    requires n <= |events|
  {
    if n == 0 then map[] else PayloadHashes(h, events, n - 1)[events[n - 1].id := h(events[n - 1].payload)]
  }

  function Part(payloads: map<string, string>, id: string): string { id + ":" + Field(payloads, id, "missing") }

  function Parts(payloads: map<string, string>, ids: seq<string>, n: nat): (parts: seq<string>)
    requires n <= |ids|
    ensures |parts| == n
  {
    if n == 0 then [] else Parts(payloads, ids, n - 1) + [Part(payloads, ids[n - 1])]
  }

  function Leaves(h: HashFn, parts: seq<string>, n: nat): (leaves: seq<string>)
    requires n <= |parts|
    ensures |leaves| == n
  {
    if n == 0 then [] else Leaves(h, parts, n - 1) + [h(parts[n - 1])]
  }

  function Bit(b: bool): string { if b then "1" else "0" }

  /** The text whose digest is the block hash. */
  function DigestText(b: Block, prev: string, merkle: string, content: string): string {
    NatText(b.index) + "|" + (IntText(b.openedUnix) + "|" + (Bit(b.reserved) + "|" + (Bit(b.confirmed) + "|" +
    (Bit(b.backfilled) + "|" + (prev + "|" + (merkle + "|" + (content + "|" + b.psz)))))))
  }

  /** The block with its four hash fields computed; a genesis block without events may be hardcoded. */
  function Sealed(cfg: Config, payloads: map<string, string>, b: Block, prev: string): Block {
    var parts := Parts(payloads, b.eventIds, |b.eventIds|);
    var merkle := Root(cfg.h, Leaves(cfg.h, parts, |parts|));
    var content := cfg.h(Join(parts, ','));
    var hash := cfg.h(DigestText(b, prev, merkle, content));
    var bare := b.index == 0 && b.eventIds == [];
    b.(prevHash := prev,
       merkleRoot := if bare && cfg.genesisMerkle != "" then cfg.genesisMerkle else merkle,
       contentHash := content,
       blockHash := if bare && cfg.genesisHash != "" then cfg.genesisHash else hash)
  }

  function DefaultPsz(cfg: Config, now: int): (s: string)
    ensures s != ""
  {
    "SoupNet::P2P Tomato Soup " + cfg.networkId + " genesis | " + IntText(now)
  }

  /** The genesis text in force after looking at this block. */
  function PszAfter(cfg: Config, b: Block, psz: string): string {
    if b.index == 0 && b.psz == "" && psz == "" then DefaultPsz(cfg, b.openedUnix) else psz
  }

  /** A block with index 0 and no genesis text receives it. */
  function Stamped(cfg: Config, b: Block, psz: string): Block {
    if b.index == 0 && b.psz == "" then b.(psz := PszAfter(cfg, b, psz)) else b
  }

  /** The block `recompute_block_hashes` makes of `b`. */
  function Relink(cfg: Config, payloads: map<string, string>, b: Block, prev: string, psz: string): Block {
    Sealed(cfg, payloads, Stamped(cfg, b, psz), prev)
  }

  function PrevHash(blocks: seq<Block>, i: nat): string
    requires i <= |blocks|
  {
    if i == 0 then "genesis" else blocks[i - 1].blockHash
  }

  /** `recompute_block_hashes` on the first `n` blocks: the relinked blocks and the genesis text. */
  function Relinked(cfg: Config, payloads: map<string, string>, blocks: seq<Block>, n: nat, psz: string)
    : (r: (seq<Block>, string))
    requires n <= |blocks|
    ensures |r.0| == n
  {
    if n == 0 then ([], psz)
    else
      var (done, psz') := Relinked(cfg, payloads, blocks, n - 1, psz);
      (done + [Relink(cfg, payloads, blocks[n - 1], PrevHash(done, n - 1), psz')],
       PszAfter(cfg, blocks[n - 1], psz'))
  }

  function Settle(cfg: Config, c: Chain): Chain {
    var (blocks, psz) := Relinked(cfg, PayloadHashes(cfg.h, c.events, |c.events|), c.blocks, |c.blocks|, c.psz);
    c.(blocks := blocks, psz := psz)
  }

  // ----- slots

  function EmptyBlock(index: nat, opens: int): Block {
    Block(index, opens, true, false, false, [], "", "", "", "", "")
  }

  function EnsureGenesis(cfg: Config, c: Chain, now: int): (r: Chain)
    ensures r.blocks != [] && r.events == c.events
    ensures c.blocks != [] ==> |r.blocks| == |c.blocks| && r.psz == c.psz
  {
    if c.blocks != [] then
      if c.blocks[0].psz == "" && c.psz != "" then c.(blocks := c.blocks[0 := c.blocks[0].(psz := c.psz)]) else c
    else
      var psz := if c.psz == "" then DefaultPsz(cfg, now) else c.psz;
      var genesis := EmptyBlock(0, now).(psz := psz, merkleRoot := cfg.genesisMerkle, blockHash := cfg.genesisHash);
      c.(blocks := [genesis], psz := psz)
  }

  const MAX_RESERVE_PER_CHECK: nat := 256

  function Slots(cfg: Config, blocks: seq<Block>, now: int, budget: nat): (r: seq<Block>)
    ensures |r| >= |blocks|
    decreases budget
  {
    if blocks == [] || now - blocks[|blocks| - 1].openedUnix < cfg.interval || budget == 0 then blocks
    else
      var last := blocks[|blocks| - 1];
      Slots(cfg, blocks + [EmptyBlock(last.index + 1, last.openedUnix + cfg.interval)], now, budget - 1)
  }

  function EnsureSlots(cfg: Config, c: Chain, now: int): Chain {
    var c' := EnsureGenesis(cfg, c, now);
    c'.(blocks := Slots(cfg, c'.blocks, now, MAX_RESERVE_PER_CHECK))
  }

  // ----- placing events

  function EventBytes(e: Event): nat { |e.id| + |e.payload| + |e.signature| + 24 }

  /** Position of the first event with this id at or after `i`, or the length. */
  function FindEvent(events: seq<Event>, id: string, i: nat): (k: nat)
    requires i <= |events|
    ensures i <= k <= |events| && (k < |events| ==> events[k].id == id)
    ensures forall j | i <= j < k :: events[j].id != id
    decreases |events| - i
  {
    if i == |events| || events[i].id == id then i else FindEvent(events, id, i + 1)
  }

  predicate HasEvent(events: seq<Event>, id: string) { exists i | 0 <= i < |events| :: events[i].id == id }

  function IdBytes(events: seq<Event>, id: string): nat {
    var k := FindEvent(events, id, 0);
    |id| + if k < |events| then |events[k].payload| + |events[k].signature| + 24 else 64
  }

  function BlockBytes(events: seq<Event>, ids: seq<string>, n: nat): nat
    requires n <= |ids|
  {
    if n == 0 then 0 else BlockBytes(events, ids, n - 1) + IdBytes(events, ids[n - 1])
  }

  predicate Fits(cfg: Config, events: seq<Event>, b: Block, bytes: nat) {
    !b.confirmed && |b.eventIds| < cfg.maxBlockEvents &&
    BlockBytes(events, b.eventIds, |b.eventIds|) + bytes <= cfg.maxBlockBytes
  }

  /** The first block at or after `i` with room, or the length. */
  function FindSlot(cfg: Config, events: seq<Event>, blocks: seq<Block>, bytes: nat, i: nat): (k: nat)
    requires i <= |blocks|
    ensures i <= k <= |blocks| && (k < |blocks| ==> Fits(cfg, events, blocks[k], bytes))
    ensures forall j | i <= j < k :: !Fits(cfg, events, blocks[j], bytes)
    decreases |blocks| - i
  {
    if i == |blocks| || Fits(cfg, events, blocks[i], bytes) then i else FindSlot(cfg, events, blocks, bytes, i + 1)
  }

  function Put(b: Block, id: string): Block {
    b.(backfilled := b.backfilled || b.reserved, reserved := false, eventIds := b.eventIds + [id])
  }

  function NextIndex(blocks: seq<Block>): nat { if blocks == [] then 0 else blocks[|blocks| - 1].index + 1 }

  /** Puts an event into the first slot with room, or into a new block that opens at its own time. */
  function Place(cfg: Config, events: seq<Event>, blocks: seq<Block>, e: Event): (r: seq<Block>)
    ensures |blocks| <= |r| <= |blocks| + 1
  {
    var k := FindSlot(cfg, events, blocks, EventBytes(e), 0);
    if k < |blocks| then blocks[k := Put(blocks[k], e.id)]
    else blocks + [Put(EmptyBlock(NextIndex(blocks), e.ts), e.id)]
  }

  predicate Assigned(blocks: seq<Block>, id: string) { exists i | 0 <= i < |blocks| :: id in blocks[i].eventIds }

  function AssignUpTo(cfg: Config, events: seq<Event>, blocks: seq<Block>, n: nat): (r: seq<Block>)
    requires n <= |events|
    ensures |r| >= |blocks|
  {
    if n == 0 then blocks
    else
      var r := AssignUpTo(cfg, events, blocks, n - 1);
      if Assigned(r, events[n - 1].id) then r else Place(cfg, events, r, events[n - 1])
  }

  function Assign(cfg: Config, c: Chain): Chain {
    if c.events == [] then c
    else
      var c' := EnsureGenesis(cfg, c, c.events[0].ts);
      c'.(blocks := AssignUpTo(cfg, c'.events, c'.blocks, |c'.events|))
  }

  // ----- confirming

  predicate Due(cfg: Config, b: Block, now: int) { now - b.openedUnix >= cfg.interval }

  function ConfirmUpTo(cfg: Config, blocks: seq<Block>, now: int, n: nat): (r: seq<Block>)
    requires n <= |blocks|
    ensures |r| == n
    ensures forall i | 0 <= i < n :: r[i] == blocks[i].(confirmed := blocks[i].confirmed || Due(cfg, blocks[i], now))
  {
    if n == 0 then []
    else
      var b := blocks[n - 1];
      ConfirmUpTo(cfg, blocks, now, n - 1) + [if !b.confirmed && Due(cfg, b, now) then b.(confirmed := true) else b]
  }

  function Confirm(cfg: Config, c: Chain, now: int): Chain {
    c.(blocks := ConfirmUpTo(cfg, c.blocks, now, |c.blocks|))
  }

  /** The highest index among the first `n` blocks that are confirmed. */
  function ConfirmedTip(blocks: seq<Block>, n: nat): Option<nat>
    requires n <= |blocks|
  {
    if n == 0 then None
    else
      var tip := ConfirmedTip(blocks, n - 1);
      if blocks[n - 1].confirmed && (tip.None? || blocks[n - 1].index > tip.value) then Some(blocks[n - 1].index) else tip
  }

  function Tip(blocks: seq<Block>): Option<nat> { ConfirmedTip(blocks, |blocks|) }

  // ----- the operations

  datatype AppendResult = Appended | Duplicate | MissingId | MissingPayload | MissingSignature | TooLarge | TooNew | TooOld

  function Judge(cfg: Config, events: seq<Event>, e: Event, now: int): AppendResult {
    if e.id == "" then MissingId
    else if e.payload == "" then MissingPayload
    else if e.signature == "" then MissingSignature
    else if |e.payload| > cfg.maxEventBytes then TooLarge
    else if e.ts > now + cfg.maxFutureDrift then TooNew
    else if e.ts < now - cfg.maxPastDrift then TooOld
    else if HasEvent(events, e.id) then Duplicate
    else Appended
  }

  /** `append_event` with the clock read at the drift check (`now`) and again for the slots (`later`). */
  function Append(cfg: Config, c: Chain, e: Event, now: int, later: int): Chain {
    if Judge(cfg, c.events, e, now).Appended? then
      Settle(cfg, EnsureSlots(cfg, Assign(cfg, c.(events := c.events + [e])), later))
    else c
  }

  /** `routine_block_check`, pruning off. */
  function Tick(cfg: Config, c: Chain, now: int): Chain {
    Settle(cfg, Confirm(cfg, Assign(cfg, EnsureSlots(cfg, EnsureGenesis(cfg, c, now), now)), now))
  }
}
