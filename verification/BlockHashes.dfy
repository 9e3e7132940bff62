/** What the hashes of a block are. */
module BlockHashes {
  import opened Types
  import opened Text
  import opened Decimal
  import opened Merkle
  import opened Timeline
  import opened Invariant
  import opened Preservation
  import opened Clock
  import opened History
  import opened Audit
  import opened SmallRuns
  import Binding

  /** One line for each event of the block: its id and the digest of its payload. */
  ghost predicate LinesOf(cfg: Config, c: Chain, b: Block, lines: seq<string>) {
    && |lines| == |b.eventIds|
    && forall k | 0 <= k < |lines| ::
         exists e | e in c.events :: e.id == b.eventIds[k] && lines[k] == e.id + ":" + cfg.h(e.payload)
  }

  function Flag(b: bool): string { if b then "1" else "0" }

  /** The text behind a block hash: nine fields between bars, with the computed Merkle root. */
  function Header(b: Block, merkle: string): string {
    NatText(b.index) + "|" + (IntText(b.openedUnix) + "|" + (Flag(b.reserved) + "|" + (Flag(b.confirmed) + "|" +
    (Flag(b.backfilled) + "|" + (b.prevHash + "|" + (merkle + "|" + (b.contentHash + "|" + b.psz)))))))
  }

  /** A genesis block without events takes the hashes the network was set up with, where there are any. */
  predicate HashedAs(cfg: Config, b: Block, merkle: string) {
    var bare := b.index == 0 && |b.eventIds| == 0;
    && (bare && cfg.genesisMerkle != "" ==> b.merkleRoot == cfg.genesisMerkle)
    && (!(bare && cfg.genesisMerkle != "") ==> b.merkleRoot == merkle)
    && (bare && cfg.genesisHash != "" ==> b.blockHash == cfg.genesisHash)
    && (!(bare && cfg.genesisHash != "") ==> b.blockHash == cfg.h(Header(b, merkle)))
  }

  lemma {:induction false} LeavesAre(h: HashFn, lines: seq<string>, n: nat)
    requires n <= |lines|
    ensures forall k | 0 <= k < n :: Leaves(h, lines, n)[k] == h(lines[k])
  {
    if n > 0 {
      LeavesAre(h, lines, n - 1);
    }
  }

  lemma SealedIs(cfg: Config, payloads: map<string, string>, b: Block, prev: string)
    requires b == Sealed(cfg, payloads, b, prev)
    ensures var lines := Parts(payloads, b.eventIds, |b.eventIds|);
            && b.prevHash == prev && b.contentHash == cfg.h(Join(lines, ','))
            && HashedAs(cfg, b, Root(cfg.h, Leaves(cfg.h, lines, |lines|)))
  {
    hide Root, Leaves, Join, Parts, NatText, IntText;
    var lines := Parts(payloads, b.eventIds, |b.eventIds|);
    HeaderIs(b, prev, Root(cfg.h, Leaves(cfg.h, lines, |lines|)), cfg.h(Join(lines, ',')));
  }

  lemma HeaderIs(b: Block, prev: string, merkle: string, content: string)
    ensures DigestText(b, prev, merkle, content) == Header(b.(prevHash := prev, contentHash := content), merkle)
  {
    hide NatText, IntText;
  }

  /**
   * The hashes of any block of a valid chain: its predecessor's hash, the digest of its lines, the Merkle root of the
   * digests of its lines, and the digest of its header, but for the two hashes of an empty genesis block.
   */
  lemma HashesAre(cfg: Config, c: Chain, i: nat) returns (lines: seq<string>, leaves: seq<string>)
    requires Valid(cfg, c) && i < |c.blocks|
    ensures LinesOf(cfg, c, c.blocks[i], lines)
    ensures |leaves| == |lines| && forall k | 0 <= k < |leaves| :: leaves[k] == cfg.h(lines[k])
    ensures var b := c.blocks[i];
            && b.index == i && (i == 0 ==> b.prevHash == "genesis" && b.psz != "")
            && (i > 0 ==> b.prevHash == c.blocks[i - 1].blockHash)
            && b.contentHash == cfg.h(Join(lines, ','))
            && HashedAs(cfg, b, Root(cfg.h, leaves))
  {
    hide Sealed, Limits, IdBag, Root, Leaves, Join, Header, Part;
    var payloads, ids := Payloads(cfg, c.events), c.blocks[i].eventIds;
    assert SealedAt(cfg, payloads, c.blocks, i);
    SealedIs(cfg, payloads, c.blocks[i], PrevHash(c.blocks, i));
    lines := Parts(payloads, ids, |ids|);
    leaves := Leaves(cfg.h, lines, |lines|);
    LeavesAre(cfg.h, lines, |lines|);
    forall k | 0 <= k < |lines|
      ensures exists e | e in c.events :: e.id == ids[k] && lines[k] == e.id + ":" + cfg.h(e.payload)
    {
      Binding.PartAt(payloads, ids, |ids|, k);
      var e := Binding.PartOf(cfg, c, i, k);
    }
  }

  // ----- the genesis block of a network

  /** The genesis block of a network has the hashes of the network as long as it is empty, and the next block links to it. */
  predicate NetworkGenesis(cfg: Config, blocks: seq<Block>)
    requires blocks != []
  {
    |blocks[0].eventIds| == 0 ==>
      && (cfg.genesisHash != "" ==> blocks[0].blockHash == cfg.genesisHash)
      && (cfg.genesisMerkle != "" ==> blocks[0].merkleRoot == cfg.genesisMerkle)
      && (cfg.genesisHash != "" && |blocks| > 1 ==> blocks[1].prevHash == cfg.genesisHash)
  }

  /** After every run from a new store. */
  lemma RunsKeepGenesis(cfg: Config, c: Chain, ops: seq<Op>, n: nat)
    requires New(c) && n <= |ops| && Run(cfg, c, ops, n).blocks != []
    ensures NetworkGenesis(cfg, Run(cfg, c, ops, n).blocks)
  {
    hide Run, Valid, LinesOf, Header;
    NewValid(cfg, c);
    RunValid(cfg, c, ops, n);
    var r := Run(cfg, c, ops, n);
    var _, _ := HashesAre(cfg, r, 0);
    if |r.blocks| > 1 {
      var _, _ := HashesAre(cfg, r, 1);
    }
  }

  /** The audit accepts no empty genesis block with any other hashes, on any chain. */
  lemma AuditSeesGenesis(cfg: Config, c: Chain)
    requires Clean(cfg, c) && c.blocks != [] && c.blocks[0].index == 0
    ensures NetworkGenesis(cfg, c.blocks)
  {
    hide Sealed, IdBag, BlockBytes;
    assert BlockClean(cfg, c, 0);
    CleanSealed(cfg, Payloads(cfg, c.events), c.blocks, 0);
    SealedIs(cfg, Payloads(cfg, c.events), c.blocks[0], "genesis");
    if |c.blocks| > 1 {
      assert BlockClean(cfg, c, 1);
    }
  }

  lemma CleanSealed(cfg: Config, payloads: map<string, string>, blocks: seq<Block>, i: nat)
    requires i < |blocks|
    ensures HashesClean(cfg, payloads, blocks, i) <==> SealedAt(cfg, payloads, blocks, i)
  {
    hide Root, Leaves, Join, Parts, DigestText;
  }

  const MAINNET_MERKLE := "3841f540d53967b51a1eab6bfd50be5feb0cab2323fd7c1bda44795c400352fd"
  const MAINNET_HASH := "20d14caaebca64e012c09fdacbbe2fcfb1def9fe083512591879dce30f090cbf"

  /** A new mainnet store and two routine checks, one interval apart. */
  lemma MainnetStarts(cfg: Config, psz: string, now: int)
    requires cfg.genesisMerkle == MAINNET_MERKLE && cfg.genesisHash == MAINNET_HASH
    ensures var ops := [TickOp(now), TickOp(now + cfg.interval)];
            var r := Run(cfg, Blank(psz), ops, |ops|);
            && |r.blocks| == 2 && r.blocks[0].eventIds == []
            && r.blocks[0].blockHash == MAINNET_HASH && r.blocks[0].merkleRoot == MAINNET_MERKLE
            && r.blocks[1].prevHash == MAINNET_HASH
  {
    hide Run, Tick, Valid, Behind;
    var ops := [TickOp(now), TickOp(now + cfg.interval)];
    TwoOps(cfg, Blank(psz), ops[0], ops[1]);
    NewValid(cfg, Blank(psz));
    TickValid(cfg, Blank(psz), now);
    FirstTickIs(cfg, psz, now);
    var c := Tick(cfg, Blank(psz), now);
    OneBehind(cfg, c.blocks, now + cfg.interval);
    TickConfirms(cfg, c, now + cfg.interval);
    RunsKeepGenesis(cfg, Blank(psz), ops, |ops|);
  }

  lemma FirstTickIs(cfg: Config, psz: string, now: int)
    ensures var r := Tick(cfg, Blank(psz), now);
            |r.blocks| == 1 && r.blocks[0].eventIds == [] && r.blocks[0].openedUnix == now
  {
    hide Settle;
    var c := EnsureGenesis(cfg, Blank(psz), now);
    assert Slots(cfg, c.blocks, now, MAX_RESERVE_PER_CHECK) == c.blocks;
    var d := Confirm(cfg, EnsureSlots(cfg, c, now), now);
    SettleShape(cfg, d);
    assert Shape(Settle(cfg, d).blocks[0]) == Shape(d.blocks[0]);
  }
}
