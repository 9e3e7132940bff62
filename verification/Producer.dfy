/** What producers write to the log, and why the replay accepts it. */
module Producer {
  import opened Types
  import opened Decimal
  import opened Canonical
  import opened Sha256
  import opened Timeline
  import opened Invariant
  import opened Ledger
  import opened Replay
  import opened Checkpoint
  import opened Growth
  import Schedule

  /** Who signs, and for which chain. */
  datatype Identity = Identity(cid: string, community: string, chainId: string, networkId: string)

  function KindNumber(kind: EventKind): nat {
    match kind
    case RecipeCreated => 0
    case ThreadCreated => 1
    case ReplyCreated => 2
    case ReviewAdded => 3
    case ThumbsUpAdded => 4
    case BlockRewardClaimed => 5
    case RewardTransferred => 6
    case ProfileUpdated => 7
    case KeyRotated => 8
    case ModeratorAdded => 9
    case ModeratorRemoved => 10
    case ContentFlagged => 11
    case ContentHidden => 12
    case ContentUnhidden => 13
    case CoreTopicPinned => 14
    case CoreTopicUnpinned => 15
    case PolicyUpdated => 16
  }

  /** The fields `make_event` adds to every payload. */
  function Signed(id: Identity, kind: EventKind, ts: int, fields: seq<Pair>): (all: seq<Pair>)
    ensures |all| == |fields| + 6 && fields <= all
  {
    fields + [("author_cid", id.cid), ("community_id", id.community), ("chain_id", id.chainId),
              ("network_id", id.networkId), ("kind", NatText(KindNumber(kind))), ("unix_ts", IntText(ts))]
  }

  // ----- reading a field back

  /** A field of a well-formed payload reads back as it was written, whatever its value. */
  lemma FieldReadsBack(fields: seq<Pair>, i: nat)
    requires DistinctKeys(fields) && KeysOk(fields) && i < |fields|
    ensures var payload := ParseMap(CanonicalText(fields));
            fields[i].0 in payload && payload[fields[i].0] == fields[i].1
  {
    hide ParseMap, CanonicalText, Lookup, KeysOk;
    RoundTrip(fields);
    LookupAt(fields, i);
    assert fields[i] in fields;
  }

  /** Letters and underscores make a good key. */
  predicate Word(s: string) { s != "" && forall i | 0 <= i < |s| :: '_' <= s[i] <= 'z' }

  lemma WordsOk(fields: seq<Pair>)
    requires forall f | f in fields :: Word(f.0)
    ensures KeysOk(fields)
  {
  }

  // ----- transfers

  /** A transfer as the producer knows it: the receiver's key and name, the amount, the memo and the id of the transfer. */
  datatype Draft = Draft(transferId: string, to: string, byAddress: bool, toName: string, amount: int, memo: string)

  function TransferFields(h: HashFn, cid: string, d: Draft, fee: int, nonce: nat): (fields: seq<Pair>)
    ensures |fields| == 8
  {
    [("transfer_id", d.transferId), ("to_cid", d.to),
     (if d.byAddress then "to_address" else "to_display_name", d.toName),
     ("amount", IntText(d.amount)), ("fee", IntText(fee)), ("nonce", NatText(nonce)),
     ("witness_root", TransferWitness(h, cid, d.to, d.amount, fee, nonce)), ("memo", d.memo)]
  }

  function TransferPayload(h: HashFn, id: Identity, ts: int, d: Draft, fee: int, nonce: nat): string {
    CanonicalText(Signed(id, RewardTransferred, ts, TransferFields(h, id.cid, d, fee, nonce)))
  }

  lemma TransferKeys(h: HashFn, id: Identity, ts: int, d: Draft, fee: int, nonce: nat)
    ensures DistinctKeys(Signed(id, RewardTransferred, ts, TransferFields(h, id.cid, d, fee, nonce)))
  {
    hide NatText, IntText, TransferWitness, KindNumber;
  }

  lemma TransferWords(h: HashFn, id: Identity, ts: int, d: Draft, fee: int, nonce: nat)
    ensures KeysOk(Signed(id, RewardTransferred, ts, TransferFields(h, id.cid, d, fee, nonce)))
  {
    hide NatText, IntText, TransferWitness, KindNumber, KeysOk;
    var own, common := TransferFields(h, id.cid, d, fee, nonce), Signed(id, RewardTransferred, ts, []);
    var all := Signed(id, RewardTransferred, ts, own);
    assert all == own + common;
    OwnWords(own);
    CommonWords(common);
    WordsOk(all);
  }

  lemma OwnWords(f: seq<Pair>)
    requires |f| == 8 && f[0].0 == "transfer_id" && f[1].0 == "to_cid" && f[3].0 == "amount" && f[4].0 == "fee"
    requires f[2].0 == "to_address" || f[2].0 == "to_display_name"
    requires f[5].0 == "nonce" && f[6].0 == "witness_root" && f[7].0 == "memo"
    ensures forall p | p in f :: Word(p.0)
  {
  }

  lemma CommonWords(f: seq<Pair>)
    requires |f| == 6 && f[0].0 == "author_cid" && f[1].0 == "community_id" && f[2].0 == "chain_id"
    requires f[3].0 == "network_id" && f[4].0 == "kind" && f[5].0 == "unix_ts"
    ensures forall p | p in f :: Word(p.0)
  {
  }

  /** What the replay reads in a transfer. */
  predicate ReadsAsTransfer(payload: map<string, string>, to: string, amount: int, fee: int, nonce: nat, witnessRoot: string) {
    && Field(payload, "to_cid", "") == to
    && IntField(payload, "amount") == amount && IntField(payload, "fee") == fee
    && NatField(payload, "nonce") == Some(nonce)
    && WitnessIs(payload, witnessRoot)
  }

  lemma TransferReadsBack(h: HashFn, id: Identity, ts: int, d: Draft, fee: int, nonce: nat)
    requires IsI64(d.amount) && IsI64(fee) && nonce <= U64_MAX
    ensures ReadsAsTransfer(ParseMap(TransferPayload(h, id, ts, d, fee, nonce)), d.to, d.amount, fee, nonce,
                            TransferWitness(h, id.cid, d.to, d.amount, fee, nonce))
  {
    hide ParseMap, CanonicalText, NatText, IntText, TransferWitness, KindNumber, DistinctKeys, KeysOk, ParseI64, ParseU64;
    var all := Signed(id, RewardTransferred, ts, TransferFields(h, id.cid, d, fee, nonce));
    TransferKeys(h, id, ts, d, fee, nonce);
    TransferWords(h, id, ts, d, fee, nonce);
    FieldReadsBack(all, 1);
    FieldReadsBack(all, 3);
    FieldReadsBack(all, 4);
    FieldReadsBack(all, 5);
    FieldReadsBack(all, 6);
    ParseI64OfText(d.amount);
    ParseI64OfText(fee);
    ParseU64OfText(nonce);
  }

  // ----- bounds that follow from conservation

  lemma {:induction false} SumNonNegative(m: map<string, int>, cids: set<string>)
    requires NonNegative(m)
    ensures SumOver(m, cids) >= 0
    decreases |cids|
  {
    if cids != {} {
      var k :| k in cids;
      SumWithout(m, cids, k);
      SumNonNegative(m, cids - {k});
    }
  }

  /** Nobody holds more than the whole supply. */
  lemma BalanceBound(l: Ledger, cid: string)
    requires Solvent(l)
    ensures 0 <= Balance(l.balances, cid) <= MAX_SUPPLY
  {
    if cid in l.balances {
      SumWithout(l.balances, l.balances.Keys, cid);
      SumNonNegative(l.balances, l.balances.Keys - {cid});
    }
  }

  /** Every accepted transfer burns something, so nonces cannot outgrow the supply either. */
  lemma {:induction false} NonceBound(econ: Econ, blocks: seq<Block>, events: seq<Event>, n: nat, cid: string)
    requires n <= |events|
    ensures Nonce(Economy(econ, blocks, events, n).nonces, cid) <= Economy(econ, blocks, events, n).burned
  {
    hide JudgeEvent;
    if n > 0 {
      NonceBound(econ, blocks, events, n - 1, cid);
      NonceBound(econ, blocks, events, n - 1, events[n - 1].author);
      TransferNonce(econ, blocks, Economy(econ, blocks, events, n - 1), events[n - 1]);
      TransferBurns(econ, blocks, Economy(econ, blocks, events, n - 1), events[n - 1]);
    }
  }

  lemma TransferBurns(econ: Econ, blocks: seq<Block>, l: Ledger, e: Event)
    ensures var v := JudgeEvent(econ, blocks, l, e);
            (v.Transfer? ==> v.fee >= 1) && (v.Spend? ==> v.value >= 1)
  {
    hide ParseMap, WorkOk, Claimable, ExpectedReward, TransferWitness, ClaimWitness;
  }

  // ----- acceptance

  /** The ledger after `amount` went from one CID to another and the fee was burned. */
  function Moved(l: Ledger, cid: string, to: string, amount: int, fee: int): Ledger {
    var paid := l.balances[cid := Balance(l.balances, cid) - amount - fee];
    l.(balances := paid[to := Balance(paid, to) + amount],
       burned := l.burned + fee,
       nonces := l.nonces[cid := Nonce(l.nonces, cid) + 1])
  }

  /** The transfer the producer writes against a materialized store. */
  predicate IsTransfer(econ: Econ, l: Ledger, id: Identity, d: Draft, e: Event) {
    && e.kind.RewardTransferred? && e.author == id.cid
    && e.payload == TransferPayload(econ.h, id, e.ts, d, BurnFee(d.amount), Nonce(l.nonces, id.cid) + 1)
  }

  lemma TransferJudged(econ: Econ, blocks: seq<Block>, l: Ledger, id: Identity, d: Draft, e: Event)
    requires IsTransfer(econ, l, id, d, e) && d.to != "" && 0 < d.amount <= MAX_SUPPLY
    requires Nonce(l.nonces, id.cid) <= MAX_SUPPLY && Balance(l.balances, id.cid) >= d.amount + BurnFee(d.amount)
    ensures EconStep(econ, blocks, l, e) == Moved(l, id.cid, d.to, d.amount, BurnFee(d.amount))
  {
    hide ParseMap, TransferPayload, TransferWitness, IntField, NatField, WitnessIs;
    var fee, nonce := BurnFee(d.amount), Nonce(l.nonces, id.cid) + 1;
    TransferReadsBack(econ.h, id, e.ts, d, fee, nonce);
  }

  /**
   * A transfer written against a materialized store whose sender can pay is accepted wherever it sorts last: exactly
   * the amount reaches the receiver, exactly the fee is burned, and the sender's next nonce is one higher.
   */
  lemma TransferAccepted(cfg: Config, econ: Econ, c: Chain, id: Identity, d: Draft, e: Event, now: int, later: int)
    requires Valid(cfg, c) && c.blocks != [] && Judge(cfg, c.events, e, now).Appended? && ComesLast(cfg, c, e)
    requires IsTransfer(econ, Materialized(econ, c), id, d, e) && d.to != "" && d.amount > 0
    requires Balance(Materialized(econ, c).balances, id.cid) >= d.amount + BurnFee(d.amount)
    ensures Materialized(econ, Append(cfg, c, e, now, later)) ==
            Moved(Materialized(econ, c), id.cid, d.to, d.amount, BurnFee(d.amount))
  {
    hide Valid, Append, ComesLast, Ordered, Economy, EconStep, IsTransfer, Moved;
    var l := Materialized(econ, c);
    AlwaysSolvent(econ, c.blocks, Ordered(c), |Ordered(c)|);
    BalanceBound(l, id.cid);
    NonceBound(econ, c.blocks, Ordered(c), |Ordered(c)|, id.cid);
    BurnedBound(l);
    AppendBooks(cfg, econ, c, e, now, later);
    TransferJudged(econ, c.blocks, l, id, d, e);
  }

  lemma BurnedBound(l: Ledger)
    requires Solvent(l)
    ensures l.burned <= MAX_SUPPLY
  {
    SumNonNegative(l.balances, l.balances.Keys);
  }

  // ----- claims

  /** A claim as the producer knows it: the proof of work it found, and the block. */
  datatype Work = Work(claimId: string, block: Block, difficulty: nat, attempt: nat, powHash: string)

  function PowMaterial(id: Identity, b: Block): string {
    id.community + "|" + id.cid + "|" + NatText(b.index) + "|" + b.blockHash + "|" + b.merkleRoot
  }

  /** What the search for a proof of work has to find. */
  predicate Found(h: HashFn, id: Identity, w: Work) {
    && w.powHash != "" && w.powHash == h(PowMaterial(id, w.block) + "|" + NatText(w.attempt))
    && LeadingZeroNibbles(w.powHash, w.difficulty)
  }

  function ClaimFields(h: HashFn, id: Identity, w: Work, reward: int): (fields: seq<Pair>)
    ensures |fields| == 11
  {
    [("claim_id", w.claimId), ("block_index", NatText(w.block.index)), ("reward", IntText(reward)),
     ("pow_difficulty", NatText(w.difficulty)), ("pow_nonce", NatText(w.attempt)),
     ("pow_material", PowMaterial(id, w.block)), ("pow_hash", w.powHash),
     ("witness_root", ClaimWitness(h, id.cid, w.block.index, reward, w.powHash)),
     ("block_hash", w.block.blockHash), ("merkle_root", w.block.merkleRoot), ("psz_timestamp", w.block.psz)]
  }

  function ClaimPayload(h: HashFn, id: Identity, ts: int, w: Work, reward: int): string {
    CanonicalText(Signed(id, BlockRewardClaimed, ts, ClaimFields(h, id, w, reward)))
  }

  lemma ClaimKeys(h: HashFn, id: Identity, ts: int, w: Work, reward: int)
    ensures DistinctKeys(Signed(id, BlockRewardClaimed, ts, ClaimFields(h, id, w, reward)))
  {
    hide NatText, IntText, ClaimWitness, KindNumber, PowMaterial;
  }

  lemma ClaimWords(h: HashFn, id: Identity, ts: int, w: Work, reward: int)
    ensures KeysOk(Signed(id, BlockRewardClaimed, ts, ClaimFields(h, id, w, reward)))
  {
    hide NatText, IntText, ClaimWitness, KindNumber, KeysOk, PowMaterial;
    var own, common := ClaimFields(h, id, w, reward), Signed(id, BlockRewardClaimed, ts, []);
    var all := Signed(id, BlockRewardClaimed, ts, own);
    assert all == own + common;
    WorkWords(own);
    CommonWords(common);
    WordsOk(all);
  }

  lemma WorkWords(f: seq<Pair>)
    requires |f| == 11 && f[0].0 == "claim_id" && f[1].0 == "block_index" && f[2].0 == "reward" && f[3].0 == "pow_difficulty"
    requires f[4].0 == "pow_nonce" && f[5].0 == "pow_material" && f[6].0 == "pow_hash" && f[7].0 == "witness_root"
    requires f[8].0 == "block_hash" && f[9].0 == "merkle_root" && f[10].0 == "psz_timestamp"
    ensures forall p | p in f :: Word(p.0)
  {
  }

  /** What the replay reads in a claim. */
  predicate ReadsAsClaim(h: HashFn, payload: map<string, string>, id: Identity, w: Work, reward: int) {
    && NatField(payload, "block_index") == Some(w.block.index) && IntField(payload, "reward") == reward
    && "pow_difficulty" in payload && ParseI64OrZero(payload["pow_difficulty"]) == w.difficulty
    && Field(payload, "pow_nonce", "") == NatText(w.attempt) && Field(payload, "pow_hash", "") == w.powHash
    && Field(payload, "pow_material", "") == PowMaterial(id, w.block)
    && WitnessIs(payload, ClaimWitness(h, id.cid, w.block.index, reward, w.powHash))
  }

  lemma ClaimReadsBack(h: HashFn, id: Identity, ts: int, w: Work, reward: int)
    requires w.block.index <= U64_MAX && IsI64(reward) && IsI64(w.difficulty)
    ensures ReadsAsClaim(h, ParseMap(ClaimPayload(h, id, ts, w, reward)), id, w, reward)
  {
    hide ParseMap, CanonicalText, NatText, ClaimWitness, KindNumber, DistinctKeys, KeysOk, ParseI64, ParseU64, PowMaterial;
    var all := Signed(id, BlockRewardClaimed, ts, ClaimFields(h, id, w, reward));
    ClaimKeys(h, id, ts, w, reward);
    ClaimWords(h, id, ts, w, reward);
    FieldReadsBack(all, 1);
    FieldReadsBack(all, 2);
    FieldReadsBack(all, 3);
    FieldReadsBack(all, 4);
    FieldReadsBack(all, 5);
    FieldReadsBack(all, 6);
    FieldReadsBack(all, 7);
    ParseU64OfText(w.block.index);
    ParseI64OfText(reward);
    ParseI64OfText(w.difficulty);
  }

  /** The ledger after a reward was claimed. */
  function Rewarded(l: Ledger, cid: string, index: nat, reward: int): Ledger {
    l.(claimed := l.claimed[index := cid],
       balances := l.balances[cid := Balance(l.balances, cid) + reward],
       issued := l.issued + reward)
  }

  predicate IsClaim(econ: Econ, l: Ledger, id: Identity, w: Work, e: Event) {
    && e.kind.BlockRewardClaimed? && e.author == id.cid
    && e.payload == ClaimPayload(econ.h, id, e.ts, w, ExpectedReward(econ.units, w.block.index, l.issued))
  }

  lemma SmallDifficulty(n: nat)
    requires n < 0x8000_0000
    ensures ToInt32(n) == n
  {
  }

  lemma ClaimJudged(econ: Econ, blocks: seq<Block>, l: Ledger, id: Identity, w: Work, e: Event)
    requires IsClaim(econ, l, id, w, e) && Found(econ.h, id, w) && w.block.index <= U64_MAX && w.difficulty < 0x8000_0000
    requires var reward := ExpectedReward(econ.units, w.block.index, l.issued); 0 < reward <= MAX_SUPPLY
    requires Claimable(blocks, w.block.index) && w.block.index !in l.claimed
    ensures EconStep(econ, blocks, l, e) ==
            Rewarded(l, id.cid, w.block.index, ExpectedReward(econ.units, w.block.index, l.issued))
  {
    hide ParseMap, ClaimPayload, ClaimWitness, NatField, IntField, WitnessIs, Claimable, ExpectedReward, PowMaterial,
      LeadingZeroNibbles, NatText, ToInt32, ParseI64OrZero;
    var reward := ExpectedReward(econ.units, w.block.index, l.issued);
    ClaimReadsBack(econ.h, id, e.ts, w, reward);
    SmallDifficulty(w.difficulty);
  }

  /** `claimable_confirmed_blocks`, the test on one block. */
  predicate Offered(threshold: nat, c: Chain, l: Ledger, b: Block) {
    && b in c.blocks && b.index != 0 && b.confirmed
    && Tip(c.blocks).Some? && Confirmations(Tip(c.blocks).value, b.index) >= threshold
    && b.index !in l.claimed
  }

  /**
   * A claim written against a materialized store, for a block the store offers, with a proof of work, is accepted
   * wherever it sorts last: exactly the scheduled reward, capped by what is left, is issued to the claimant.
   */
  lemma ClaimAccepted(cfg: Config, econ: Econ, threshold: nat, c: Chain, id: Identity, w: Work, e: Event, now: int, later: int)
    requires Valid(cfg, c) && Judge(cfg, c.events, e, now).Appended? && ComesLast(cfg, c, e)
    requires Offered(threshold, c, Materialized(econ, c), w.block) && w.block.index <= U64_MAX
    requires IsClaim(econ, Materialized(econ, c), id, w, e) && Found(econ.h, id, w) && w.difficulty < 0x8000_0000
    requires ExpectedReward(econ.units, w.block.index, Materialized(econ, c).issued) > 0
    ensures var l := Materialized(econ, c);
            Materialized(econ, Append(cfg, c, e, now, later)) ==
              Rewarded(l, id.cid, w.block.index, ExpectedReward(econ.units, w.block.index, l.issued))
  {
    hide Append, ComesLast, Ordered, Economy, EconStep, IsClaim, Rewarded, Schedule.Scheduled, Linked, Limits, Found, IndexOf;
    var l := Materialized(econ, c);
    AlwaysSolvent(econ, c.blocks, Ordered(c), |Ordered(c)|);
    ClaimableIs(c.blocks, w.block.index);
    AppendBooks(cfg, econ, c, e, now, later);
    ClaimJudged(econ, c.blocks, l, id, w, e);
  }
}
