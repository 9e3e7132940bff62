/** What the payloads of local events hold. */
module ProducedPayloads {
  import opened Types
  import opened Decimal
  import opened Canonical
  import opened Producer

  predicate Holds(p: map<string, string>, key: string, value: string) { key in p && p[key] == value }

  lemma HoldsField(fields: seq<Pair>, i: nat)
    requires DistinctKeys(fields) && KeysOk(fields) && i < |fields|
    ensures Holds(ParseMap(CanonicalText(fields)), fields[i].0, fields[i].1)
  {
    hide ParseMap, CanonicalText, DistinctKeys, KeysOk;
    FieldReadsBack(fields, i);
  }

  /** Every local event says who made it, for which chain, of which kind, and when. */
  lemma SignedHolds(id: Identity, kind: EventKind, ts: int, fields: seq<Pair>)
    requires DistinctKeys(Signed(id, kind, ts, fields)) && KeysOk(Signed(id, kind, ts, fields))
    ensures var p := ParseMap(CanonicalText(Signed(id, kind, ts, fields)));
            && Holds(p, "author_cid", id.cid) && Holds(p, "community_id", id.community)
            && Holds(p, "chain_id", id.chainId) && Holds(p, "network_id", id.networkId)
            && Holds(p, "kind", NatText(KindNumber(kind))) && Holds(p, "unix_ts", IntText(ts))
  {
    hide ParseMap, CanonicalText, DistinctKeys, KeysOk, KindNumber, NatText, IntText, Holds;
    var all, n := Signed(id, kind, ts, fields), |fields|;
    HoldsField(all, n);
    HoldsField(all, n + 1);
    HoldsField(all, n + 2);
    HoldsField(all, n + 3);
    HoldsField(all, n + 4);
    HoldsField(all, n + 5);
  }

  /** A local transfer names its terms, its receiver the way it was given, and the witness of the terms. */
  lemma TransferHolds(h: HashFn, id: Identity, ts: int, d: Draft, fee: int, nonce: nat)
    ensures var p := ParseMap(TransferPayload(h, id, ts, d, fee, nonce));
            && Holds(p, "transfer_id", d.transferId) && Holds(p, "to_cid", d.to)
            && (d.byAddress ==> Holds(p, "to_address", d.toName)) && (!d.byAddress ==> Holds(p, "to_display_name", d.toName))
            && Holds(p, "amount", IntText(d.amount)) && Holds(p, "fee", IntText(fee)) && Holds(p, "nonce", NatText(nonce))
            && Holds(p, "witness_root",
                     h(id.cid + "|" + d.to + "|" + IntText(d.amount) + "|" + IntText(fee) + "|" + NatText(nonce)))
            && Holds(p, "memo", d.memo) && Holds(p, "kind", NatText(6)) && Holds(p, "unix_ts", IntText(ts))
            && Holds(p, "author_cid", id.cid) && Holds(p, "community_id", id.community)
            && Holds(p, "chain_id", id.chainId) && Holds(p, "network_id", id.networkId)
  {
    hide ParseMap, CanonicalText, DistinctKeys, KeysOk, NatText, IntText, Holds;
    var fields := TransferFields(h, id.cid, d, fee, nonce);
    var all := Signed(id, RewardTransferred, ts, fields);
    TransferKeys(h, id, ts, d, fee, nonce);
    TransferWords(h, id, ts, d, fee, nonce);
    SignedHolds(id, RewardTransferred, ts, fields);
    HoldsField(all, 0);
    HoldsField(all, 1);
    HoldsField(all, 2);
    HoldsField(all, 3);
    HoldsField(all, 4);
    HoldsField(all, 5);
    HoldsField(all, 6);
    HoldsField(all, 7);
  }

  /** A local claim names its block three times over: by index, in the material of its work, and by its hashes. */
  lemma ClaimHolds(h: HashFn, id: Identity, ts: int, w: Work, reward: int)
    ensures var p := ParseMap(ClaimPayload(h, id, ts, w, reward));
            && Holds(p, "claim_id", w.claimId) && Holds(p, "block_index", NatText(w.block.index))
            && Holds(p, "reward", IntText(reward)) && Holds(p, "pow_difficulty", NatText(w.difficulty))
            && Holds(p, "pow_nonce", NatText(w.attempt)) && Holds(p, "pow_hash", w.powHash)
            && Holds(p, "pow_material",
                     id.community + "|" + id.cid + "|" + NatText(w.block.index) + "|" + w.block.blockHash + "|" + w.block.merkleRoot)
            && Holds(p, "witness_root",
                     h(id.cid + "|" + NatText(w.block.index) + "|" + IntText(reward) + "|" + w.powHash))
            && Holds(p, "block_hash", w.block.blockHash) && Holds(p, "merkle_root", w.block.merkleRoot)
            && Holds(p, "psz_timestamp", w.block.psz) && Holds(p, "kind", NatText(5)) && Holds(p, "unix_ts", IntText(ts))
            && Holds(p, "author_cid", id.cid) && Holds(p, "community_id", id.community)
            && Holds(p, "chain_id", id.chainId) && Holds(p, "network_id", id.networkId)
  {
    hide ParseMap, CanonicalText, DistinctKeys, KeysOk, NatText, IntText, Holds;
    var fields := ClaimFields(h, id, w, reward);
    var all := Signed(id, BlockRewardClaimed, ts, fields);
    ClaimKeys(h, id, ts, w, reward);
    ClaimWords(h, id, ts, w, reward);
    SignedHolds(id, BlockRewardClaimed, ts, fields);
    HoldsField(all, 0);
    HoldsField(all, 1);
    HoldsField(all, 2);
    HoldsField(all, 3);
    HoldsField(all, 4);
    HoldsField(all, 5);
    HoldsField(all, 6);
    HoldsField(all, 7);
    HoldsField(all, 8);
    HoldsField(all, 9);
    HoldsField(all, 10);
  }
}
