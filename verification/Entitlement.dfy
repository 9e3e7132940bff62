/** What moves money. */
module Entitlement {
  import opened Types
  import opened Decimal
  import opened Canonical
  import opened Invariant
  import opened Schedule
  import opened Ledger
  import opened Replay

  /** All there will ever be. */
  const SUPPLY := 69_359_946

  // ----- what each kind of event must show

  /** A claim of a confirmed block nobody has claimed, for exactly what is due, with its work and its witness. */
  predicate Earns(econ: Econ, blocks: seq<Block>, l: Ledger, e: Event, index: nat, reward: int) {
    var p := ParseMap(e.payload);
    && e.kind.BlockRewardClaimed?
    && "block_index" in p && ParseU64(p["block_index"]) == Some(index)
    && "reward" in p && ParseI64OrZero(p["reward"]) == reward
    && index != 0 && l.issued < SUPPLY && reward == Min(Scheduled(econ.units, index), SUPPLY - l.issued)
    && index < |blocks| && blocks[index].confirmed && index !in l.claimed
    && ShowsWork(econ.h, p)
    && "witness_root" in p
    && p["witness_root"] == econ.h(e.author + "|" + NatText(index) + "|" + IntText(reward) + "|" + p["pow_hash"])
  }

  /** The digest is the one of the carried text, and starts with as many zeros as the claim says, or four. */
  predicate ShowsWork(h: HashFn, p: map<string, string>) {
    var zeros := if "pow_difficulty" in p then ToInt32(ParseI64OrZero(p["pow_difficulty"])) else 4;
    && "pow_hash" in p && p["pow_hash"] != ""
    && p["pow_hash"] == h(Field(p, "pow_material", "") + "|" + Field(p, "pow_nonce", ""))
    && zeros <= |p["pow_hash"]| && forall i | 0 <= i < zeros :: p["pow_hash"][i] == '0'
  }

  /**
   * A transfer to somebody, with the next nonce of its author, a fee of one percent rounded down but at least one unit,
   * and the witness of exactly these terms.
   */
  predicate Terms(econ: Econ, l: Ledger, e: Event, to: string, amount: int, fee: int, nonce: nat) {
    var p := ParseMap(e.payload);
    && e.kind.RewardTransferred?
    && "to_cid" in p && p["to_cid"] == to && to != ""
    && "amount" in p && ParseI64OrZero(p["amount"]) == amount && amount > 0
    && "fee" in p && ParseI64OrZero(p["fee"]) == fee
    && "nonce" in p && ParseU64(p["nonce"]) == Some(nonce) && nonce == Nonce(l.nonces, e.author) + 1
    && fee >= 1 && (fee == 1 || 100 * fee <= amount) && amount < 100 * (fee + 1)
    && "witness_root" in p
    && p["witness_root"] ==
         econ.h(e.author + "|" + to + "|" + IntText(amount) + "|" + IntText(fee) + "|" + NatText(nonce))
  }

  /** And with the money for both. */
  predicate Sends(econ: Econ, l: Ledger, e: Event, to: string, amount: int, fee: int, nonce: nat) {
    Terms(econ, l, e, to, amount, fee, nonce) && amount + fee <= Balance(l.balances, e.author)
  }

  /** What a post offers: its first price field decides. */
  predicate Offers(e: Event, value: int) {
    var p := ParseMap(e.payload);
    && (e.kind.RecipeCreated? || e.kind.ThreadCreated? || e.kind.ReplyCreated? || e.kind.ReviewAdded? || e.kind.ThumbsUpAdded?)
    && ("post_value" in p ==> value == ParseI64OrZero(p["post_value"]))
    && ("post_value" !in p && "value_units" in p ==> value == ParseI64OrZero(p["value_units"]))
    && ("post_value" !in p && "value_units" !in p && "value" in p ==> value == ParseI64OrZero(p["value"]))
    && ("post_value" !in p && "value_units" !in p && "value" !in p ==> value == 0)
  }

  // ----- what moves

  /** Account by account: `gain` of an account is what it has more afterwards. */
  ghost predicate Accounts(l: Ledger, l': Ledger, gain: string -> int) {
    forall cid :: Balance(l'.balances, cid) == Balance(l.balances, cid) + gain(cid)
  }

  ghost predicate SameNonces(l: Ledger, l': Ledger) { forall cid :: Nonce(l'.nonces, cid) == Nonce(l.nonces, cid) }

  ghost predicate PaysReward(l: Ledger, l': Ledger, e: Event, index: nat, reward: int) {
    && Accounts(l, l', cid => if cid == e.author then reward else 0) && SameNonces(l, l')
    && l'.issued == l.issued + reward && l'.burned == l.burned
    && l'.claimed == l.claimed[index := e.author] && l'.refused == l.refused
  }

  ghost predicate PaysOut(l: Ledger, l': Ledger, e: Event, to: string, amount: int, fee: int) {
    && Accounts(l, l', cid => (if cid == to then amount else 0) - (if cid == e.author then amount + fee else 0))
    && (forall cid :: Nonce(l'.nonces, cid) == Nonce(l.nonces, cid) + if cid == e.author then 1 else 0)
    && l'.issued == l.issued && l'.burned == l.burned + fee
    && l'.claimed == l.claimed && l'.refused == l.refused
  }

  ghost predicate Charges(l: Ledger, l': Ledger, e: Event, value: int) {
    && Accounts(l, l', cid => if cid == e.author then -value else 0) && SameNonces(l, l')
    && l'.issued == l.issued && l'.burned == l.burned + value
    && l'.claimed == l.claimed && l'.refused == l.refused
  }

  ghost predicate NothingMoves(l: Ledger, l': Ledger) {
    && Accounts(l, l', cid => 0) && SameNonces(l, l')
    && l'.issued == l.issued && l'.burned == l.burned && l'.claimed == l.claimed
  }

  /** Nothing moves, and the event is put down as refused. */
  ghost predicate TurnsDown(l: Ledger, l': Ledger, e: Event) {
    NothingMoves(l, l') && e.id in l'.refused && l'.refused - {e.id} == l.refused - {e.id}
  }

  // ----- booking

  lemma BookRefusal(l: Ledger, e: Event, reason: Reason)
    ensures TurnsDown(l, Book(l, e, Refuse(reason)), e)
  {
  }

  lemma BookClaim(l: Ledger, e: Event, index: nat, reward: int)
    ensures PaysReward(l, Book(l, e, Claim(index, reward)), e, index, reward)
  {
  }

  lemma BookTransfer(l: Ledger, e: Event, to: string, amount: int, fee: int, nonce: nat)
    requires nonce == Nonce(l.nonces, e.author) + 1
    ensures PaysOut(l, Book(l, e, Transfer(to, amount, fee, nonce)), e, to, amount, fee)
  {
  }

  lemma BookSpend(l: Ledger, e: Event, value: int)
    ensures Charges(l, Book(l, e, Spend(value)), e, value)
  {
  }

  // ----- claims

  lemma DueReward(units: int, index: nat, issued: int, reward: int)
    ensures reward > 0 && reward == ExpectedReward(units, index, issued) <==>
            index != 0 && issued < SUPPLY && reward == Min(Scheduled(units, index), SUPPLY - issued)
  {
    hide Decayed;
  }

  lemma WorkShown(h: HashFn, p: map<string, string>)
    ensures WorkOk(h, p) <==> ShowsWork(h, p)
    ensures ShowsWork(h, p) ==> "pow_hash" in p
  {
    hide ToInt32, ParseI64OrZero;
  }

  /** A claim is paid exactly when it earns a reward, and is refused otherwise. */
  lemma ClaimDecided(econ: Econ, blocks: seq<Block>, l: Ledger, e: Event)
    requires Positions(blocks) && e.kind.BlockRewardClaimed?
    ensures var l' := EconStep(econ, blocks, l, e);
            && (forall index, reward | Earns(econ, blocks, l, e, index, reward) :: PaysReward(l, l', e, index, reward))
            && ((forall index, reward :: !Earns(econ, blocks, l, e, index, reward)) ==> TurnsDown(l, l', e))
  {
    hide ParseMap, ParseU64, ParseI64OrZero, WorkOk, ShowsWork, Claimable, ExpectedReward, Book, PaysReward, TurnsDown, Scheduled;
    var p := ParseMap(e.payload);
    WorkShown(econ.h, p);
    var v := JudgeEvent(econ, blocks, l, e);
    if "block_index" in p && ParseU64(p["block_index"]).Some? {
      var index, reward := ParseU64(p["block_index"]).value, IntField(p, "reward");
      ClaimableIs(blocks, index);
      DueReward(econ.units, index, l.issued, reward);
      assert NatField(p, "block_index") == Some(index);
      assert v.Claim? <==> Earns(econ, blocks, l, e, index, reward);
      if v.Claim? {
        BookClaim(l, e, index, reward);
      } else {
        BookRefusal(l, e, v.reason);
      }
    } else {
      BookRefusal(l, e, v.reason);
    }
  }

  // ----- transfers

  lemma OnePercent(amount: int, fee: int)
    requires amount > 0
    ensures fee == BurnFee(amount) <==> fee >= 1 && (fee == 1 || 100 * fee <= amount) && amount < 100 * (fee + 1)
  {
  }

  /** A transfer is booked exactly when it sends, and is refused otherwise. */
  lemma TransferDecided(econ: Econ, blocks: seq<Block>, l: Ledger, e: Event)
    requires e.kind.RewardTransferred?
    ensures var l' := EconStep(econ, blocks, l, e);
            && (forall to, amount, fee, nonce | Sends(econ, l, e, to, amount, fee, nonce) :: PaysOut(l, l', e, to, amount, fee))
            && ((forall to, amount, fee, nonce :: !Sends(econ, l, e, to, amount, fee, nonce)) ==> TurnsDown(l, l', e))
  {
    hide ParseMap, ParseU64, ParseI64OrZero, BurnFee, Book, PaysOut, TurnsDown;
    var p := ParseMap(e.payload);
    var to, amount, fee, nonce := Field(p, "to_cid", ""), IntField(p, "amount"), IntField(p, "fee"), NatField(p, "nonce");
    var v := JudgeEvent(econ, blocks, l, e);
    if amount > 0 {
      OnePercent(amount, fee);
    }
    if v.Transfer? {
      assert Sends(econ, l, e, to, amount, fee, nonce.value);
      BookTransfer(l, e, to, amount, fee, nonce.value);
    } else {
      BookRefusal(l, e, v.reason);
    }
  }

  /** A transfer whose fields can be read. */
  predicate Legible(p: map<string, string>) {
    && "to_cid" in p && p["to_cid"] != "" && "amount" in p && ParseI64OrZero(p["amount"]) > 0
    && ("fee" in p ==> ParseI64OrZero(p["fee"]) >= 0)
    && "nonce" in p && ParseU64(p["nonce"]).Some? && ParseU64(p["nonce"]).value != 0
  }

  /** Looking up a nonce or a balance leaves an entry for the author, whatever becomes of the transfer. */
  lemma TransferEntries(econ: Econ, blocks: seq<Block>, l: Ledger, e: Event)
    requires e.kind.RewardTransferred?
    ensures var l' := EconStep(econ, blocks, l, e);
            && l'.nonces.Keys == l.nonces.Keys + (if Legible(ParseMap(e.payload)) then {e.author} else {})
            && (forall to, amount, fee, nonce | Terms(econ, l, e, to, amount, fee, nonce) :: e.author in l'.balances)
  {
    hide ParseMap, ParseU64, ParseI64OrZero, TransferWitness, JudgeTransfer;
    TransferTouches(econ, l, e, ParseMap(e.payload));
  }

  lemma TransferTouches(econ: Econ, l: Ledger, e: Event, p: map<string, string>)
    requires p == ParseMap(e.payload) && e.kind.RewardTransferred?
    ensures var v := JudgeTransfer(econ, l, e.author, p);
            && (v.Transfer? || v.Refuse?)
            && (v.Refuse? ==> (LooksUpNonce(v.reason) <==> Legible(p)))
            && (v.Transfer? ==> Legible(p))
            && ((exists to, amount, fee, nonce :: Terms(econ, l, e, to, amount, fee, nonce)) ==>
                 v.Transfer? || LooksUpBalance(v.reason))
  {
    hide ParseMap, ParseU64, ParseI64OrZero, BurnFee, WitnessIs;
    if to, amount, fee, nonce :| Terms(econ, l, e, to, amount, fee, nonce) {
      OnePercent(amount, fee);
      WitnessHolds(econ, l, e, to, amount, fee, nonce);
    }
  }

  lemma WitnessHolds(econ: Econ, l: Ledger, e: Event, to: string, amount: int, fee: int, nonce: nat)
    requires Terms(econ, l, e, to, amount, fee, nonce)
    ensures WitnessIs(ParseMap(e.payload), TransferWitness(econ.h, e.author, to, amount, fee, nonce))
  {
    hide ParseMap;
  }

  /** The same for a post that asks for a positive price. */
  lemma PostEntries(econ: Econ, blocks: seq<Block>, l: Ledger, e: Event, value: int)
    requires Offers(e, value)
    ensures e.author in EconStep(econ, blocks, l, e).balances <==> e.author in l.balances || value > 0
  {
    hide ParseMap, ParseI64OrZero;
  }

  // ----- posts and the rest

  /** A post burns what it offers if its author has that much, and is refused if not or if it offers a negative price. */
  lemma PostDecided(econ: Econ, blocks: seq<Block>, l: Ledger, e: Event, value: int)
    requires Offers(e, value)
    ensures var l' := EconStep(econ, blocks, l, e);
            if 0 <= value && (value == 0 || value <= Balance(l.balances, e.author)) then Charges(l, l', e, value)
            else TurnsDown(l, l', e)
  {
    hide ParseMap, ParseI64OrZero, Book, Charges, TurnsDown;
    var v := JudgeEvent(econ, blocks, l, e);
    assert value == PostValue(ParseMap(e.payload));
    match v {
      case Spend(_) => BookSpend(l, e, value);
      case Refuse(reason) => BookRefusal(l, e, reason);
      case Neutral => BookNeutral(l, e);
    }
  }

  lemma BookNeutral(l: Ledger, e: Event)
    ensures Book(l, e, Neutral) == l && Charges(l, l, e, 0)
  {
  }

  /** No other kind of event touches the ledger. */
  lemma RestIgnored(econ: Econ, blocks: seq<Block>, l: Ledger, e: Event)
    requires !e.kind.BlockRewardClaimed? && !e.kind.RewardTransferred?
    requires forall value :: !Offers(e, value)
    ensures EconStep(econ, blocks, l, e) == l
  {
    hide ParseMap, ParseI64OrZero;
    assert IsPostKind(e.kind) ==> Offers(e, PostValue(ParseMap(e.payload)));
  }

  // ----- the whole replay

  /** One step of the ledger, and the reason for it. */
  ghost predicate Explained(econ: Econ, blocks: seq<Block>, l: Ledger, l': Ledger, e: Event) {
    || (exists index, reward :: Earns(econ, blocks, l, e, index, reward) && PaysReward(l, l', e, index, reward))
    || (exists to, amount, fee, nonce :: Sends(econ, l, e, to, amount, fee, nonce) && PaysOut(l, l', e, to, amount, fee))
    || (exists value :: Offers(e, value) && value >= 0 && Charges(l, l', e, value))
    || TurnsDown(l, l', e)
    || l' == l
  }

  lemma StepExplained(econ: Econ, blocks: seq<Block>, l: Ledger, e: Event)
    requires Positions(blocks)
    ensures Explained(econ, blocks, l, EconStep(econ, blocks, l, e), e)
  {
    hide Earns, Sends, PaysReward, PaysOut, Charges, TurnsDown, EconStep, Positions;
    if e.kind.BlockRewardClaimed? {
      ClaimDecided(econ, blocks, l, e);
    } else if e.kind.RewardTransferred? {
      TransferDecided(econ, blocks, l, e);
    } else if value :| Offers(e, value) {
      PostDecided(econ, blocks, l, e, value);
    } else {
      RestIgnored(econ, blocks, l, e);
    }
  }

  /** Every movement of every replay is a reward earned, a transfer sent, or a post paid. */
  lemma EveryMovement(econ: Econ, blocks: seq<Block>, events: seq<Event>, i: nat)
    requires Positions(blocks) && i < |events|
    ensures Explained(econ, blocks, Economy(econ, blocks, events, i), Economy(econ, blocks, events, i + 1), events[i])
  {
    hide EconStep, Explained;
    EconomyNext(econ, blocks, events, i);
    StepExplained(econ, blocks, Economy(econ, blocks, events, i), events[i]);
  }

  /** Nobody loses money by an event of somebody else, or by anything but a transfer sent or a post paid. */
  lemma MoneyLeaves(econ: Econ, blocks: seq<Block>, events: seq<Event>, i: nat, cid: string)
    requires Positions(blocks) && i < |events|
    requires Balance(Economy(econ, blocks, events, i + 1).balances, cid) < Balance(Economy(econ, blocks, events, i).balances, cid)
    ensures cid == events[i].author
    ensures (exists to, amount, fee, nonce :: Sends(econ, Economy(econ, blocks, events, i), events[i], to, amount, fee, nonce)) ||
            (exists value :: Offers(events[i], value))
  {
    hide Earns, Sends, Offers, Economy, Positions;
    EveryMovement(econ, blocks, events, i);
    LosesOnly(econ, blocks, Economy(econ, blocks, events, i), Economy(econ, blocks, events, i + 1), events[i], cid);
  }

  lemma LosesOnly(econ: Econ, blocks: seq<Block>, l: Ledger, l': Ledger, e: Event, cid: string)
    requires Explained(econ, blocks, l, l', e) && Balance(l'.balances, cid) < Balance(l.balances, cid)
    ensures cid == e.author
    ensures (exists to, amount, fee, nonce :: Sends(econ, l, e, to, amount, fee, nonce)) || (exists value :: Offers(e, value))
  {
    hide Offers;
    if index, reward :| Earns(econ, blocks, l, e, index, reward) && PaysReward(l, l', e, index, reward) {
      RewardPositive(econ, blocks, l, e, index, reward);
    }
  }

  lemma RewardPositive(econ: Econ, blocks: seq<Block>, l: Ledger, e: Event, index: nat, reward: int)
    requires Earns(econ, blocks, l, e, index, reward)
    ensures reward > 0
  {
    hide Decayed, ShowsWork;
  }

  /** Nobody gains money but by a reward earned by an event of their own, or by a transfer that somebody else sent them. */
  lemma MoneyArrives(econ: Econ, blocks: seq<Block>, events: seq<Event>, i: nat, cid: string)
    requires Positions(blocks) && i < |events|
    requires Balance(Economy(econ, blocks, events, i + 1).balances, cid) > Balance(Economy(econ, blocks, events, i).balances, cid)
    ensures var l, e := Economy(econ, blocks, events, i), events[i];
            || (e.author == cid && exists index, reward :: Earns(econ, blocks, l, e, index, reward))
            || (e.author != cid && exists amount, fee, nonce :: Sends(econ, l, e, cid, amount, fee, nonce))
  {
    hide Earns, Offers, Economy, Positions;
    EveryMovement(econ, blocks, events, i);
    GainsOnly(econ, blocks, Economy(econ, blocks, events, i), Economy(econ, blocks, events, i + 1), events[i], cid);
  }

  lemma GainsOnly(econ: Econ, blocks: seq<Block>, l: Ledger, l': Ledger, e: Event, cid: string)
    requires Explained(econ, blocks, l, l', e) && Balance(l'.balances, cid) > Balance(l.balances, cid)
    ensures || (e.author == cid && exists index, reward :: Earns(econ, blocks, l, e, index, reward))
            || (e.author != cid && exists amount, fee, nonce :: Sends(econ, l, e, cid, amount, fee, nonce))
  {
    hide Earns, Offers;
    if to, amount, fee, nonce :| Sends(econ, l, e, to, amount, fee, nonce) && PaysOut(l, l', e, to, amount, fee) {
      assert cid == to && cid != e.author;
    }
  }

  /** A refused event is in the final list of refusals. */
  lemma {:induction false} RefusedStays(econ: Econ, blocks: seq<Block>, events: seq<Event>, m: nat, n: nat)
    requires m <= n <= |events|
    ensures Economy(econ, blocks, events, m).refused.Keys <= Economy(econ, blocks, events, n).refused.Keys
  {
    hide JudgeEvent;
    if m < n {
      RefusedStays(econ, blocks, events, m, n - 1);
    }
  }

  /** So a transfer without its witness, its fee or anything else it must show ends up refused, having moved nothing. */
  lemma BadTransferRefused(econ: Econ, blocks: seq<Block>, events: seq<Event>, i: nat)
    requires i < |events| && events[i].kind.RewardTransferred?
    requires forall to, amount, fee, nonce :: !Sends(econ, Economy(econ, blocks, events, i), events[i], to, amount, fee, nonce)
    ensures TurnsDown(Economy(econ, blocks, events, i), Economy(econ, blocks, events, i + 1), events[i])
    ensures events[i].id in Economy(econ, blocks, events, |events|).refused
  {
    hide Economy, Sends, EconStep;
    EconomyNext(econ, blocks, events, i);
    TransferDecided(econ, blocks, Economy(econ, blocks, events, i), events[i]);
    RefusedStays(econ, blocks, events, i + 1, |events|);
  }
}
