/** The economic half of the replay. */
module Ledger {
  import opened Types
  import opened Decimal
  import opened Canonical
  import opened Timeline
  import opened Sha256
  import opened Schedule

  /** The digest function and the reward of the first claimable block. */
  datatype Econ = Econ(h: HashFn, units: int)

  const MAX_SUPPLY := 69359946

  // ----- rewards and fees

  function ExpectedReward(units: int, index: nat, issued: int): int {
    if issued >= MAX_SUPPLY then 0
    else if Scheduled(units, index) <= 0 then 0
    else Min(Scheduled(units, index), MAX_SUPPLY - issued)
  }

  /** One percent, at least one unit. */
  function BurnFee(amount: int): (fee: int)
    ensures amount <= 0 ==> fee == 0
    ensures amount > 0 ==> fee >= 1 && (fee == 1 || 100 * fee <= amount) && amount < 100 * (fee + 1)
  {
    if amount <= 0 then 0 else Max(1, amount / 100)
  }

  // ----- the ledger

  datatype Reason =
    | NoBlockIndex | WrongReward | UnconfirmedBlock | AlreadyClaimed | BadWork | BadClaimWitness
    | BadTransfer | BadNonce | BadFee | BadTransferWitness | Overdraft
    | NegativePost | PostOverdraft

  datatype Ledger = Ledger(
    balances: map<string, int>,
    claimed: map<nat, string>,
    nonces: map<string, nat>,
    issued: int,
    burned: int,
    refused: map<string, Reason>)

  const EMPTY := Ledger(map[], map[], map[], 0, 0, map[])

  function Balance(m: map<string, int>, cid: string): int { if cid in m then m[cid] else 0 }

  function Nonce(m: map<string, nat>, cid: string): nat { if cid in m then m[cid] else 0 }

  /** `operator[]` on a missing key inserts a zero. */
  function TouchBalance(m: map<string, int>, cid: string): map<string, int> { m[cid := Balance(m, cid)] }

  function TouchNonce(m: map<string, nat>, cid: string): map<string, nat> { m[cid := Nonce(m, cid)] }

  datatype Verdict =
    | Claim(index: nat, reward: int)
    | Transfer(to: string, amount: int, fee: int, nonce: nat)
    | Spend(value: int)
    | Neutral
    | Refuse(reason: Reason)

  /** The first block with this index is confirmed and not past the tip. */
  predicate Claimable(blocks: seq<Block>, index: nat) {
    var k := FindIndex(blocks, index, 0);
    k < |blocks| && blocks[k].confirmed && Tip(blocks).Some? && index <= Tip(blocks).value
  }

  function FindIndex(blocks: seq<Block>, index: nat, i: nat): (k: nat)
    requires i <= |blocks|
    ensures i <= k <= |blocks| && (k < |blocks| ==> blocks[k].index == index)
    ensures forall j | i <= j < k :: blocks[j].index != index
    decreases |blocks| - i
  {
    if i == |blocks| || blocks[i].index == index then i else FindIndex(blocks, index, i + 1)
  }

  /** `static_cast<int>` of a 64-bit number. */
  function ToInt32(n: int): int { (n + 0x8000_0000) % 0x1_0000_0000 - 0x8000_0000 }

  predicate WorkOk(h: HashFn, payload: map<string, string>) {
    var difficulty := if "pow_difficulty" in payload then ToInt32(ParseI64OrZero(payload["pow_difficulty"])) else 4;
    var hash := Field(payload, "pow_hash", "");
    hash != "" && hash == h(Field(payload, "pow_material", "") + "|" + Field(payload, "pow_nonce", "")) &&
    LeadingZeroNibbles(hash, difficulty)
  }

  function ClaimWitness(h: HashFn, author: string, index: nat, reward: int, powHash: string): string {
    h(author + "|" + NatText(index) + "|" + IntText(reward) + "|" + powHash)
  }

  function TransferWitness(h: HashFn, author: string, to: string, amount: int, fee: int, nonce: nat): string {
    h(author + "|" + to + "|" + IntText(amount) + "|" + IntText(fee) + "|" + NatText(nonce))
  }

  predicate WitnessIs(payload: map<string, string>, expected: string) {
    "witness_root" in payload && payload["witness_root"] == expected
  }

  function IntField(payload: map<string, string>, key: string): int {
    if key in payload then ParseI64OrZero(payload[key]) else 0
  }

  function NatField(payload: map<string, string>, key: string): Option<nat> {
    if key in payload then ParseU64(payload[key]) else None
  }

  function JudgeClaim(econ: Econ, blocks: seq<Block>, l: Ledger, author: string, payload: map<string, string>): Verdict {
    match NatField(payload, "block_index")
    case None => Refuse(NoBlockIndex)
    case Some(index) =>
      var reward := IntField(payload, "reward");
      if reward <= 0 || reward != ExpectedReward(econ.units, index, l.issued) then Refuse(WrongReward)
      else if !Claimable(blocks, index) then Refuse(UnconfirmedBlock)
      else if index in l.claimed then Refuse(AlreadyClaimed)
      else if !WorkOk(econ.h, payload) then Refuse(BadWork)
      else if !WitnessIs(payload, ClaimWitness(econ.h, author, index, reward, Field(payload, "pow_hash", ""))) then
        Refuse(BadClaimWitness)
      else Claim(index, reward)
  }

  function JudgeTransfer(econ: Econ, l: Ledger, author: string, payload: map<string, string>): Verdict {
    var to := Field(payload, "to_cid", "");
    var amount, fee := IntField(payload, "amount"), IntField(payload, "fee");
    var nonce := NatField(payload, "nonce");
    if to == "" || amount <= 0 || fee < 0 || nonce.None? || nonce.value == 0 then Refuse(BadTransfer)
    else if nonce.value != Nonce(l.nonces, author) + 1 then Refuse(BadNonce)
    else if fee != BurnFee(amount) then Refuse(BadFee)
    else if !WitnessIs(payload, TransferWitness(econ.h, author, to, amount, fee, nonce.value)) then
      Refuse(BadTransferWitness)
    else if Balance(l.balances, author) < amount + fee then Refuse(Overdraft)
    else Transfer(to, amount, fee, nonce.value)
  }

  function PostValue(payload: map<string, string>): int {
    if "post_value" in payload then ParseI64OrZero(payload["post_value"])
    else if "value_units" in payload then ParseI64OrZero(payload["value_units"])
    else if "value" in payload then ParseI64OrZero(payload["value"])
    else 0
  }

  function JudgePost(l: Ledger, author: string, payload: map<string, string>): Verdict {
    var value := PostValue(payload);
    if value < 0 then Refuse(NegativePost)
    else if value == 0 then Neutral
    else if Balance(l.balances, author) < value then Refuse(PostOverdraft)
    else Spend(value)
  }

  function JudgeEvent(econ: Econ, blocks: seq<Block>, l: Ledger, e: Event): Verdict {
    if e.kind.BlockRewardClaimed? then JudgeClaim(econ, blocks, l, e.author, ParseMap(e.payload))
    else if e.kind.RewardTransferred? then JudgeTransfer(econ, l, e.author, ParseMap(e.payload))
    else if IsPostKind(e.kind) then JudgePost(l, e.author, ParseMap(e.payload))
    else Neutral
  }

  predicate LooksUpNonce(reason: Reason) {
    reason.BadNonce? || reason.BadFee? || reason.BadTransferWitness? || reason.Overdraft?
  }

  predicate LooksUpBalance(reason: Reason) { reason.Overdraft? || reason.PostOverdraft? }

  function Book(l: Ledger, e: Event, v: Verdict): Ledger {
    match v
    case Claim(index, reward) =>
      l.(claimed := l.claimed[index := e.author],
         balances := l.balances[e.author := Balance(l.balances, e.author) + reward],
         issued := l.issued + reward)
    case Transfer(to, amount, fee, nonce) =>
      var sent := l.balances[e.author := Balance(l.balances, e.author) - (amount + fee)];
      l.(balances := sent[to := Balance(sent, to) + amount],
         burned := l.burned + fee,
         nonces := l.nonces[e.author := nonce])
    case Spend(value) =>
      l.(balances := l.balances[e.author := Balance(l.balances, e.author) - value], burned := l.burned + value)
    case Neutral => l
    case Refuse(reason) =>
      l.(refused := l.refused[e.id := reason],
         nonces := if LooksUpNonce(reason) then TouchNonce(l.nonces, e.author) else l.nonces,
         balances := if LooksUpBalance(reason) then TouchBalance(l.balances, e.author) else l.balances)
  }

  function EconStep(econ: Econ, blocks: seq<Block>, l: Ledger, e: Event): Ledger {
    Book(l, e, JudgeEvent(econ, blocks, l, e))
  }

  /** The ledger after the first `n` events of the replay order. */
  function Economy(econ: Econ, blocks: seq<Block>, events: seq<Event>, n: nat): Ledger
    requires n <= |events|
  {
    if n == 0 then EMPTY else EconStep(econ, blocks, Economy(econ, blocks, events, n - 1), events[n - 1])
  }

  lemma EconomyNext(econ: Econ, blocks: seq<Block>, events: seq<Event>, n: nat)
    requires n < |events|
    ensures Economy(econ, blocks, events, n + 1) == EconStep(econ, blocks, Economy(econ, blocks, events, n), events[n])
    ensures n == 0 ==> Economy(econ, blocks, events, n) == EMPTY
  {
    hide EconStep;
  }

  // ----- conservation

  ghost function SumOver(m: map<string, int>, cids: set<string>): int
    decreases |cids|
  {
    if cids == {} then 0
    else
      var k :| k in cids;
      Balance(m, k) + SumOver(m, cids - {k})
  }

  /** The sum of all balances. */
  ghost function Total(m: map<string, int>): int { SumOver(m, m.Keys) }

  lemma {:induction false} SumWithout(m: map<string, int>, cids: set<string>, k: string)
    requires k in cids
    ensures SumOver(m, cids) == Balance(m, k) + SumOver(m, cids - {k})
    decreases |cids|
  {
    var j :| j in cids && SumOver(m, cids) == Balance(m, j) + SumOver(m, cids - {j});
    if j != k {
      SumWithout(m, cids - {j}, k);
      SumWithout(m, cids - {k}, j);
      assert cids - {j} - {k} == cids - {k} - {j};
    }
  }

  lemma {:induction false} SumAgrees(m: map<string, int>, m': map<string, int>, cids: set<string>)
    requires forall k | k in cids :: Balance(m, k) == Balance(m', k)
    ensures SumOver(m, cids) == SumOver(m', cids)
    decreases |cids|
  {
    if cids != {} {
      var k :| k in cids;
      SumWithout(m, cids, k);
      SumWithout(m', cids, k);
      SumAgrees(m, m', cids - {k});
    }
  }

  /** Setting one balance moves the total by the difference, and keeps the others. */
  lemma SetBalance(m: map<string, int>, k: string, v: int)
    ensures Total(m[k := v]) == Total(m) - Balance(m, k) + v
    ensures NonNegative(m) && v >= 0 ==> NonNegative(m[k := v])
  {
    var m' := m[k := v];
    SumWithout(m', m'.Keys, k);
    SumAgrees(m, m', m'.Keys - {k});
    if k in m {
      SumWithout(m, m.Keys, k);
      assert m'.Keys == m.Keys;
    } else {
      assert m'.Keys - {k} == m.Keys;
    }
  }

  predicate NonNegative(m: map<string, int>) { forall k | k in m :: m[k] >= 0 }

  /** No balance is negative, the balances sum to what was issued and not burned, and the cap holds. */
  ghost predicate Solvent(l: Ledger) {
    && NonNegative(l.balances)
    && Total(l.balances) == l.issued - l.burned
    && 0 <= l.burned && 0 <= l.issued <= MAX_SUPPLY
  }

  /** What a verdict promises about the ledger it was reached on. */
  predicate Backed(l: Ledger, e: Event, v: Verdict) {
    match v
    case Claim(index, reward) => reward > 0 && l.issued + reward <= MAX_SUPPLY
    case Transfer(to, amount, fee, nonce) => amount > 0 && fee >= 0 && Balance(l.balances, e.author) >= amount + fee
    case Spend(value) => value > 0 && Balance(l.balances, e.author) >= value
    case Neutral => true
    case Refuse(_) => true
  }

  lemma JudgedBacked(econ: Econ, blocks: seq<Block>, l: Ledger, e: Event)
    ensures Backed(l, e, JudgeEvent(econ, blocks, l, e))
  {
    hide ParseMap, Scheduled, WorkOk, Claimable;
  }

  lemma BookSolvent(l: Ledger, e: Event, v: Verdict)
    requires Solvent(l) && Backed(l, e, v)
    ensures Solvent(Book(l, e, v))
  {
    hide Total;
    assert Balance(l.balances, e.author) >= 0;
    match v
    case Claim(index, reward) => SetBalance(l.balances, e.author, Balance(l.balances, e.author) + reward);
    case Transfer(to, amount, fee, nonce) =>
      var sent := l.balances[e.author := Balance(l.balances, e.author) - (amount + fee)];
      SetBalance(l.balances, e.author, Balance(l.balances, e.author) - (amount + fee));
      assert Balance(sent, to) >= 0;
      SetBalance(sent, to, Balance(sent, to) + amount);
    case Spend(value) => SetBalance(l.balances, e.author, Balance(l.balances, e.author) - value);
    case Neutral =>
    case Refuse(reason) => SetBalance(l.balances, e.author, Balance(l.balances, e.author));
  }

  /** At every point of every replay the currency is conserved, capped and never overdrawn. */
  lemma {:induction false} AlwaysSolvent(econ: Econ, blocks: seq<Block>, events: seq<Event>, n: nat)
    requires n <= |events|
    ensures Solvent(Economy(econ, blocks, events, n))
  {
    hide JudgeEvent, Backed, Book;
    if n == 0 {
    } else {
      AlwaysSolvent(econ, blocks, events, n - 1);
      var l := Economy(econ, blocks, events, n - 1);
      JudgedBacked(econ, blocks, l, events[n - 1]);
      BookSolvent(l, events[n - 1], JudgeEvent(econ, blocks, l, events[n - 1]));
    }
  }

  // ----- issuance

  ghost function ScheduleTotal(units: int, indices: set<nat>): int
    decreases |indices|
  {
    if indices == {} then 0
    else
      var i :| i in indices;
      Scheduled(units, i) + ScheduleTotal(units, indices - {i})
  }

  lemma {:induction false} ScheduleWithout(units: int, indices: set<nat>, i: nat)
    requires i in indices
    ensures ScheduleTotal(units, indices) == Scheduled(units, i) + ScheduleTotal(units, indices - {i})
    decreases |indices|
  {
    hide Scheduled;
    var j :| j in indices && ScheduleTotal(units, indices) == Scheduled(units, j) + ScheduleTotal(units, indices - {j});
    if j != i {
      ScheduleWithout(units, indices - {j}, i);
      ScheduleWithout(units, indices - {i}, j);
      assert indices - {j} - {i} == indices - {i} - {j};
    }
  }

  /** Claims name confirmed blocks other than genesis, and what was issued is the capped sum of their rewards. */
  ghost predicate IssuanceOk(econ: Econ, blocks: seq<Block>, l: Ledger) {
    && (forall i | i in l.claimed :: i != 0 && Claimable(blocks, i))
    && l.issued == Min(MAX_SUPPLY, ScheduleTotal(econ.units, l.claimed.Keys))
  }

  lemma ClaimFacts(econ: Econ, blocks: seq<Block>, l: Ledger, e: Event)
    ensures var v := JudgeEvent(econ, blocks, l, e);
            v.Claim? ==> && v.index !in l.claimed && v.index != 0 && Claimable(blocks, v.index)
                         && l.issued < MAX_SUPPLY && v.reward == Min(Scheduled(econ.units, v.index), MAX_SUPPLY - l.issued)
  {
    hide ParseMap, WorkOk, Claimable, Power;
  }

  lemma BookIssuance(econ: Econ, blocks: seq<Block>, l: Ledger, e: Event)
    requires IssuanceOk(econ, blocks, l)
    ensures IssuanceOk(econ, blocks, EconStep(econ, blocks, l, e))
  {
    hide JudgeEvent, Scheduled, Claimable;
    ClaimFacts(econ, blocks, l, e);
    var v := JudgeEvent(econ, blocks, l, e);
    if v.Claim? {
      var keys := l.claimed.Keys + {v.index};
      ScheduleWithout(econ.units, keys, v.index);
      assert keys - {v.index} == l.claimed.Keys;
      assert Book(l, e, v).claimed.Keys == keys;
    }
  }

  /** Issuance has a closed form that does not mention the order of the claims. */
  lemma {:induction false} IssuanceClosedForm(econ: Econ, blocks: seq<Block>, events: seq<Event>, n: nat)
    requires n <= |events|
    ensures IssuanceOk(econ, blocks, Economy(econ, blocks, events, n))
  {
    hide EconStep, Scheduled, Claimable;
    if n == 0 {
    } else {
      IssuanceClosedForm(econ, blocks, events, n - 1);
      BookIssuance(econ, blocks, Economy(econ, blocks, events, n - 1), events[n - 1]);
    }
  }

  // ----- what the ledger looks at

  lemma SameVerdict(econ: Econ, a: seq<Block>, b: seq<Block>, l: Ledger, e: Event)
    requires forall i: nat :: Claimable(a, i) <==> Claimable(b, i)
    ensures JudgeEvent(econ, a, l, e) == JudgeEvent(econ, b, l, e)
  {
    hide Claimable, ParseMap, WorkOk, Scheduled, ClaimWitness, TransferWitness, PostValue, JudgeTransfer, JudgePost;
  }

  /** Of the blocks, the ledger sees only which ones can be claimed. */
  lemma {:induction false} SameClaims(econ: Econ, a: seq<Block>, b: seq<Block>, events: seq<Event>, n: nat)
    requires n <= |events| && forall i: nat :: Claimable(a, i) <==> Claimable(b, i)
    ensures Economy(econ, a, events, n) == Economy(econ, b, events, n)
  {
    hide Claimable, JudgeEvent;
    if n > 0 {
      SameClaims(econ, a, b, events, n - 1);
      SameVerdict(econ, a, b, Economy(econ, a, events, n - 1), events[n - 1]);
    }
  }

  // ----- transfer nonces

  /** The nonces of the accepted transfers of one author, in replay order. */
  function AcceptedNonces(econ: Econ, blocks: seq<Block>, events: seq<Event>, n: nat, author: string): seq<nat>
    requires n <= |events|
  {
    if n == 0 then []
    else
      var before := AcceptedNonces(econ, blocks, events, n - 1, author);
      var v := JudgeEvent(econ, blocks, Economy(econ, blocks, events, n - 1), events[n - 1]);
      if v.Transfer? && events[n - 1].author == author then before + [v.nonce] else before
  }

  lemma TransferNonce(econ: Econ, blocks: seq<Block>, l: Ledger, e: Event)
    ensures var v := JudgeEvent(econ, blocks, l, e); v.Transfer? ==> v.nonce == Nonce(l.nonces, e.author) + 1
  {
    hide ParseMap, WorkOk, Claimable, Scheduled;
  }

  /** The accepted transfers of every author carry the nonces 1, 2, 3, ... without gap or repeat. */
  lemma {:induction false} NoncesCount(econ: Econ, blocks: seq<Block>, events: seq<Event>, n: nat, author: string)
    requires n <= |events|
    ensures var nonces := AcceptedNonces(econ, blocks, events, n, author);
            && |nonces| == Nonce(Economy(econ, blocks, events, n).nonces, author)
            && forall i | 0 <= i < |nonces| :: nonces[i] == i + 1
  {
    hide JudgeEvent;
    if n > 0 {
      NoncesCount(econ, blocks, events, n - 1, author);
      var l := Economy(econ, blocks, events, n - 1);
      TransferNonce(econ, blocks, l, events[n - 1]);
    }
  }
}
