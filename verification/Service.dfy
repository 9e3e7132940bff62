/** The service that signs local events and hands them to its store. */
module Service {
  import opened Types
  import opened Canonical
  import opened Timeline
  import opened Invariant
  import opened Ledger
  import opened Replay
  import opened Growth
  import opened Producer
  import opened Checkpoint
  import opened Audit
  import opened AuditMeaning
  import Moderation
  import opened Views
  import opened Recovery
  import opened Storage

  datatype Outcome =
    | NoTarget
    | BadPrefix
    | BadAmount
    | Insufficient
    | UnknownTarget
    | Unsigned
    | AuditFailed
    | Handed(result: AppendResult)

  datatype Startup = Sound | Recovered | Broken

  const ADDRESS_PREFIX := "S"

  /** The draft names a receiver, by a name or by an address of the network. */
  predicate Addressed(d: Draft) { d.toName != "" && (d.byAddress ==> ADDRESS_PREFIX <= d.toName) }

  class AlphaService {
    const store: Store
    const id: Identity
    const contentId: string -> string
    const sign: string -> string
    var lastLocalUnixTs: int

    constructor (store: Store, id: Identity, contentId: string -> string, sign: string -> string)
      ensures this.store == store && this.id == id && this.contentId == contentId && this.sign == sign
      ensures lastLocalUnixTs == 0
    {
      this.store, this.id, this.contentId, this.sign := store, id, contentId, sign;
      lastLocalUnixTs := 0;
    }

    /** Local timestamps strictly increase, whatever the clock does. */
    method MakeEvent(kind: EventKind, fields: seq<Pair>, now: int) returns (e: Event)
      modifies `lastLocalUnixTs
      ensures e.ts == lastLocalUnixTs && e.ts >= now && e.ts > old(lastLocalUnixTs)
      ensures e.ts == now || e.ts == old(lastLocalUnixTs) + 1
      ensures var payload := CanonicalText(Signed(id, kind, e.ts, fields));
              e == Event(contentId(payload), kind, id.cid, e.ts, payload, sign(payload))
    {
      hide CanonicalText, Signed;
      var ts := Max(now, lastLocalUnixTs + 1);
      lastLocalUnixTs := ts;
      var payload := CanonicalJoin(Signed(id, kind, ts, fields));
      return Event(contentId(payload), kind, id.cid, ts, payload, sign(payload));
    }

    /** What the audit is told by this service. */
    function InspectorAt(now: int): Inspector { Inspector(contentId, id.community, id.chainId, id.networkId, now) }

    /**
     * A signed event goes to the store, and if it is appended the whole store is audited: an issue anywhere fails the
     * call, but the event stays.
     */
    method AppendLocally(e: Event, now: int, later: int, audited: int) returns (r: Outcome)
      requires store.Indexed()
      modifies store
      ensures var judged := Judge(store.cfg, old(store.events), e, now);
              r == if e.signature == "" then Unsigned
                   else if judged.Appended? && !NoIssues(store, InspectorAt(audited)) then AuditFailed
                   else Handed(judged)
      ensures r == Handed(Appended) || r.AuditFailed? ==>
                store.Durable() == Append(store.cfg, old(store.Durable()), e, now, later) &&
                store.Indexed() && store.Replayed(old(store.policy))
      ensures r != Handed(Appended) && !r.AuditFailed? ==> unchanged(store)
      ensures r == Handed(Appended) ==> contentId(e.payload) == e.id
    {
      hide Append, Storage.Store.Replayed, Storage.Store.OnDisk, Valid, Passes;
      if e.signature == "" {
        return Unsigned;
      }
      ghost var was := store.Durable();
      var result := store.AppendEvent(e, now, later);
      if !result.Appended? {
        return Handed(result);
      }
      if contentId(e.payload) != e.id {
        ForeignIdFails(store.cfg, InspectorAt(audited), was, e, now, later);
      }
      var issues := store.Backtest(InspectorAt(audited));
      return if issues > 0 then AuditFailed else Handed(result);
    }

    /**
     * The end of the start-up: a store that fails the audit is rolled back to the last checkpoint and audited once more,
     * with the policy that the failed store's replay had ended with.
     */
    method ValidateStore(now: int, back: int, again: int) returns (r: Startup)
      modifies store
      ensures r.Sound? <==> old(NoIssues(store, InspectorAt(now)))
      ensures r.Sound? ==> unchanged(store) && forall e | e in store.events :: contentId(e.payload) == e.id
      ensures !r.Sound? ==>
                store.Durable() == Rollback(store.cfg, old(store.Durable()), back) &&
                store.Indexed() && store.Replayed(old(store.policy)) && store.OnDisk()
      ensures !r.Sound? ==>
                (r.Recovered? <==>
                 Healthy(store.cfg, InspectorAt(again), store.econ, old(store.policy),
                         Rollback(store.cfg, old(store.Durable()), back)))
    {
      hide Rollback, Storage.Store.OnDisk, Valid, Passes, ForumOf, Moderation.ModerationOf, Materialized;
      var issues := store.Backtest(InspectorAt(now));
      if issues == 0 {
        return Sound;
      }
      store.RollbackToLastCheckpoint(back);
      var left := store.Backtest(InspectorAt(again));
      return if left == 0 then Recovered else Broken;
    }

    /**
     * The two transfer methods, by name and by address: the receiver's CID, if it could be resolved, and the four clock
     * readings. From a store that has just been replayed, a transfer that is appended and comes last moves exactly its
     * amount and burns exactly its fee, even if the audit then fails; one that is not appended changes nothing.
     */
    method SendReward(d: Draft, known: bool, made: int, now: int, later: int, audited: int)
      returns (r: Outcome, ghost e: Event)
      requires store.Indexed() && (known ==> d.to != "")
      modifies this, store
      ensures r.NoTarget? <==> d.toName == ""
      ensures r.BadPrefix? <==> d.toName != "" && !Addressed(d)
      ensures r.BadAmount? <==> Addressed(d) && d.amount <= 0
      ensures r.Insufficient? <==>
                Addressed(d) && d.amount > 0 && Balance(old(store.balances), id.cid) < d.amount + BurnFee(d.amount)
      ensures r.UnknownTarget? <==> Addressed(d) && !r.BadAmount? && !r.Insufficient? && !known
      ensures r.Unsigned? ==> e.signature == ""
      ensures r.Handed? || r.AuditFailed? ==> e.signature != ""
      ensures r.Handed? ==> r.result == Judge(store.cfg, old(store.events), e, now)
      ensures r.AuditFailed? ==> Judge(store.cfg, old(store.events), e, now).Appended?
      ensures r == Handed(Appended) || r.AuditFailed? ==> (r.Handed? <==> NoIssues(store, InspectorAt(audited)))
      ensures r.Unsigned? || r.Handed? || r.AuditFailed? ==>
                && e.ts == lastLocalUnixTs && e.ts >= made && e.ts > old(lastLocalUnixTs)
                && IsTransfer(store.econ, old(store.Money()), id, d, e)
                && e.id == contentId(e.payload) && e.signature == sign(e.payload)
      ensures r != Handed(Appended) && !r.AuditFailed? ==> unchanged(store)
      ensures r == Handed(Appended) || r.AuditFailed? ==>
                && store.Durable() == Append(store.cfg, old(store.Durable()), e, now, later)
                && (old(Ready(store)) && old(ComesLast(store.cfg, store.Durable(), e)) ==>
                     store.Money() == Moved(old(store.Money()), id.cid, d.to, d.amount, BurnFee(d.amount)))
    {
      hide Append, Valid, Materialized, ComesLast, Moved, BurnFee, TransferFields, Signed, CanonicalText, NoIssues;
      e := Event("", RewardTransferred, "", 0, "", "");
      if d.toName == "" {
        return NoTarget, e;
      }
      if d.byAddress && !(ADDRESS_PREFIX <= d.toName) {
        return BadPrefix, e;
      }
      if d.amount <= 0 {
        return BadAmount, e;
      }
      var fee := BurnFee(d.amount);
      var nonce := Nonce(store.nonces, id.cid) + 1;
      if Balance(store.balances, id.cid) < d.amount + fee {
        return Insufficient, e;
      }
      if !known {
        return UnknownTarget, e;
      }
      ghost var before, ready, last := store.Money(), Ready(store), store.Durable();
      var event := MakeEvent(RewardTransferred, TransferFields(store.econ.h, id.cid, d, fee, nonce), made);
      e := event;
      r := AppendLocally(event, now, later, audited);
      if (r == Handed(Appended) || r.AuditFailed?) && ready && ComesLast(store.cfg, last, e) {
        TransferAccepted(store.cfg, store.econ, last, id, d, e, now, later);
      }
    }

    /**
     * One turn of the claiming loop, with the proof of work found: nothing happens when no reward is left for the
     * block, and otherwise a claim that is appended and comes last is paid exactly the reward.
     */
    method ClaimReward(w: Work, ghost threshold: nat, made: int, now: int, later: int)
      returns (r: Option<AppendResult>, ghost e: Event)
      requires store.Indexed() && Found(store.econ.h, id, w) && w.difficulty < 0x8000_0000 && w.block.index <= U64_MAX
      modifies this, store
      ensures r.None? <==> ExpectedReward(store.econ.units, w.block.index, old(store.issued)) <= 0
      ensures r != Some(Appended) ==> unchanged(store)
      ensures r == Some(Appended) ==>
                && store.Durable() == Append(store.cfg, old(store.Durable()), e, now, later)
                && (old(Ready(store)) && old(ComesLast(store.cfg, store.Durable(), e)) &&
                    Offered(threshold, old(store.Durable()), old(store.Money()), w.block) ==>
                     store.Money() == Rewarded(old(store.Money()), id.cid, w.block.index,
                                               ExpectedReward(store.econ.units, w.block.index, old(store.issued))))
    {
      hide Append, Valid, Materialized, ComesLast, Rewarded, ExpectedReward, ClaimFields, Signed, CanonicalText, Found,
        Offered;
      e := Event("", BlockRewardClaimed, "", 0, "", "");
      var reward := ExpectedReward(store.econ.units, w.block.index, store.issued);
      if reward <= 0 {
        return None, e;
      }
      ghost var before, ready, chain := store.Money(), Ready(store), store.Durable();
      var event := MakeEvent(BlockRewardClaimed, ClaimFields(store.econ.h, id, w, reward), made);
      e := event;
      var result := store.AppendEvent(event, now, later);
      r := Some(result);
      if result.Appended? && ready && ComesLast(store.cfg, chain, e) && Offered(threshold, chain, before, w.block) {
        ClaimAccepted(store.cfg, store.econ, threshold, chain, id, w, e, now, later);
      }
    }
  }

  /** The audit finds no issue in the store. */
  ghost predicate NoIssues(store: Store, x: Inspector)
    reads store
  {
    Passes(store.cfg, x, store.Durable()) && store.refused == map[] && store.denied == map[]
  }

  /** A store whose ledger is that of its timeline. */
  ghost predicate Ready(store: Store)
    reads store
  {
    Valid(store.cfg, store.Durable()) && store.blocks != [] && store.Money() == Materialized(store.econ, store.Durable())
  }
}
