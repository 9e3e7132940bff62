/** What the audit rules out. */
module AuditMeaning {
  import opened Types
  import opened Decimal
  import opened Canonical
  import opened Timeline
  import opened Invariant
  import opened History
  import opened Audit
  import opened BlockHashes
  import opened SmallRuns

  // ----- blocks

  /** A clean chain holds each id once, in the block bag as in the event log. */
  lemma CleanBag(cfg: Config, c: Chain)
    requires UniqueIds(c.events) && Clean(cfg, c)
    ensures IdBag(c.blocks, |c.blocks|) == multiset(EventIds(c.events, |c.events|))
  {
    hide HashesClean, BlockBytes, UniqueIds;
    var a, b := IdBag(c.blocks, |c.blocks|), multiset(EventIds(c.events, |c.events|));
    forall id: string ensures a[id] == b[id] {
      IdsOnce(c.events, id);
      InBag(c.blocks, |c.blocks|, id);
      if id in a {
        var i :| 0 <= i < |c.blocks| && id in c.blocks[i].eventIds;
        assert BlockClean(cfg, c, i);
      }
      if id in b {
        var k :| 0 <= k < |c.events| && c.events[k].id == id;
        assert c.events[k] in c.events && Assigned(c.blocks, id);
      }
    }
  }

  /**
   * On a block list numbered by position and a log without repeated ids, the block checks of the audit are exactly the
   * invariant, with room for every event alone: no broken placement, limit, hash or link escapes it.
   */
  lemma AuditIsComplete(cfg: Config, c: Chain)
    requires Positions(c.blocks) && UniqueIds(c.events)
    ensures Clean(cfg, c) <==> Valid(cfg, c) && FitsAlone(cfg, c.events)
  {
    hide Positions, UniqueIds, HashesClean, SealedAt, IdBag, EventIds, BlockBytes, FitsAlone, PayloadHashes;
    if Clean(cfg, c) {
      CleanBag(cfg, c);
      forall i | 0 <= i < |c.blocks|
        ensures WithinLimits(cfg, c.events, c.blocks[i]) && SealedAt(cfg, Payloads(cfg, c.events), c.blocks, i)
      {
        assert BlockClean(cfg, c, i);
        CleanSealed(cfg, Payloads(cfg, c.events), c.blocks, i);
      }
    }
    if Valid(cfg, c) {
      ValidIsClean(cfg, c);
    }
  }

  // ----- events

  /** The fields that an event of this kind must carry with some text in them. */
  function NeededKeys(kind: EventKind): set<string> {
    match kind
    case RecipeCreated => {"recipe_id"}
    case ThreadCreated => {"thread_id", "recipe_id"}
    case ReplyCreated => {"reply_id", "thread_id"}
    case RewardTransferred => {"to_cid"}
    case ModeratorAdded => {"target_cid"}
    case ModeratorRemoved => {"target_cid"}
    case CoreTopicPinned => {"recipe_id"}
    case CoreTopicUnpinned => {"recipe_id"}
    case _ => {}
  }

  /** The event says nothing about this, or says what is expected. */
  predicate Silent(p: map<string, string>, key: string, expected: string) { key !in p || p[key] == expected }

  /** Some of these fields has a text in it. */
  ghost predicate NamesOne(p: map<string, string>, keys: set<string>) { exists key | key in keys && key in p :: p[key] != "" }

  predicate Posts(kind: EventKind) {
    kind.RecipeCreated? || kind.ThreadCreated? || kind.ReplyCreated? || kind.ReviewAdded? || kind.ThumbsUpAdded?
  }

  /** The kinds with a condition beyond their needed keys. */
  predicate MoreToCheck(kind: EventKind) {
    kind.BlockRewardClaimed? || kind.RewardTransferred? || kind.ContentFlagged? || kind.ContentHidden? || kind.ContentUnhidden?
  }

  /** An event the audit finds nothing wrong with. */
  ghost predicate Faultless(cfg: Config, x: Inspector, e: Event) {
    var p := ParseMap(e.payload);
    && x.contentId(e.payload) == e.id
    && (x.community == "" || Silent(p, "community_id", x.community))
    && Silent(p, "chain_id", x.chainId) && Silent(p, "network_id", x.networkId)
    && (forall key | key in NeededKeys(e.kind) :: key in p && p[key] != "")
    && (e.kind.BlockRewardClaimed? ==>
         "block_index" in p && ParseU64(p["block_index"]).Some? && "reward" in p && ParseI64OrZero(p["reward"]) > 0)
    && (e.kind.RewardTransferred? ==> "amount" in p && ParseI64OrZero(p["amount"]) > 0)
    && (e.kind.ContentFlagged? || e.kind.ContentHidden? || e.kind.ContentUnhidden? ==>
         NamesOne(p, {"object_id", "recipe_id", "thread_id", "reply_id"}))
    && (Posts(e.kind) && "post_value" in p ==> ParseI64OrZero(p["post_value"]) >= 0)
    && |e.payload| <= cfg.maxEventBytes && e.signature != "" && e.ts - x.now <= cfg.maxFutureDrift
  }

  lemma FaultlessIs(cfg: Config, x: Inspector, e: Event)
    ensures EventClean(cfg, x, e) <==> Faultless(cfg, x, e)
  {
    hide ParseMap, ParseU64, ParseI64OrZero;
    var p := ParseMap(e.payload);
    OneOfFour(p);
    NeededFilled(e.kind, p);
  }

  lemma OneOfFour(p: map<string, string>)
    ensures NamesContent(p) <==> NamesOne(p, {"object_id", "recipe_id", "thread_id", "reply_id"})
  {
    var keys := {"object_id", "recipe_id", "thread_id", "reply_id"};
    assert "object_id" in keys && "recipe_id" in keys && "thread_id" in keys && "reply_id" in keys;
  }

  lemma NeededFilled(kind: EventKind, p: map<string, string>)
    ensures FieldsClean(kind, p) ==> forall key | key in NeededKeys(kind) :: Filled(p, key)
    ensures !MoreToCheck(kind) && (forall key | key in NeededKeys(kind) :: Filled(p, key)) ==> FieldsClean(kind, p)
  {
    hide ParseU64, ParseI64OrZero;
    match kind {
      case RecipeCreated => assert "recipe_id" in NeededKeys(kind);
      case ThreadCreated => assert "thread_id" in NeededKeys(kind) && "recipe_id" in NeededKeys(kind);
      case ReplyCreated => assert "reply_id" in NeededKeys(kind) && "thread_id" in NeededKeys(kind);
      case ModeratorAdded => assert "target_cid" in NeededKeys(kind);
      case ModeratorRemoved => assert "target_cid" in NeededKeys(kind);
      case CoreTopicPinned => assert "recipe_id" in NeededKeys(kind);
      case CoreTopicUnpinned => assert "recipe_id" in NeededKeys(kind);
      case _ =>
    }
  }

  /**
   * The audit passes exactly when each event is faultless and the chain keeps the invariant with room for every event
   * alone, provided blocks are numbered by position and ids are not repeated.
   */
  lemma PassesExactly(cfg: Config, x: Inspector, c: Chain)
    requires Positions(c.blocks) && UniqueIds(c.events)
    ensures Passes(cfg, x, c) <==>
            (forall e | e in c.events :: Faultless(cfg, x, e)) && Valid(cfg, c) && FitsAlone(cfg, c.events)
  {
    hide Clean, Valid, FitsAlone, Faultless, EventClean;
    AuditIsComplete(cfg, c);
    forall e | e in c.events ensures EventClean(cfg, x, e) <==> Faultless(cfg, x, e) {
      FaultlessIs(cfg, x, e);
    }
  }

  // ----- foreign ids

  /** Appending asks for no particular id: an event whose id is not that of its payload stays, and the audit fails. */
  lemma ForeignIdFails(cfg: Config, x: Inspector, c: Chain, e: Event, now: int, later: int)
    requires Judge(cfg, c.events, e, now).Appended? && x.contentId(e.payload) != e.id
    ensures e in Append(cfg, c, e, now, later).events && !Passes(cfg, x, Append(cfg, c, e, now, later))
  {
    hide Settle, Slots, AssignUpTo, Clean, Append;
    AppendIs(cfg, c, e, now, later);
    SettleShape(cfg, Unsettled(cfg, c, e, later));
    var more := c.events + [e];
    assert more[|c.events|] == e;
    FaultlessIs(cfg, x, e);
  }
}
