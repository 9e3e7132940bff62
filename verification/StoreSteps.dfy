/** One step of each loop of the store, on values: what a turn adds, and where the functions of the specification start. */
module StoreSteps {
  import opened Types
  import opened Text
  import opened Timeline
  import opened Invariant
  import opened Canonical
  import opened Ledger
  import opened Replay
  import opened Moderation
  import opened Views
  import opened Logs
  import opened Audit

  /** The nonce of this author has been looked up. */
  predicate Nonced(l: Ledger, author: string) { author in l.nonces }

  /** The last check of a transfer. */
  function Covered(l: Ledger, author: string, to: string, amount: int, fee: int, nonce: nat): Verdict {
    if Balance(l.balances, author) < amount + fee then Refuse(Overdraft) else Transfer(to, amount, fee, nonce)
  }

  /** Looking the nonce up before booking makes no difference once the transfer gets as far as its nonce. */
  lemma TouchedFirst(l: Ledger, e: Event, v: Verdict)
    requires v.Transfer? || (v.Refuse? && LooksUpNonce(v.reason))
    ensures var l' := l.(nonces := TouchNonce(l.nonces, e.author));
            Book(l', e, v) == Book(l, e, v) && Nonced(l', e.author)
  {
    var touched := TouchNonce(l.nonces, e.author);
    assert TouchNonce(touched, e.author) == touched;
    if v.Transfer? {
      assert touched[e.author := v.nonce] == l.nonces[e.author := v.nonce];
    }
  }

  /** The count and byte limits of a block. */
  predicate RoomClean(cfg: Config, events: seq<Event>, b: Block) {
    |b.eventIds| <= cfg.maxBlockEvents && BlockBytes(events, b.eventIds, |b.eventIds|) <= cfg.maxBlockBytes
  }

  predicate Known(events: seq<Event>, ids: seq<string>, n: nat)
    requires n <= |ids|
  {
    forall j | 0 <= j < n :: HasEvent(events, ids[j])
  }

  predicate NoRepeat(ids: seq<string>, before: set<string>, n: nat)
    requires n <= |ids|
  {
    forall j | 0 <= j < n :: ids[j] !in before && ids[j] !in ids[..j]
  }

  ghost predicate CleanUpTo(cfg: Config, c: Chain, n: nat)
    requires n <= |c.blocks|
  {
    && (forall k | 0 <= k < n :: BlockClean(cfg, c, k))
    && forall id :: IdBag(c.blocks, n)[id] <= 1
  }

  lemma NoIds(blocks: seq<Block>)
    ensures IdBag(blocks, 0) == multiset{}
  {
  }

  lemma {:induction false} RepeatCounts(ids: seq<string>, n: nat)
    requires n <= |ids|
    ensures NoRepeat(ids, {}, n) <==> forall id :: multiset(ids[..n])[id] <= 1
  {
    if n > 0 {
      RepeatCounts(ids, n - 1);
      var m, m', last := multiset(ids[..n - 1]), multiset(ids[..n]), ids[n - 1];
      assert ids[..n] == ids[..n - 1] + [last];
      assert m' == m + multiset{last};
      assert last in ids[..n - 1] <==> m[last] > 0;
      assert forall id :: m'[id] == m[id] + if id == last then 1 else 0;
      if forall id :: m'[id] <= 1 {
        forall id ensures m[id] <= 1 {
          assert m[id] <= m'[id];
        }
        assert m'[last] <= 1;
      }
    }
  }

  lemma RepeatBag(bag: multiset<string>, ids: seq<string>, before: set<string>)
    requires forall id :: id in before <==> id in bag
    ensures (forall id :: (bag + multiset(ids))[id] <= 1) <==> (forall id :: bag[id] <= 1) && NoRepeat(ids, before, |ids|)
  {
    RepeatCounts(ids, |ids|);
    assert ids[..|ids|] == ids;
    var sum := bag + multiset(ids);
    assert forall id :: sum[id] == bag[id] + multiset(ids)[id];
    if forall id :: sum[id] <= 1 {
      assert forall id :: bag[id] <= sum[id] && multiset(ids)[id] <= sum[id];
      forall j | 0 <= j < |ids| ensures ids[j] !in before {
        assert ids[j] in multiset(ids);
      }
    }
    if (forall id :: bag[id] <= 1) && NoRepeat(ids, before, |ids|) {
      assert NoRepeat(ids, {}, |ids|);
      forall id ensures sum[id] <= 1 {
        if id in multiset(ids) {
          var j :| 0 <= j < |ids| && ids[j] == id;
          assert id !in bag;
        }
      }
    }
  }

  lemma CleanNext(cfg: Config, c: Chain, i: nat, seen: set<string>)
    requires i < |c.blocks| && forall id :: id in seen <==> id in IdBag(c.blocks, i)
    ensures var ids := c.blocks[i].eventIds;
            && (forall id :: id in IdBag(c.blocks, i + 1) <==> id in seen || id in ids)
            && (CleanUpTo(cfg, c, i + 1) <==>
                CleanUpTo(cfg, c, i) && HashesClean(cfg, Payloads(cfg, c.events), c.blocks, i) &&
                RoomClean(cfg, c.events, c.blocks[i]) && Known(c.events, ids, |ids|) && NoRepeat(ids, seen, |ids|))
  {
    hide HashesClean, NoRepeat, PayloadHashes, BlockClean, RoomClean, Known;
    RepeatBag(IdBag(c.blocks, i), c.blocks[i].eventIds, seen);
    BlockCleanIs(cfg, c, i);
  }

  lemma BlockCleanIs(cfg: Config, c: Chain, i: nat)
    requires i < |c.blocks|
    ensures var ids := c.blocks[i].eventIds;
            BlockClean(cfg, c, i) <==>
              HashesClean(cfg, Payloads(cfg, c.events), c.blocks, i) && RoomClean(cfg, c.events, c.blocks[i]) &&
              Known(c.events, ids, |ids|)
  {
    hide HashesClean, PayloadHashes, BlockBytes, HasEvent;
  }

  lemma CleanParts(cfg: Config, c: Chain)
    ensures Clean(cfg, c) <==>
            CleanUpTo(cfg, c, |c.blocks|) && forall k | 0 <= k < |c.events| :: Assigned(c.blocks, c.events[k].id)
  {
    hide BlockClean, IdBag, Assigned;
    if forall k | 0 <= k < |c.events| :: Assigned(c.blocks, c.events[k].id) {
      forall e | e in c.events ensures Assigned(c.blocks, e.id) {
        var k :| 0 <= k < |c.events| && c.events[k] == e;
      }
    }
  }

  lemma ReplayedFrom(econ: Econ, policy: Policy, c: Chain, l: Ledger, m: Mod)
    requires l == Economy(econ, c.blocks, Ordered(c), |Ordered(c)|)
    requires m == Moderated(ViewOf(c), policy, Ordered(c), |Ordered(c)|)
    ensures l == Materialized(econ, c) && m == ModerationOf(policy, c)
    ensures ForumOf(econ, policy, c) == Visible(Posted(l.refused, Ordered(c), |Ordered(c)|), m.pins, m.hidden)
  {
    hide Ordered, Economy, Moderated, Posted, Visible;
  }

  lemma {:induction false} LinesLocal(a: seq<string>, b: seq<string>, n: nat)
    requires n <= |a| && n <= |b| && forall i | 0 <= i < n :: a[i] == b[i]
    ensures EndedLines(a, n) == EndedLines(b, n)
  {
    if n > 0 {
      LinesLocal(a, b, n - 1);
    }
  }

  lemma FirstLine(lines: seq<string>)
    requires lines != []
    ensures EndedLines(lines, 1) == lines[0] + "\n"
  {
    assert EndedLines(lines, 0) + lines[0] == lines[0];
  }

  /** Appending a line to the event log saves the longer list of events. */
  lemma SavedAppend(events: seq<Event>, e: Event)
    ensures SaveEvents(events + [e]) == SaveEvents(events) + EventLine(e) + "\n"
  {
    hide EventLine;
    LinesLocal(EventLines(events + [e], |events| + 1), EventLines(events, |events|), |events|);
  }

  lemma AssignedSnoc(blocks: seq<Block>, b: Block)
    ensures forall id :: Assigned(blocks + [b], id) <==> Assigned(blocks, id) || id in b.eventIds
  {
    var all := blocks + [b];
    forall id ensures Assigned(all, id) <==> Assigned(blocks, id) || id in b.eventIds {
      if Assigned(blocks, id) {
        var k :| 0 <= k < |blocks| && id in blocks[k].eventIds;
        assert id in all[k].eventIds;
      }
      if id in b.eventIds {
        assert id in all[|blocks|].eventIds;
      }
    }
  }

  lemma LessKeys<V>(m: map<string, V>, gone: set<string>, todo: set<string>, id: string)
    requires id in todo && todo <= gone
    ensures m - (gone - (todo - {id})) == m - (gone - todo) - {id}
  {
  }

  lemma ReplayStarts(v: View, policy: Policy, refused: map<string, Reason>, events: seq<Event>)
    ensures Moderated(v, policy, events, 0) == Start(policy)
    ensures Posted(refused, events, 0) == NOTHING
  {
    hide Seeded;
  }

  lemma ReplayNext(v: View, policy: Policy, refused: map<string, Reason>, events: seq<Event>, i: nat)
    requires i < |events|
    ensures Moderated(v, policy, events, i + 1) == ModStep(v, Moderated(v, policy, events, i), events[i])
    ensures Posted(refused, events, i + 1) ==
              if Accepted(refused, events[i]) then Post(Posted(refused, events, i), events[i], ParseMap(events[i].payload))
              else Posted(refused, events, i)
  {
    hide ModStep, Post, ParseMap;
  }

  lemma NoModeration(v: View, m: Mod, e: Event)
    requires !IsModerationKind(e.kind)
    ensures ModStep(v, m, e) == m
  {
  }

  lemma NoPost(f: Forum, e: Event)
    requires !IsPostKind(e.kind)
    ensures forall payload :: Post(f, e, payload) == f
  {
  }

  /** Totals first, pins after the reply counts: together they are one pass. */
  lemma CountedInSteps(f: Forum, g: Forum, pins: map<string, bool>)
    requires g == f.(recipes := g.recipes, threads := g.threads)
    requires forall id :: id in g.recipes <==> id in f.recipes
    requires forall id | id in f.recipes :: g.recipes[id] == Pinned(Totalled(f.recipes[id], id, f.ratings, f.thumbs), id, pins)
    requires g.threads == map id | id in f.threads ::
               if id in f.replies then f.threads[id].(replyCount := |f.replies[id]|) else f.threads[id]
    ensures g == Counted(f, pins)
  {
    hide Totalled, Pinned;
  }

  /** Looking the balance up changes nothing but an overdraft, which leaves it looked up. */
  lemma LookedUp(l: Ledger, e: Event, v: Verdict)
    requires v.Transfer? && Nonced(l, e.author)
    ensures var l' := l.(balances := TouchBalance(l.balances, e.author));
            && Book(l', e, v) == Book(l, e, v)
            && Book(l, e, Verdict.Refuse(Overdraft)) == l'.(refused := l.refused[e.id := Overdraft])
  {
    var touched := TouchBalance(l.balances, e.author);
    var paid := Balance(l.balances, e.author) - (v.amount + v.fee);
    assert touched[e.author := paid] == l.balances[e.author := paid];
    assert TouchNonce(l.nonces, e.author) == l.nonces;
  }

  lemma NeutralBooks(l: Ledger, e: Event)
    ensures Book(l, e, Neutral) == l
  {
  }

  lemma SlotsNext(cfg: Config, blocks: seq<Block>, now: int, budget: nat)
    ensures Slots(cfg, blocks, now, budget) ==
              if blocks == [] || now - blocks[|blocks| - 1].openedUnix < cfg.interval || budget == 0 then blocks
              else
                var last := blocks[|blocks| - 1];
                Slots(cfg, blocks + [EmptyBlock(last.index + 1, last.openedUnix + cfg.interval)], now, budget - 1)
  {
  }

  lemma NothingRelinked(cfg: Config, payloads: map<string, string>, blocks: seq<Block>, psz: string)
    ensures Relinked(cfg, payloads, blocks, 0, psz) == (blocks[..0], psz)
  {
  }

  lemma RelinkedNext(cfg: Config, payloads: map<string, string>, blocks: seq<Block>, i: nat, psz: string)
    requires i < |blocks|
    ensures var (done, psz') := Relinked(cfg, payloads, blocks, i, psz);
            var b := Relink(cfg, payloads, blocks[i], PrevHash(done, i), psz');
            Relinked(cfg, payloads, blocks, i + 1, psz) == (done + [b], PszAfter(cfg, blocks[i], psz')) &&
            b.eventIds == blocks[i].eventIds
  {
  }

  lemma AssignedNext(blocks: seq<Block>, i: nat)
    requires i < |blocks|
    ensures forall id :: Assigned(blocks[..i + 1], id) <==> Assigned(blocks[..i], id) || id in blocks[i].eventIds
  {
    forall id ensures Assigned(blocks[..i + 1], id) <==> Assigned(blocks[..i], id) || id in blocks[i].eventIds {
      assert forall k | 0 <= k < i :: blocks[..i + 1][k] == blocks[..i][k];
      if id in blocks[i].eventIds {
        assert id in blocks[..i + 1][i].eventIds;
      }
      if Assigned(blocks[..i], id) {
        var k :| 0 <= k < i && id in blocks[..i][k].eventIds;
        assert id in blocks[..i + 1][k].eventIds;
      }
    }
  }

  lemma PlaceAssigns(cfg: Config, events: seq<Event>, blocks: seq<Block>, e: Event)
    ensures forall id :: Assigned(Place(cfg, events, blocks, e), id) <==> Assigned(blocks, id) || id == e.id
  {
    hide BlockBytes, EventBytes;
    var r := Place(cfg, events, blocks, e);
    var k := FindSlot(cfg, events, blocks, EventBytes(e), 0);
    assert e.id in r[k].eventIds;
    forall id ensures Assigned(r, id) <==> Assigned(blocks, id) || id == e.id {
      if Assigned(blocks, id) {
        var i :| 0 <= i < |blocks| && id in blocks[i].eventIds;
        assert id in r[i].eventIds;
      }
    }
  }

  lemma LeavesAppend(h: HashFn, parts: seq<string>, part: string, n: nat)
    requires n == |parts|
    ensures Leaves(h, parts + [part], n + 1) == Leaves(h, parts, n) + [h(part)]
  {
    LeavesLocal(h, parts + [part], parts, n);
  }

  lemma {:induction false} LeavesLocal(h: HashFn, a: seq<string>, b: seq<string>, n: nat)
    requires n <= |a| && n <= |b| && forall i | 0 <= i < n :: a[i] == b[i]
    ensures Leaves(h, a, n) == Leaves(h, b, n)
  {
    if n > 0 {
      LeavesLocal(h, a, b, n - 1);
    }
  }

  lemma DigestIgnoresHashes(a: Block, b: Block, prev: string, merkle: string, content: string)
    requires Shape(a) == Shape(b) && a.psz == b.psz
    ensures DigestText(a, prev, merkle, content) == DigestText(b, prev, merkle, content)
  {
  }

  /** The index depends on the ids only. */
  lemma {:induction false} IndexOfIds(a: seq<Block>, b: seq<Block>, n: nat)
    requires n <= |a| && n <= |b| && forall k | 0 <= k < n :: a[k].eventIds == b[k].eventIds
    ensures IndexUpTo(a, n) == IndexUpTo(b, n)
  {
    if n > 0 {
      IndexOfIds(a, b, n - 1);
    }
  }

  lemma CleanIds(cfg: Config, x: Inspector, events: seq<Event>)
    requires forall e | e in events :: EventClean(cfg, x, e)
    ensures forall e | e in events :: x.contentId(e.payload) == e.id
  {
    hide FieldsClean;
  }
}
