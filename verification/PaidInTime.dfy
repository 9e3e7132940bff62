/** Money that arrives in time: one time stamp, three kinds. */
module PaidInTime {
  import opened Types
  import opened Decimal
  import opened Canonical
  import opened Sha256
  import opened Timeline
  import opened Invariant
  import opened History
  import opened Schedule
  import opened Ledger
  import opened Replay
  import opened ReplayOrder
  import opened Views
  import opened Producer
  import opened Entitlement
  import opened SmallRuns
  import opened Incidents
  import opened Batches

  /** Five units for `to`, at a fee of one. */
  function Five(to: string): Draft { Draft("x", to, false, "n", 5, "") }

  function SendFive(econ: Econ, id: Identity, to: string, ts: int): Event {
    Event("b", RewardTransferred, id.cid, ts, TransferPayload(econ.h, id, ts, Five(to), 1, 1), "s")
  }

  function SpendFive(author: string, ts: int): Event {
    Event("a", ThreadCreated, author, ts, CanonicalText([("post_value", IntText(5)), ("thread_id", "t")]), "s")
  }

  /** As they arrive: the post, the transfer that pays for it, and the claim that pays for the transfer. */
  function Late(econ: Econ, id: Identity, b: Block, to: string, ts: int): seq<Event> {
    [SpendFive(to, ts), SendFive(econ, id, to, ts), FreeClaim(econ, id, b, ts)]
  }

  /** As they replay. */
  function InTime(econ: Econ, id: Identity, b: Block, to: string, ts: int): seq<Event> {
    [FreeClaim(econ, id, b, ts), SendFive(econ, id, to, ts), SpendFive(to, ts)]
  }

  lemma SixDue(units: int)
    requires units == 6
    ensures ExpectedReward(units, 1, 0) == 6
  {
    assert Power(KEEP, 0) == 1.0;
    assert Decayed(6, 0) == 6;
  }

  lemma PriceReads()
    ensures var p := ParseMap(CanonicalText([("post_value", IntText(5)), ("thread_id", "t")]));
            && "post_value" in p && ParseI64OrZero(p["post_value"]) == 5
            && "thread_id" in p && p["thread_id"] == "t"
  {
    hide ParseMap, CanonicalText, IntText, ParseI64;
    var fields := [("post_value", IntText(5)), ("thread_id", "t")];
    FieldReadsBack(fields, 0);
    FieldReadsBack(fields, 1);
    ParseI64OfText(5);
  }

  lemma TheirOrder(econ: Econ, id: Identity, b: Block, to: string, ts: int)
    ensures var s := InTime(econ, id, b, to, ts);
            multiset(s) == multiset(Late(econ, id, b, to, ts)) && forall i, j | 0 <= i < j < |s| :: Precedes(s[i], s[j])
  {
    hide ClaimPayload, TransferPayload, CanonicalText, FreeWork, ExpectedReward, IntText;
  }

  /** The transfer, booked after the claim. */
  lemma FiveMoves(econ: Econ, blocks: seq<Block>, id: Identity, to: string, ts: int)
    requires to != "" && to != id.cid
    ensures EconStep(econ, blocks, Rewarded(EMPTY, id.cid, 1, 6), SendFive(econ, id, to, ts)) ==
            Moved(Rewarded(EMPTY, id.cid, 1, 6), id.cid, to, 5, 1)
  {
    hide TransferPayload, EconStep;
    TransferJudged(econ, blocks, Rewarded(EMPTY, id.cid, 1, 6), id, Five(to), SendFive(econ, id, to, ts));
  }

  /** The whole replay, over blocks of which the second can be claimed. */
  lemma AllBooked(econ: Econ, blocks: seq<Block>, id: Identity, b: Block, to: string, ts: int)
    requires HexHash(econ.h) && econ.units == 6 && b.index == 1 && to != "" && to != id.cid && Claimable(blocks, 1)
    ensures var s := InTime(econ, id, b, to, ts); var l := Economy(econ, blocks, s, |s|);
            && Balance(l.balances, id.cid) == 0 && Balance(l.balances, to) == 0
            && l.issued == 6 && l.burned == 6 && l.refused == map[]
  {
    hide Economy, EconStep, Claimable, FreeClaim, SendFive, SpendFive, Charges;
    var s := InTime(econ, id, b, to, ts);
    EconomyNext(econ, blocks, s, 0);
    EconomyNext(econ, blocks, s, 1);
    EconomyNext(econ, blocks, s, 2);
    FreePaid(econ, blocks, id, b, ts);
    SixDue(econ.units);
    FiveMoves(econ, blocks, id, to, ts);
    var l := Moved(Rewarded(EMPTY, id.cid, 1, 6), id.cid, to, 5, 1);
    assert Offers(SpendFive(to, ts), 5) && SpendFive(to, ts).author == to by { FiveOffered(to, ts); }
    PostDecided(econ, blocks, l, SpendFive(to, ts), 5);
    FiveCharged(l, Economy(econ, blocks, s, 3), SpendFive(to, ts), id.cid, to);
  }

  lemma FiveOffered(to: string, ts: int)
    ensures Offers(SpendFive(to, ts), 5) && SpendFive(to, ts).author == to
  {
    hide ParseMap, CanonicalText, IntText, ParseI64OrZero;
    PriceReads();
  }

  lemma FiveCharged(l: Ledger, l': Ledger, e: Event, from: string, to: string)
    requires Charges(l, l', e, 5) && e.author == to && from != to
    requires l == Moved(Rewarded(EMPTY, from, 1, 6), from, to, 5, 1)
    ensures Balance(l'.balances, from) == 0 && Balance(l'.balances, to) == 0
    ensures l'.issued == 6 && l'.burned == 6 && l'.refused == map[]
  {
  }

  /**
   * Three events of one time, one block: a post, the transfer its author pays it with, and the claim that transfer is paid
   * from. They arrive in this order and by their ids they would replay so; they replay claim, transfer, post, nothing is
   * refused, all money is spent, and the thread is there.
   */
  lemma ClaimsThenTransfersThenPosts(cfg: Config, econ: Econ, psz: string, id: Identity, b: Block, to: string, ts: int)
    requires HexHash(econ.h) && econ.units == 6 && b.index == 1 && to != "" && to != id.cid
    requires Batch(cfg, Late(econ, id, b, to, ts), ts)
    ensures var ops := BatchRun(cfg, Late(econ, id, b, to, ts), ts); var c := Run(cfg, Blank(psz), ops, |ops|);
            var l := Materialized(econ, c);
            && Ordered(c) == InTime(econ, id, b, to, ts)
            && Balance(l.balances, id.cid) == 0 && Balance(l.balances, to) == 0
            && l.issued == 6 && l.burned == 6 && l.refused == map[]
            && "t" in Posted(l.refused, Ordered(c), |Ordered(c)|).threads
  {
    hide Run, Valid, Batch, BatchRun, Economy, Ordered, Claimable, Posted, Late, InTime, Precedes;
    var ops := BatchRun(cfg, Late(econ, id, b, to, ts), ts);
    var c := Run(cfg, Blank(psz), ops, |ops|);
    BatchWaits(cfg, psz, Late(econ, id, b, to, ts), ts);
    TheirOrder(econ, id, b, to, ts);
    BatchOrdered(cfg, psz, Late(econ, id, b, to, ts), InTime(econ, id, b, to, ts), ts);
    ClaimableOne(cfg, c);
    AllBooked(econ, c.blocks, id, b, to, ts);
    ThreadPosted(econ, id, b, to, ts);
  }

  lemma ThreadPosted(econ: Econ, id: Identity, b: Block, to: string, ts: int)
    ensures var s := InTime(econ, id, b, to, ts); "t" in Posted(map[], s, |s|).threads
  {
    hide ParseMap, CanonicalText, IntText, ParseI64OrZero, ClaimPayload, TransferPayload, PostRecipe, PostReply, PostReview,
      PostThumb, PostValue;
    PriceReads();
    var s := InTime(econ, id, b, to, ts);
    assert Accepted(map[], s[2]);
  }
}
