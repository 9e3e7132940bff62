/** What the clock does to the timeline. */
module Clock {
  import opened Types
  import opened Timeline
  import opened Invariant
  import opened Preservation
  import opened History

  /** How many whole intervals fit into `x` seconds. */
  function Intervals(x: int, d: nat): (k: nat)
    requires d >= 1
    decreases x
  {
    if x < d then 0 else 1 + Intervals(x - d, d)
  }

  /** Whole intervals since the last block opened. */
  function Behind(cfg: Config, blocks: seq<Block>, now: int): nat
    requires blocks != []
  {
    Intervals(now - blocks[|blocks| - 1].openedUnix, cfg.interval)
  }

  /** `k` intervals later. */
  function After(t: int, d: nat, k: nat): int { if k == 0 then t else After(t, d, k - 1) + d }

  /** The `k`-th slot after a block. */
  function SlotAfter(b: Block, d: nat, k: nat): Block { EmptyBlock(b.index + k, After(b.openedUnix, d, k)) }

  lemma {:induction false} AfterAdds(t: int, d: nat, k: nat)
    ensures After(t + d, d, k) == After(t, d, k + 1)
  {
    if k > 0 {
      AfterAdds(t, d, k - 1);
    }
  }

  lemma NextSlot(b: Block, d: nat, k: nat)
    ensures SlotAfter(SlotAfter(b, d, 1), d, k) == SlotAfter(b, d, k + 1)
  {
    AfterAdds(b.openedUnix, d, k);
    assert After(b.openedUnix, d, 1) == After(b.openedUnix, d, 0) + d;
  }

  /** Tick and append open one slot per whole interval since the last block, in order, but at most the budget. */
  lemma {:induction false} SlotsAre(cfg: Config, blocks: seq<Block>, now: int, budget: nat)
    requires blocks != []
    ensures var r, last := Slots(cfg, blocks, now, budget), blocks[|blocks| - 1];
            && |r| == |blocks| + Min(budget, Behind(cfg, blocks, now))
            && (forall j | 0 <= j < |blocks| :: r[j] == blocks[j])
            && forall j | |blocks| <= j < |r| :: r[j] == SlotAfter(last, cfg.interval, j - |blocks| + 1)
    decreases budget
  {
    hide SlotAfter;
    var last := blocks[|blocks| - 1];
    if !(now - last.openedUnix < cfg.interval || budget == 0) {
      FirstSlot(last, cfg.interval);
      var more := blocks + [SlotAfter(last, cfg.interval, 1)];
      SlotsAre(cfg, more, now, budget - 1);
      var r := Slots(cfg, more, now, budget - 1);
      forall j | |blocks| <= j < |r| ensures r[j] == SlotAfter(last, cfg.interval, j - |blocks| + 1) {
        if j > |blocks| {
          NextSlot(last, cfg.interval, j - |blocks|);
        }
      }
    }
  }

  lemma FirstSlot(b: Block, d: nat)
    ensures SlotAfter(b, d, 1) == EmptyBlock(b.index + 1, b.openedUnix + d)
  {
    assert After(b.openedUnix, d, 0) == b.openedUnix;
  }

  lemma BehindAfter(cfg: Config, blocks: seq<Block>, now: int, budget: nat)
    requires blocks != []
    ensures var r := Slots(cfg, blocks, now, budget);
            r != [] && Behind(cfg, r, now) == Max(0, Behind(cfg, blocks, now) - budget)
    decreases budget
  {
    var last := blocks[|blocks| - 1];
    if !(now - last.openedUnix < cfg.interval || budget == 0) {
      BehindAfter(cfg, blocks + [EmptyBlock(last.index + 1, last.openedUnix + cfg.interval)], now, budget - 1);
    }
  }

  /** A tick confirms exactly the blocks that were confirmed and those that opened at least one interval ago. */
  lemma TickConfirms(cfg: Config, c: Chain, now: int)
    requires Valid(cfg, c) && c.blocks != []
    ensures var r := Tick(cfg, c, now).blocks;
            && |r| == |c.blocks| + Min(MAX_RESERVE_PER_CHECK, Behind(cfg, c.blocks, now))
            && (forall i | 0 <= i < |r| ::
                 r[i].confirmed <==> (i < |c.blocks| && c.blocks[i].confirmed) || Due(cfg, r[i], now))
            && (forall i | 0 <= i < |c.blocks| ::
                 r[i].openedUnix == c.blocks[i].openedUnix && r[i].eventIds == c.blocks[i].eventIds)
            && Behind(cfg, r, now) == Max(0, Behind(cfg, c.blocks, now) - MAX_RESERVE_PER_CHECK)
  {
    hide Slots, Tick, Valid, Behind;
    TickShape(cfg, c, now);
    SlotsAre(cfg, c.blocks, now, MAX_RESERVE_PER_CHECK);
    BehindAfter(cfg, c.blocks, now, MAX_RESERVE_PER_CHECK);
    SlotsExtend(cfg, c.blocks, now, MAX_RESERVE_PER_CHECK);
    SameBehind(cfg, Slots(cfg, c.blocks, now, MAX_RESERVE_PER_CHECK), Tick(cfg, c, now).blocks, now);
  }

  /** Block by block, a tick is the slots with the due ones confirmed. */
  lemma TickShape(cfg: Config, c: Chain, now: int)
    requires Valid(cfg, c) && c.blocks != []
    ensures var r, slots := Tick(cfg, c, now).blocks, Slots(cfg, c.blocks, now, MAX_RESERVE_PER_CHECK);
            |r| == |slots| && forall i | 0 <= i < |slots| ::
              r[i].openedUnix == slots[i].openedUnix && r[i].eventIds == slots[i].eventIds &&
              r[i].confirmed == (slots[i].confirmed || Due(cfg, slots[i], now))
  {
    hide Slots, Settle, Tick, Valid;
    TickIs(cfg, c, now);
    var slots := Slots(cfg, c.blocks, now, MAX_RESERVE_PER_CHECK);
    var d := Confirm(cfg, c.(blocks := slots), now);
    SettleShape(cfg, d);
    forall i | 0 <= i < |slots| ensures Shape(Settle(cfg, d).blocks[i]) == Shape(d.blocks[i]) {
    }
  }

  /** The slots a tick adds open one interval after another, without events. */
  lemma TickOpens(cfg: Config, c: Chain, now: int)
    requires Valid(cfg, c) && c.blocks != []
    ensures var r := Tick(cfg, c, now).blocks;
            forall i | |c.blocks| <= i < |r| ::
              r[i].eventIds == [] &&
              r[i].openedUnix == After(c.blocks[|c.blocks| - 1].openedUnix, cfg.interval, i - |c.blocks| + 1)
  {
    hide Slots, Tick, Valid, Behind, After;
    TickShape(cfg, c, now);
    SlotsAre(cfg, c.blocks, now, MAX_RESERVE_PER_CHECK);
  }

  lemma SameBehind(cfg: Config, a: seq<Block>, b: seq<Block>, now: int)
    requires a != [] && |a| == |b| && a[|a| - 1].openedUnix == b[|b| - 1].openedUnix
    ensures Behind(cfg, a, now) == Behind(cfg, b, now)
  {
  }

  /** The chain after `n` ticks at one clock reading. */
  function Ticked(cfg: Config, c: Chain, now: int, n: nat): Chain {
    if n == 0 then c else Tick(cfg, Ticked(cfg, c, now, n - 1), now)
  }

  lemma {:induction false} TickedBehind(cfg: Config, c: Chain, now: int, n: nat)
    requires Valid(cfg, c) && c.blocks != []
    ensures var r := Ticked(cfg, c, now, n);
            Valid(cfg, r) && r.blocks != [] &&
            Behind(cfg, r.blocks, now) == Max(0, Behind(cfg, c.blocks, now) - n * 256)
  {
    hide Tick, Valid, Behind;
    if n > 0 {
      TickedBehind(cfg, c, now, n - 1);
      var before := Ticked(cfg, c, now, n - 1);
      TickValid(cfg, before, now);
      TickConfirms(cfg, before, now);
    }
  }

  /** After a long sleep the timeline catches up in exactly as many ticks as 256-slot portions are missing. */
  lemma TicksCatchUp(cfg: Config, c: Chain, now: int, n: nat)
    requires Valid(cfg, c) && c.blocks != []
    ensures Behind(cfg, Ticked(cfg, c, now, n).blocks, now) == 0 <==>
            Behind(cfg, c.blocks, now) <= n * 256
  {
    hide Behind, Ticked;
    TickedBehind(cfg, c, now, n);
  }

  // ----- one and two intervals later

  lemma AfterTwo(t: int, d: nat)
    ensures After(t, d, 1) == t + d && After(t, d, 2) == t + d + d
  {
    assert After(t, d, 0) == t;
  }

  lemma TwoBehind(cfg: Config, blocks: seq<Block>, now: int)
    requires blocks != [] && now == blocks[|blocks| - 1].openedUnix + cfg.interval + cfg.interval
    ensures Behind(cfg, blocks, now) == 2
  {
    var d: nat := cfg.interval;
    assert Intervals(0, d) == 0 && Intervals(d, d) == 1 + Intervals(d - d, d);
  }

  lemma OneBehind(cfg: Config, blocks: seq<Block>, now: int)
    requires blocks != [] && now == blocks[|blocks| - 1].openedUnix + cfg.interval
    ensures Behind(cfg, blocks, now) == 1
  {
    var d: nat := cfg.interval;
    assert Intervals(0, d) == 0 && Intervals(d, d) == 1 + Intervals(d - d, d);
  }
}
