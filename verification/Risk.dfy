/**
 The risk manager as a state and the effect of each operation on it: system state,
 circuit breakers, daily counters, revert windows, bundle results, and the adaptive tip.
 */
module Risk {
  import opened Wrappers
  import StableSort

  // ----- system state

  datatype SystemState = Running | Degraded | Paused | Halted

  /** Any other state may follow, except that only Running may follow Halted. */
  predicate IsValidTransition(from: SystemState, to: SystemState)
    ensures IsValidTransition(from, to) <==> to != from && (from.Halted? ==> to.Running?)
  {
    match from
    case Running => to.Degraded? || to.Paused? || to.Halted?
    case Degraded => to.Running? || to.Paused? || to.Halted?
    case Paused => to.Running? || to.Degraded? || to.Halted?
    case Halted => to.Running?
  }

  /** The state after an attempted transition; an invalid one changes nothing. */
  function Transition(from: SystemState, to: SystemState): SystemState {
    if IsValidTransition(from, to) then to else from
  }

  // ----- configuration

  datatype RiskConfig = RiskConfig(
    maxGasGwei: real,
    consecutiveRevertsPause: int,
    revertWindowMinutes: int,
    dailyLossHaltETH: real,
    minETHBalance: real,
    maxSingleTradeETH: real,
    maxDailyVolumeETH: real,
    minProfitETH: real,
    minTipSharePct: real,
    maxTipSharePct: real)

  /** Times are nanoseconds. */
  type Time = int

  const DAY: Time := 86_400_000_000_000
  const WINDOW_SIZE: nat := 100

  function NextMidnight(now: Time): (t: Time)
    ensures now < t <= now + DAY && t % DAY == 0
  {
    (now / DAY + 1) * DAY
  }

  /** The revert window in nanoseconds. */
  function RevertWindow(cfg: RiskConfig): Time {
    cfg.revertWindowMinutes * 60_000_000_000
  }

  function WeiToETH(wei: int): (eth: real)
    ensures eth * 1000000000000000000.0 == wei as real
  {
    wei as real / 1000000000000000000.0
  }

  // ----- the tip

  datatype Tip = Tip(current: real, min: real, max: real, step: real)

  function ClampTip(v: real, min: real, max: real): real {
    if v < min then min else if v > max then max else v
  }

  /** Bounds that are out of range or out of order fall back to the defaults. */
  function NewTip(start: real, min: real, max: real, step: real): (t: Tip)
    ensures 0.0 < t.min < t.max <= 100.0 && t.min <= t.current <= t.max
    ensures 0.0 < min < max <= 100.0 ==> t.min == min && t.max == max
    ensures (t.min == min || t.min == 50.0) && (t.max == max || t.max == 95.0)
    ensures min <= 0.0 && 50.0 < max <= 100.0 ==> t.max == max
    ensures 0.0 < min < 95.0 && (max <= 0.0 || max > 100.0) ==> t.min == min
    ensures (0.0 < max <= min || (min <= 0.0 && max <= 50.0)) && max <= 100.0 ==> t.min == 50.0 && t.max == 95.0
    ensures t.current == start || (start < t.min == t.current) || (start > t.max == t.current)
    ensures step > 0.0 ==> t.step == step
    ensures step <= 0.0 ==> t.step == 5.0
  {
    var min1 := if min <= 0.0 then 50.0 else min;
    var max1 := if max <= 0.0 || max > 100.0 then 95.0 else max;
    var min2 := if min1 >= max1 then 50.0 else min1;
    var max2 := if min1 >= max1 then 95.0 else max1;
    Tip(ClampTip(start, min2, max2), min2, max2, if step <= 0.0 then 5.0 else step)
  }

  /** One adjustment: up below half inclusion, down above four fifths. */
  function AdjustedTip(t: Tip, inclusionRate: real): Tip {
    if inclusionRate < 0.0 || inclusionRate > 100.0 then t
    else
      var moved := if inclusionRate < 50.0 then t.current + t.step
                   else if inclusionRate > 80.0 then t.current - t.step
                   else t.current;
      t.(current := ClampTip(moved, t.min, t.max))
  }

  // ----- the manager

  datatype Manager = Manager(
    state: SystemState,
    tip: Tip,
    lastTip: real,
    bugReverts: seq<Time>,
    compReverts: seq<Time>,
    volume: int,          // wei today
    pnl: int,             // wei today, may be negative
    resetTime: Time,
    results: seq<bool>,   // ring buffer
    resultIdx: nat,       // next write position, never wrapped
    resultCount: nat,
    lastAdjustedAt: nat,
    minProfitETH: real)

  function Initial(cfg: RiskConfig, now: Time): Manager {
    var start := ClampTip(90.0, cfg.minTipSharePct, cfg.maxTipSharePct);
    Manager(Running, NewTip(start, cfg.minTipSharePct, cfg.maxTipSharePct, 5.0), start, [], [], 0, 0, NextMidnight(now),
            seq(WINDOW_SIZE, _ => false), 0, 0, 0, cfg.minProfitETH)
  }

  /** The entries after `cutoff`, in order and with repetitions. */
  function KeepAfter(ts: seq<Time>, cutoff: Time): seq<Time> {
    if ts == [] then []
    else
      var m := |ts| - 1;
      var kept := KeepAfter(ts[..m], cutoff);
      if ts[m] > cutoff then kept + [ts[m]] else kept
  }

  lemma {:induction false} KeepAfterFilters(ts: seq<Time>, cutoff: Time, t: Time)
    ensures multiset(KeepAfter(ts, cutoff))[t] == if t > cutoff then multiset(ts)[t] else 0
  {
    if ts != [] {
      KeepAfterFilters(ts[..|ts| - 1], cutoff, t);
      StableSort.LastAdds(ts);
    }
  }

  /** A list of revert times after pruning, and with the new one if it belongs there. */
  function Pruned(ts: seq<Time>, now: Time, window: Time, add: bool): seq<Time> {
    var kept := KeepAfter(ts, now - window);
    if add then kept + [now] else kept
  }

  function AfterRevert(cfg: RiskConfig, r: Manager, kind: string, now: Time): Manager {
    var bug := Pruned(r.bugReverts, now, RevertWindow(cfg), kind != "competitive");
    var comp := Pruned(r.compReverts, now, RevertWindow(cfg), kind == "competitive");
    var state := if |bug| >= cfg.consecutiveRevertsPause then Transition(r.state, Paused) else r.state;
    r.(bugReverts := bug, compReverts := comp, state := state)
  }

  function MaybeResetDaily(r: Manager, now: Time): Manager {
    if now > r.resetTime then r.(volume := 0, pnl := 0, resetTime := NextMidnight(now)) else r
  }

  /** The recorded loss of the day exceeds the limit. */
  predicate LossExceeded(cfg: RiskConfig, pnl: int) {
    WeiToETH(-pnl) > cfg.dailyLossHaltETH
  }

  function AfterTrade(cfg: RiskConfig, r: Manager, volumeWei: int, pnlWei: int, now: Time): Manager {
    var r0 := MaybeResetDaily(r, now);
    var r1 := r0.(volume := r0.volume + volumeWei, pnl := r0.pnl + pnlWei);
    if LossExceeded(cfg, r1.pnl) then r1.(state := Transition(r1.state, Halted)) else r1
  }

  function AfterPause(r: Manager): Manager {
    r.(state := Transition(r.state, Paused))
  }

  function AfterResume(r: Manager): Manager {
    if r.state.Halted? then r else r.(state := Transition(r.state, Running))
  }

  function AfterReset(r: Manager, now: Time): Manager {
    if !r.state.Halted? then r
    else r.(volume := 0, pnl := 0, resetTime := NextMidnight(now), state := Transition(r.state, Running))
  }

  function Slot(j: nat): (i: nat)
    ensures i < WINDOW_SIZE
  {
    j % WINDOW_SIZE
  }

  /** The ring buffer has its size, and as many filled slots as results were written, up to that size. */
  predicate RingShape(r: Manager) {
    && |r.results| == WINDOW_SIZE
    && r.resultCount == if r.resultIdx < WINDOW_SIZE then r.resultIdx else WINDOW_SIZE
  }

  function AfterResult(r: Manager, included: bool): (r': Manager)
    requires RingShape(r)
    ensures RingShape(r')
  {
    r.(results := r.results[Slot(r.resultIdx) := included],
       resultIdx := r.resultIdx + 1,
       resultCount := if r.resultCount < WINDOW_SIZE then r.resultCount + 1 else r.resultCount)
  }

  function CountTrue(s: seq<bool>): nat {
    if s == [] then 0 else CountTrue(s[..|s| - 1]) + if s[|s| - 1] then 1 else 0
  }

  /** What the count counts. */
  lemma {:induction false} CountTrueCounts(s: seq<bool>)
    ensures CountTrue(s) == multiset(s)[true]
  {
    if s != [] {
      CountTrueCounts(s[..|s| - 1]);
      StableSort.LastAdds(s);
    }
  }

  /** `part` of `total`, in percent. */
  function Percent(part: nat, total: nat): real
    requires total > 0
  {
    part as real / total as real * 100.0
  }

  /** The filled slots of the ring buffer. */
  function Filled(r: Manager): seq<bool>
    requires RingShape(r)
  {
    r.results[..r.resultCount]
  }

  function WinRate(r: Manager): real
    requires RingShape(r)
  {
    if r.resultCount == 0 then 0.0 else Percent(CountTrue(Filled(r)), r.resultCount)
  }

  lemma {:induction false} CountTrueIsBounded(s: seq<bool>)
    ensures CountTrue(s) <= |s|
  {
    if s != [] { CountTrueIsBounded(s[..|s| - 1]); }
  }

  function Misses(s: seq<bool>): nat {
    CountTrueIsBounded(s);
    |s| - CountTrue(s)
  }

  function MissRate(r: Manager): real
    requires RingShape(r)
  {
    if r.resultCount == 0 then 0.0 else Percent(Misses(Filled(r)), r.resultCount)
  }

  function AfterTipShare(cfg: RiskConfig, r: Manager): (r': Manager)
    requires RingShape(r)
    ensures RingShape(r')
  {
    if r.resultIdx == 0 || r.resultIdx <= r.lastAdjustedAt then r
    else
      var tip := AdjustedTip(r.tip, Percent(CountTrue(Filled(r)), r.resultCount));
      r.(tip := tip,
         lastTip := ClampTip(tip.current, cfg.minTipSharePct, cfg.maxTipSharePct),
         lastAdjustedAt := r.resultIdx)
  }

  // ----- preflight

  datatype Refusal =
    NotRunning | GasTooHigh | BalanceTooLow | TradeTooLarge | VolumeExceeded | ProfitTooLow | TipTooLow | TipTooHigh

  datatype Candidate = Candidate(profitWei: int, valueWei: int, gasGwei: real, tipSharePct: real, ethBalance: real)

  /** The first check that fails, in the order of the source; `None` is an approval. */
  function Preflight(cfg: RiskConfig, r: Manager, c: Candidate): (p: Option<Refusal>)
    ensures p.None? <==>
              && (r.state.Running? || r.state.Degraded?)
              && c.gasGwei <= cfg.maxGasGwei && c.ethBalance >= cfg.minETHBalance
              && WeiToETH(c.valueWei) <= cfg.maxSingleTradeETH
              && WeiToETH(r.volume + c.valueWei) <= cfg.maxDailyVolumeETH
              && WeiToETH(c.profitWei) >= r.minProfitETH
              && cfg.minTipSharePct <= c.tipSharePct <= cfg.maxTipSharePct
  {
    if !r.state.Running? && !r.state.Degraded? then Some(NotRunning)
    else if c.gasGwei > cfg.maxGasGwei then Some(GasTooHigh)
    else if c.ethBalance < cfg.minETHBalance then Some(BalanceTooLow)
    else if WeiToETH(c.valueWei) > cfg.maxSingleTradeETH then Some(TradeTooLarge)
    else if WeiToETH(r.volume + c.valueWei) > cfg.maxDailyVolumeETH then Some(VolumeExceeded)
    else if WeiToETH(c.profitWei) < r.minProfitETH then Some(ProfitTooLow)
    else if c.tipSharePct < cfg.minTipSharePct then Some(TipTooLow)
    else if c.tipSharePct > cfg.maxTipSharePct then Some(TipTooHigh)
    else None
  }

  /** The checks of a candidate, in their order. */
  const CHECKS: seq<Refusal> :=
    [NotRunning, GasTooHigh, BalanceTooLow, TradeTooLarge, VolumeExceeded, ProfitTooLow, TipTooLow, TipTooHigh]

  /** What each check refuses; the amounts are compared in wei. */
  ghost predicate Fails(cfg: RiskConfig, r: Manager, c: Candidate, check: Refusal) {
    match check
    case NotRunning => r.state.Paused? || r.state.Halted?
    case GasTooHigh => c.gasGwei > cfg.maxGasGwei
    case BalanceTooLow => c.ethBalance < cfg.minETHBalance
    case TradeTooLarge => c.valueWei as real > cfg.maxSingleTradeETH * 1000000000000000000.0
    case VolumeExceeded => (r.volume + c.valueWei) as real > cfg.maxDailyVolumeETH * 1000000000000000000.0
    case ProfitTooLow => (c.profitWei as real) < r.minProfitETH * 1000000000000000000.0
    case TipTooLow => c.tipSharePct < cfg.minTipSharePct
    case TipTooHigh => c.tipSharePct > cfg.maxTipSharePct
  }

  /** The first check that fails decides; a candidate that passes all of them is approved. */
  lemma FirstFailureDecides(cfg: RiskConfig, r: Manager, c: Candidate, k: nat)
    requires k < |CHECKS|
    ensures Preflight(cfg, r, c) == Some(CHECKS[k]) <==>
              Fails(cfg, r, c, CHECKS[k]) && forall j | 0 <= j < k :: !Fails(cfg, r, c, CHECKS[j])
    ensures Preflight(cfg, r, c).None? <==> forall j | 0 <= j < |CHECKS| :: !Fails(cfg, r, c, CHECKS[j])
  {
    assert CHECKS[0] == NotRunning && CHECKS[1] == GasTooHigh && CHECKS[2] == BalanceTooLow;
    assert CHECKS[3] == TradeTooLarge && CHECKS[4] == VolumeExceeded && CHECKS[5] == ProfitTooLow;
    assert CHECKS[6] == TipTooLow && CHECKS[7] == TipTooHigh;
  }
}
