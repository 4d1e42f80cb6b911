/**
 The risk manager as code: objects updated in place, each operation tied to its effect
 on the abstract state.
 */
module RiskManager {
  import opened Wrappers
  import opened Risk

  class SystemStateMachine {
    var state: SystemState

    constructor ()
      ensures state == Running
    {
      state := Running;
    }

    method Transition(newState: SystemState) returns (ok: bool)
      modifies this
      ensures ok == IsValidTransition(old(state), newState)
      ensures state == Risk.Transition(old(state), newState)
    {
      ok := IsValidTransition(state, newState);
      if ok {
        state := newState;
      }
    }
  }

  class AdaptiveTipStrategy {
    var currentTipPct: real
    const minTipPct: real
    const maxTipPct: real
    const stepPct: real

    ghost function View(): Tip
      reads this
    {
      Tip(currentTipPct, minTipPct, maxTipPct, stepPct)
    }

    constructor (startTipPct: real, minTipPct: real, maxTipPct: real, stepPct: real)
      ensures View() == NewTip(startTipPct, minTipPct, maxTipPct, stepPct)
    {
      var lo, hi, step := minTipPct, maxTipPct, stepPct;
      if lo <= 0.0 {
        lo := 50.0;
      }
      if hi <= 0.0 || hi > 100.0 {
        hi := 95.0;
      }
      if lo >= hi {
        lo, hi := 50.0, 95.0;
      }
      if step <= 0.0 {
        step := 5.0;
      }
      this.minTipPct, this.maxTipPct, this.stepPct := lo, hi, step;
      currentTipPct := ClampTip(startTipPct, lo, hi);
    }

    method CalculateTip(inclusionRate: real) returns (tip: real)
      modifies this
      ensures View() == AdjustedTip(old(View()), inclusionRate) && tip == currentTipPct
    {
      if inclusionRate < 0.0 || inclusionRate > 100.0 {
        return currentTipPct;
      }
      if inclusionRate < 50.0 {
        currentTipPct := currentTipPct + stepPct;
      } else if inclusionRate > 80.0 {
        currentTipPct := currentTipPct - stepPct;
      }
      currentTipPct := ClampTip(currentTipPct, minTipPct, maxTipPct);
      tip := currentTipPct;
    }
  }

  /** Filters a slice into its own beginning: the write position never passes the read position. */
  method Prune(ts: seq<Time>, cutoff: Time) returns (out: seq<Time>)
    ensures out == KeepAfter(ts, cutoff)
  {
    var buf := ts;
    var w := 0;
    for i := 0 to |ts|
      invariant w <= i && |buf| == |ts|
      invariant buf[..w] == KeepAfter(ts[..i], cutoff)
      invariant buf[i..] == ts[i..]
    {
      assert ts[..i + 1][..i] == ts[..i] && buf[i] == buf[i..][0] == ts[i];
      if buf[i] > cutoff {
        ghost var kept := buf[..w];
        buf := buf[w := buf[i]];
        w := w + 1;
        assert buf[..w] == kept + [ts[i]];
      }
      assert buf[i + 1..] == ts[i + 1..];
    }
    assert ts[..|ts|] == ts;
    out := buf[..w];
  }

  class RiskManager {
    const config: RiskConfig
    const state: SystemStateMachine
    const tipStrategy: AdaptiveTipStrategy
    var minProfitETH: real
    var lastTipSharePct: real
    var recentBugReverts: seq<Time>
    var recentCompReverts: seq<Time>
    var dailyVolume: int
    var dailyPnL: int
    var dailyResetTime: Time
    var bundleResults: array<bool>
    var bundleResultIdx: nat
    var bundleResultCount: nat
    var lastAdjustedAtIdx: nat

    ghost function View(): Manager
      reads this, state, tipStrategy, bundleResults
    {
      Manager(state.state, tipStrategy.View(), lastTipSharePct, recentBugReverts, recentCompReverts, dailyVolume,
              dailyPnL, dailyResetTime, bundleResults[..], bundleResultIdx, bundleResultCount, lastAdjustedAtIdx,
              minProfitETH)
    }

    ghost predicate Valid()
      reads this, state, tipStrategy, bundleResults
    {
      RingShape(View())
    }

    constructor (config: RiskConfig, now: Time)
      ensures View() == Initial(config, now) && this.config == config && Valid()
      ensures fresh(state) && fresh(tipStrategy) && fresh(bundleResults)
    {
      var initialTipShare := ClampTip(90.0, config.minTipSharePct, config.maxTipSharePct);
      this.config := config;
      state := new SystemStateMachine();
      tipStrategy := new AdaptiveTipStrategy(initialTipShare, config.minTipSharePct, config.maxTipSharePct, 5.0);
      minProfitETH := config.minProfitETH;
      lastTipSharePct := initialTipShare;
      recentBugReverts, recentCompReverts := [], [];
      dailyVolume, dailyPnL := 0, 0;
      dailyResetTime := NextMidnight(now);
      bundleResults := new bool[WINDOW_SIZE](_ => false);
      bundleResultIdx, bundleResultCount, lastAdjustedAtIdx := 0, 0, 0;
      new;
      assert bundleResults[..] == Initial(config, now).results;
    }

    method RecordRevert(kind: string, now: Time)
      requires Valid()
      modifies this, state
      ensures Valid() && View() == AfterRevert(config, old(View()), kind, now)
      ensures bundleResults == old(bundleResults)
    {
      var cutoff := now - RevertWindow(config);
      recentBugReverts := Prune(recentBugReverts, cutoff);
      recentCompReverts := Prune(recentCompReverts, cutoff);
      if kind == "competitive" {
        recentCompReverts := recentCompReverts + [now];
      } else {
        recentBugReverts := recentBugReverts + [now];
      }
      if |recentBugReverts| >= config.consecutiveRevertsPause {
        var _ := state.Transition(Paused);
      }
    }

    method RecordTrade(volumeWei: int, pnlWei: int, now: Time)
      requires Valid()
      modifies this, state
      ensures Valid() && View() == AfterTrade(config, old(View()), volumeWei, pnlWei, now)
      ensures bundleResults == old(bundleResults)
    {
      if now > dailyResetTime {
        dailyVolume, dailyPnL := 0, 0;
        dailyResetTime := NextMidnight(now);
      }
      dailyVolume := dailyVolume + volumeWei;
      dailyPnL := dailyPnL + pnlWei;
      var lossETH := WeiToETH(-dailyPnL);
      if lossETH > config.dailyLossHaltETH {
        var _ := state.Transition(Halted);
      }
    }

    method Pause() returns (ok: bool)
      requires Valid()
      modifies state
      ensures Valid() && View() == AfterPause(old(View()))
      ensures state.state == if old(state.state).Halted? then Halted else Paused
      ensures ok <==> old(state.state).Running? || old(state.state).Degraded?
    {
      ok := state.Transition(Paused);
    }

    method Resume() returns (ok: bool)
      requires Valid()
      modifies state
      ensures Valid() && View() == AfterResume(old(View()))
      ensures state.state == if old(state.state).Halted? then Halted else Running
      ensures ok <==> old(state.state).Paused? || old(state.state).Degraded?
    {
      if state.state == Halted {
        return false;
      }
      ok := state.Transition(Running);
    }

    method ResetFromHalted(now: Time) returns (ok: bool)
      requires Valid()
      modifies this, state
      ensures Valid() && View() == AfterReset(old(View()), now)
      ensures state.state == if old(state.state).Halted? then Running else old(state.state)
      ensures ok <==> old(state.state).Halted?
      ensures bundleResults == old(bundleResults)
    {
      if state.state != Halted {
        return false;
      }
      dailyVolume, dailyPnL := 0, 0;
      dailyResetTime := NextMidnight(now);
      ok := state.Transition(Running);
    }

    method RecordBundleResult(included: bool)
      requires Valid()
      modifies this, bundleResults
      ensures Valid() && View() == AfterResult(old(View()), included)
      ensures bundleResults == old(bundleResults)
    {
      var windowSize := bundleResults.Length;
      bundleResults[bundleResultIdx % windowSize] := included;
      bundleResultIdx := bundleResultIdx + 1;
      if bundleResultCount < windowSize {
        bundleResultCount := bundleResultCount + 1;
      }
    }

    /** The inclusions among the filled slots. */
    method CountIncluded() returns (included: nat)
      requires Valid()
      ensures included == CountTrue(Filled(View()))
    {
      included := 0;
      for i := 0 to bundleResultCount
        invariant included == CountTrue(bundleResults[..i])
      {
        assert bundleResults[..i + 1][..i] == bundleResults[..i];
        if bundleResults[i] {
          included := included + 1;
        }
      }
      assert bundleResults[..bundleResultCount] == Filled(View());
    }

    method WinRate() returns (rate: real)
      requires Valid()
      ensures rate == Risk.WinRate(View())
    {
      if bundleResultCount == 0 {
        return 0.0;
      }
      var included := CountIncluded();
      rate := included as real / bundleResultCount as real * 100.0;
    }

    method BundleMissRate() returns (rate: real)
      requires Valid()
      ensures rate == MissRate(View())
    {
      if bundleResultCount == 0 {
        return 0.0;
      }
      var included := CountIncluded();
      CountTrueIsBounded(Filled(View()));
      rate := (bundleResultCount - included) as real / bundleResultCount as real * 100.0;
    }

    method CalculateTipShare() returns (tipShare: real)
      requires Valid()
      modifies this, tipStrategy
      ensures Valid() && View() == AfterTipShare(config, old(View())) && tipShare == lastTipSharePct
      ensures bundleResults == old(bundleResults)
    {
      if bundleResultIdx == 0 || bundleResultIdx <= lastAdjustedAtIdx {
        return lastTipSharePct;
      }
      var included := CountIncluded();
      var inclusionRate := Percent(included, bundleResultCount);
      tipShare := tipStrategy.CalculateTip(inclusionRate);
      tipShare := ClampTip(tipShare, config.minTipSharePct, config.maxTipSharePct);
      lastAdjustedAtIdx := bundleResultIdx;
      lastTipSharePct := tipShare;
    }

    method SetMinProfitETH(eth: real)
      requires Valid()
      modifies this
      ensures Valid() && View() == old(View()).(minProfitETH := eth) && bundleResults == old(bundleResults)
    {
      minProfitETH := eth;
    }

    method PreflightCheck(c: Candidate) returns (refusal: Option<Refusal>)
      requires Valid()
      ensures refusal == Preflight(config, View(), c)
    {
      if state.state != Running && state.state != Degraded {
        return Some(NotRunning);
      }
      if c.gasGwei > config.maxGasGwei {
        return Some(GasTooHigh);
      }
      if c.ethBalance < config.minETHBalance {
        return Some(BalanceTooLow);
      }
      var tradeETH := WeiToETH(c.valueWei);
      if tradeETH > config.maxSingleTradeETH {
        return Some(TradeTooLarge);
      }
      var newVolume := dailyVolume + c.valueWei;
      if WeiToETH(newVolume) > config.maxDailyVolumeETH {
        return Some(VolumeExceeded);
      }
      var profitETH := WeiToETH(c.profitWei);
      if profitETH < minProfitETH {
        return Some(ProfitTooLow);
      }
      if c.tipSharePct < config.minTipSharePct {
        return Some(TipTooLow);
      }
      if c.tipSharePct > config.maxTipSharePct {
        return Some(TipTooHigh);
      }
      refusal := None;
    }
  }
}
