/** The adaptive tip over whole runs of the risk manager. */
module TipRuns {
  import opened Wrappers
  import opened Risk
  import opened RiskRuns

  /** What the configuration loader checks of the tip bounds. */
  ghost predicate ValidTips(cfg: RiskConfig) {
    0.0 < cfg.minTipSharePct < cfg.maxTipSharePct <= 100.0
  }

  /** The strategy and the manager agree on a tip within the configured bounds. */
  ghost predicate TipHolds(cfg: RiskConfig, r: Manager) {
    && r.tip == Tip(r.lastTip, cfg.minTipSharePct, cfg.maxTipSharePct, 5.0)
    && cfg.minTipSharePct <= r.lastTip <= cfg.maxTipSharePct
    && r.lastAdjustedAt <= r.resultIdx
  }

  function Distance(x: real, y: real): real {
    if x < y then y - x else x - y
  }

  /** One adjustment moves the tip by at most a step and stays within the bounds. */
  lemma AdjustmentIsSmall(t: Tip, rate: real)
    requires t.min <= t.current <= t.max && t.step == 5.0
    ensures var t' := AdjustedTip(t, rate);
            && t' == t.(current := t'.current) && t.min <= t'.current <= t.max
            && Distance(t.current, t'.current) <= 5.0
  {
  }

  /** An operation keeps the bounds, and moves the tip only by taking notice of new results. */
  lemma OpMovesTip(cfg: RiskConfig, r: Manager, op: Op)
    requires ValidTips(cfg) && RingShape(r) && TipHolds(cfg, r)
    ensures var r' := Apply(cfg, r, op);
            && TipHolds(cfg, r')
            && (r'.lastTip != r.lastTip ==> op.TipShare? && r.lastAdjustedAt < r'.lastAdjustedAt == r.resultIdx)
            && r'.lastAdjustedAt >= r.lastAdjustedAt
            && Distance(r.lastTip, r'.lastTip) <= 5.0
  {
    if op.TipShare? && r.resultIdx > r.lastAdjustedAt {
      AdjustmentIsSmall(r.tip, Percent(CountTrue(Filled(r)), r.resultCount));
    }
  }

  lemma {:induction false} TipStaysInBounds(cfg: RiskConfig, start: Time, ops: seq<Op>)
    requires ValidTips(cfg)
    ensures TipHolds(cfg, After(cfg, start, ops))
  {
    if ops != [] {
      TipStaysInBounds(cfg, start, ops[..|ops| - 1]);
      OpMovesTip(cfg, After(cfg, start, ops[..|ops| - 1]), ops[|ops| - 1]);
    }
  }

  /** The tip gates never refuse the tip that the manager computed, whatever operations run before the check. */
  lemma TipIsNeverRefused(cfg: RiskConfig, start: Time, ops: seq<Op>, more: seq<Op>, c: Candidate)
    requires ValidTips(cfg) && c.tipSharePct == After(cfg, start, ops + [TipShare]).lastTip
    ensures var refusal := Preflight(cfg, After(cfg, start, ops + [TipShare] + more), c);
            refusal != Some(TipTooLow) && refusal != Some(TipTooHigh)
  {
    TipStaysInBounds(cfg, start, ops + [TipShare]);
  }

  /** Over any stretch of a run the tip moves at most one step per result taken notice of. */
  lemma {:induction false} TipMovesSlowly(cfg: RiskConfig, start: Time, ops: seq<Op>, more: seq<Op>)
    requires ValidTips(cfg)
    ensures var r, r' := After(cfg, start, ops), After(cfg, start, ops + more);
            && r.lastAdjustedAt <= r'.lastAdjustedAt <= r'.resultIdx
            && Distance(r.lastTip, r'.lastTip) <= 5.0 * (r'.lastAdjustedAt - r.lastAdjustedAt) as real
    decreases |more|
  {
    TipStaysInBounds(cfg, start, ops + more);
    if more == [] {
      assert ops + more == ops;
    } else {
      var m := |more| - 1;
      TipMovesSlowly(cfg, start, ops, more[..m]);
      TipStaysInBounds(cfg, start, ops + more[..m]);
      assert ops + more == (ops + more[..m]) + [more[m]];
      AfterAppend(cfg, start, ops + more[..m], more[m]);
      OpMovesTip(cfg, After(cfg, start, ops + more[..m]), more[m]);
    }
  }

  /** The tip after a request that finds new results: one step up below half inclusion, one down above four fifths. */
  function Steered(cfg: RiskConfig, tip: real, included: nat, total: nat): real {
    if 2 * included < total then if tip + 5.0 <= cfg.maxTipSharePct then tip + 5.0 else cfg.maxTipSharePct
    else if 5 * included > 4 * total then if tip - 5.0 >= cfg.minTipSharePct then tip - 5.0 else cfg.minTipSharePct
    else tip
  }

  /** A new manager starts at 90 percent, or at the bound next to it. */
  lemma TipStartsAtNinety(cfg: RiskConfig, start: Time)
    requires ValidTips(cfg)
    ensures After(cfg, start, []).lastTip
         == if cfg.maxTipSharePct < 90.0 then cfg.maxTipSharePct
            else if cfg.minTipSharePct > 90.0 then cfg.minTipSharePct else 90.0
  {
  }

  lemma SteeringOfTip(cfg: RiskConfig, r: Manager, included: nat, total: nat)
    requires ValidTips(cfg) && RingShape(r) && TipHolds(cfg, r) && r.resultIdx > r.lastAdjustedAt
    requires CountTrue(Filled(r)) == included <= total == r.resultCount
    ensures AfterTipShare(cfg, r).lastTip == Steered(cfg, r.lastTip, included, total)
  {
    PercentsComplete(included, total);
  }

  /** A request for the tip is steered by the last hundred results, if any came since the last one. */
  lemma TipFollowsRecentResults(cfg: RiskConfig, start: Time, ops: seq<Op>)
    requires ValidTips(cfg) && Results(ops) != []
    ensures var r, recent := After(cfg, start, ops), Recent(Results(ops));
            After(cfg, start, ops + [TipShare]).lastTip
            == if |Results(ops)| <= r.lastAdjustedAt then r.lastTip
               else Steered(cfg, r.lastTip, CountTrue(recent), |recent|)
  {
    TipStaysInBounds(cfg, start, ops);
    RingIsRecentResults(cfg, start, ops);
    AfterAppend(cfg, start, ops, TipShare);
    var r, recent := After(cfg, start, ops), Recent(Results(ops));
    CountsOfRing(r, Results(ops));
    if r.resultIdx > r.lastAdjustedAt { SteeringOfTip(cfg, r, CountTrue(recent), |recent|); }
  }
}
