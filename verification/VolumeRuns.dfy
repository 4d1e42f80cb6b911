/**
 The daily volume while one consumer approves and then records trades and other parties
 use the same risk manager in between.
 */
module VolumeRuns {
  import opened Risk
  import opened RiskRuns

  /** The consumer of the arbitrage stream: between trades, or holding an approval for one. */
  datatype Consumer = Idle | Approved(valueWei: nat)

  datatype System = System(manager: Manager, consumer: Consumer)

  datatype Action =
    | Check(c: Candidate)             // the consumer's preflight check
    | Submit(now: Time)               // it records the approved trade
    | Drop                            // it gives the approved trade up
    | Poll(pnlWei: int, now: Time)    // the inclusion poller records profit without volume
    | Other(op: Op)                   // reverts, pauses, resumes, resets, results, tips

  /** The value of a trade is a number of wei, so it is not negative. */
  predicate Enabled(s: System, a: Action) {
    match a
    case Check(c) => s.consumer.Idle? && c.valueWei >= 0
    case Submit(_) => s.consumer.Approved?
    case Drop => s.consumer.Approved?
    case Poll(_, _) => true
    case Other(op) => !op.Trade?
  }

  function Act(cfg: RiskConfig, s: System, a: Action): (s': System)
    requires RingShape(s.manager) && Enabled(s, a)
    ensures RingShape(s'.manager)
  {
    match a
    case Check(c) => if Preflight(cfg, s.manager, c).None? then s.(consumer := Approved(c.valueWei)) else s
    case Submit(now) => System(AfterTrade(cfg, s.manager, s.consumer.valueWei, 0, now), Idle)
    case Drop => s.(consumer := Idle)
    case Poll(pnl, now) => s.(manager := AfterTrade(cfg, s.manager, 0, pnl, now))
    case Other(op) => s.(manager := Apply(cfg, s.manager, op))
  }

  ghost predicate IsRun(cfg: RiskConfig, s: System, acts: seq<Action>)
    requires RingShape(s.manager)
    decreases |acts|
  {
    acts == [] || (Enabled(s, acts[0]) && IsRun(cfg, Act(cfg, s, acts[0]), acts[1..]))
  }

  ghost function End(cfg: RiskConfig, s: System, acts: seq<Action>): System
    requires RingShape(s.manager) && IsRun(cfg, s, acts)
    decreases |acts|
  {
    if acts == [] then s else End(cfg, Act(cfg, s, acts[0]), acts[1..])
  }

  /** The volume is within the limit, and stays so if the approved trade is recorded. */
  ghost predicate WithinLimit(cfg: RiskConfig, s: System) {
    && s.manager.volume >= 0
    && WeiToETH(s.manager.volume) <= cfg.maxDailyVolumeETH
    && (s.consumer.Approved? ==> WeiToETH(s.manager.volume + s.consumer.valueWei) <= cfg.maxDailyVolumeETH)
  }

  lemma ActKeepsLimit(cfg: RiskConfig, s: System, a: Action)
    requires RingShape(s.manager) && Enabled(s, a) && WithinLimit(cfg, s)
    ensures WithinLimit(cfg, Act(cfg, s, a))
  {
  }

  /** In every interleaving the recorded daily volume never exceeds the limit. */
  lemma {:induction false} VolumeStaysWithinLimit(cfg: RiskConfig, s: System, acts: seq<Action>)
    requires RingShape(s.manager) && IsRun(cfg, s, acts) && WithinLimit(cfg, s)
    ensures WithinLimit(cfg, End(cfg, s, acts))
    decreases |acts|
  {
    if acts != [] {
      ActKeepsLimit(cfg, s, acts[0]);
      VolumeStaysWithinLimit(cfg, Act(cfg, s, acts[0]), acts[1..]);
    }
  }

  lemma VolumeNeverExceedsLimit(cfg: RiskConfig, start: Time, acts: seq<Action>)
    requires cfg.maxDailyVolumeETH >= 0.0 && IsRun(cfg, System(Initial(cfg, start), Idle), acts)
    ensures End(cfg, System(Initial(cfg, start), Idle), acts).manager.volume as real
         <= cfg.maxDailyVolumeETH * 1000000000000000000.0
  {
    VolumeStaysWithinLimit(cfg, System(Initial(cfg, start), Idle), acts);
  }

  /** The values of the trades that are submitted during a run. */
  ghost function Submitted(cfg: RiskConfig, s: System, acts: seq<Action>): int
    requires RingShape(s.manager) && IsRun(cfg, s, acts)
    decreases |acts|
  {
    if acts == [] then 0
    else (if acts[0].Submit? then s.consumer.valueWei else 0) + Submitted(cfg, Act(cfg, s, acts[0]), acts[1..])
  }

  /** No action of the run starts a new day. */
  ghost predicate SameDay(s: System, acts: seq<Action>) {
    forall i | 0 <= i < |acts| ::
      && !(acts[i].Other? && acts[i].op.Reset?)
      && (acts[i].Submit? || acts[i].Poll? ==> acts[i].now <= s.manager.resetTime)
  }

  lemma ActAddsSubmitted(cfg: RiskConfig, s: System, a: Action)
    requires RingShape(s.manager) && Enabled(s, a) && SameDay(s, [a])
    ensures var s' := Act(cfg, s, a);
            && s'.manager.volume == s.manager.volume + (if a.Submit? then s.consumer.valueWei else 0)
            && s'.manager.resetTime == s.manager.resetTime
  {
    assert SameDay(s, [a]) && [a][0] == a;
  }

  /** Within a day the volume grows by exactly the values of the trades that were submitted. */
  lemma {:induction false} VolumeIsSubmitted(cfg: RiskConfig, s: System, acts: seq<Action>)
    requires RingShape(s.manager) && IsRun(cfg, s, acts) && SameDay(s, acts)
    ensures End(cfg, s, acts).manager.volume == s.manager.volume + Submitted(cfg, s, acts)
    decreases |acts|
  {
    if acts != [] {
      ActAddsSubmitted(cfg, s, acts[0]);
      VolumeIsSubmitted(cfg, Act(cfg, s, acts[0]), acts[1..]);
    }
  }
}
