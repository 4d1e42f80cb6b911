/**
 Whole runs of the risk manager: what every reachable state satisfies, and how the
 bounded windows it keeps relate to the full history.
 */
module RiskRuns {
  import opened Wrappers
  import opened Risk

  /** The operations of the public interface that change the manager. */
  datatype Op =
    | Trade(volumeWei: int, pnlWei: int, now: Time)
    | Revert(kind: string, now: Time)
    | Pause
    | Resume
    | Reset(now: Time)
    | Result(included: bool)
    | TipShare
    | SetMinProfit(eth: real)

  function Apply(cfg: RiskConfig, r: Manager, op: Op): (r': Manager)
    requires RingShape(r)
    ensures RingShape(r')
  {
    match op
    case Trade(v, p, now) => AfterTrade(cfg, r, v, p, now)
    case Revert(kind, now) => AfterRevert(cfg, r, kind, now)
    case Pause => AfterPause(r)
    case Resume => AfterResume(r)
    case Reset(now) => AfterReset(r, now)
    case Result(included) => AfterResult(r, included)
    case TipShare => AfterTipShare(cfg, r)
    case SetMinProfit(eth) => r.(minProfitETH := eth)
  }

  /** The state after `ops`, starting from a new manager. */
  function After(cfg: RiskConfig, start: Time, ops: seq<Op>): (r: Manager)
    ensures RingShape(r)
  {
    if ops == [] then Initial(cfg, start) else Apply(cfg, After(cfg, start, ops[..|ops| - 1]), ops[|ops| - 1])
  }

  // ----- the loss breaker

  ghost predicate LossHalts(cfg: RiskConfig, r: Manager) {
    LossExceeded(cfg, r.pnl) ==> r.state.Halted?
  }

  /** In every reachable state a recorded loss above the limit means Halted. */
  lemma {:induction false} LossAlwaysHalts(cfg: RiskConfig, start: Time, ops: seq<Op>)
    requires cfg.dailyLossHaltETH >= 0.0
    ensures LossHalts(cfg, After(cfg, start, ops))
  {
    if ops != [] { LossAlwaysHalts(cfg, start, ops[..|ops| - 1]); }
  }

  ghost predicate HaltsAfter(cfg: RiskConfig, start: Time, ops: seq<Op>) {
    LossHalts(cfg, After(cfg, start, ops))
  }

  /** The limit must not be negative for that: otherwise a new manager already breaks it. */
  lemma LossHaltsFromStart(cfg: RiskConfig, start: Time)
    ensures (forall ops :: HaltsAfter(cfg, start, ops)) <==> cfg.dailyLossHaltETH >= 0.0
  {
    if cfg.dailyLossHaltETH >= 0.0 {
      forall ops ensures HaltsAfter(cfg, start, ops) { LossAlwaysHalts(cfg, start, ops); }
    } else {
      assert !HaltsAfter(cfg, start, []);
    }
  }

  /** Once halted, a run stays halted until a reset. */
  lemma {:induction false} HaltedUntilReset(cfg: RiskConfig, start: Time, ops: seq<Op>, more: seq<Op>)
    requires After(cfg, start, ops).state.Halted? && forall i | 0 <= i < |more| :: !more[i].Reset?
    ensures After(cfg, start, ops + more).state.Halted?
  {
    if more == [] {
      assert ops + more == ops;
    } else {
      var m := |more| - 1;
      HaltedUntilReset(cfg, start, ops, more[..m]);
      assert (ops + more)[..|ops + more| - 1] == ops + more[..m];
    }
  }

  /** So an approval means that the recorded loss is within the limit. */
  lemma ApprovalMeansLossWithinLimit(cfg: RiskConfig, start: Time, ops: seq<Op>, c: Candidate)
    requires cfg.dailyLossHaltETH >= 0.0 && Preflight(cfg, After(cfg, start, ops), c).None?
    ensures (-After(cfg, start, ops).pnl) as real <= cfg.dailyLossHaltETH * 1000000000000000000.0
  {
    LossAlwaysHalts(cfg, start, ops);
  }

  // ----- states and thresholds

  /** What each operation makes of the system state. */
  lemma StateStep(cfg: RiskConfig, r: Manager, op: Op)
    requires RingShape(r)
    ensures var r' := Apply(cfg, r, op);
            match op
            case Trade(_, _, _) =>
              r'.state == if (-r'.pnl) as real > cfg.dailyLossHaltETH * 1000000000000000000.0 then Halted else r.state
            case Revert(_, _) =>
              r'.state == if |r'.bugReverts| < cfg.consecutiveRevertsPause || r.state.Halted? then r.state else Paused
            case Pause => r'.state == if r.state.Halted? then Halted else Paused
            case Resume => r'.state == if r.state.Halted? then Halted else Running
            case Reset(_) => r'.state == if r.state.Halted? then Running else r.state
            case _ => r'.state == r.state
  {
  }

  /** Only setting the profit threshold changes it. */
  lemma ThresholdStep(cfg: RiskConfig, r: Manager, op: Op)
    requires RingShape(r)
    ensures Apply(cfg, r, op).minProfitETH == if op.SetMinProfit? then op.eth else r.minProfitETH
  {
  }

  /** Once paused, a run approves nothing until it is resumed or reset. */
  lemma {:induction false} PausedUntilResumed(
    cfg: RiskConfig, start: Time, ops: seq<Op>, more: seq<Op>, c: Candidate)
    requires forall i | 0 <= i < |more| :: !more[i].Resume? && !more[i].Reset?
    ensures Preflight(cfg, After(cfg, start, ops + [Pause] + more), c) == Some(NotRunning)
    decreases |more|
  {
    var all := ops + [Pause] + more;
    if more == [] {
      assert all == ops + [Pause] && all[..|ops|] == ops;
      StateStep(cfg, After(cfg, start, ops), Pause);
    } else {
      var m := |more| - 1;
      PausedUntilResumed(cfg, start, ops, more[..m], c);
      assert all[..|all| - 1] == ops + [Pause] + more[..m] && all[|all| - 1] == more[m];
      StateStep(cfg, After(cfg, start, ops + [Pause] + more[..m]), more[m]);
    }
  }

  // ----- the daily counters

  function Traded(ops: seq<Op>): int {
    if ops == [] then 0
    else
      var before := Traded(ops[..|ops| - 1]);
      if ops[|ops| - 1].Trade? then before + ops[|ops| - 1].volumeWei else before
  }

  function Earned(ops: seq<Op>): int {
    if ops == [] then 0
    else
      var before := Earned(ops[..|ops| - 1]);
      if ops[|ops| - 1].Trade? then before + ops[|ops| - 1].pnlWei else before
  }

  /** The operation starts a new day: a trade after the reset time, or a reset from Halted. */
  predicate StartsDay(r: Manager, op: Op) {
    (op.Trade? && op.now > r.resetTime) || (op.Reset? && r.state.Halted?)
  }

  /** Where the current day begins: at the trade that started it, or behind the reset. */
  function DayStart(cfg: RiskConfig, start: Time, ops: seq<Op>): (k: nat)
    ensures k <= |ops|
  {
    if ops == [] then 0
    else
      var m := |ops| - 1;
      if StartsDay(After(cfg, start, ops[..m]), ops[m]) then if ops[m].Trade? then m else |ops|
      else DayStart(cfg, start, ops[..m])
  }

  lemma SumsGrow(ops: seq<Op>, k: nat)
    requires k < |ops|
    ensures var m := |ops| - 1;
            && Traded(ops[k..]) == Traded(ops[..m][k..]) + (if ops[m].Trade? then ops[m].volumeWei else 0)
            && Earned(ops[k..]) == Earned(ops[..m][k..]) + (if ops[m].Trade? then ops[m].pnlWei else 0)
  {
    var m := |ops| - 1;
    assert ops[k..][..m - k] == ops[..m][k..] && ops[k..][m - k] == ops[m];
  }

  /** A trade adds to the counters, from zero on a new day; it halts exactly when the loss exceeds the limit. */
  lemma CountersStep(cfg: RiskConfig, r: Manager, op: Op)
    requires RingShape(r)
    ensures var r' := Apply(cfg, r, op);
            && r'.volume == (if StartsDay(r, op) then 0 else r.volume) + (if op.Trade? then op.volumeWei else 0)
            && r'.pnl == (if StartsDay(r, op) then 0 else r.pnl) + (if op.Trade? then op.pnlWei else 0)
            && (op.Trade? ==> r'.state == if LossExceeded(cfg, r'.pnl) then Halted else r.state)
  {
  }

  /** The counters are the sums over the trades of the current day. */
  lemma {:induction false} CountersAreOfToday(cfg: RiskConfig, start: Time, ops: seq<Op>)
    ensures var today := ops[DayStart(cfg, start, ops)..];
            After(cfg, start, ops).volume == Traded(today) && After(cfg, start, ops).pnl == Earned(today)
  {
    if ops != [] {
      var m, k := |ops| - 1, DayStart(cfg, start, ops);
      CountersAreOfToday(cfg, start, ops[..m]);
      CountersStep(cfg, After(cfg, start, ops[..m]), ops[m]);
      if k < |ops| { SumsGrow(ops, k); }
      if k == m { assert ops[..m][m..] == []; }
    }
  }

  /** The time of the last trade or reset, or else `start`. */
  function LastTime(start: Time, ops: seq<Op>): Time {
    if ops == [] then start
    else
      var op := ops[|ops| - 1];
      if op.Trade? || op.Reset? then op.now else LastTime(start, ops[..|ops| - 1])
  }

  /** Trades and resets come in the order of their times, none before `start`. */
  ghost predicate InOrder(start: Time, ops: seq<Op>) {
    ops == [] || (InOrder(start, ops[..|ops| - 1]) && LastTime(start, ops[..|ops| - 1]) <= LastTime(start, ops))
  }

  /** The time falls into the day that ends at `reset`, a midnight. */
  predicate InDay(reset: Time, t: Time) {
    reset % 86_400_000_000_000 == 0 && reset - 86_400_000_000_000 <= t <= reset
  }

  lemma ResetTimeStep(cfg: RiskConfig, r: Manager, op: Op)
    requires RingShape(r)
    ensures Apply(cfg, r, op).resetTime == if StartsDay(r, op) then NextMidnight(op.now) else r.resetTime
  {
  }

  /** The last trade or reset is not before the day that ends at the reset time. */
  lemma {:induction false} DayHasBegun(cfg: RiskConfig, start: Time, ops: seq<Op>)
    requires InOrder(start, ops)
    ensures var reset := After(cfg, start, ops).resetTime;
            reset % DAY == 0 && reset - DAY <= LastTime(start, ops)
  {
    if ops != [] {
      DayHasBegun(cfg, start, ops[..|ops| - 1]);
      ResetTimeStep(cfg, After(cfg, start, ops[..|ops| - 1]), ops[|ops| - 1]);
    }
  }

  /** The trades that the counters sum up all fall into the one day that ends at the reset time. */
  lemma {:induction false} TodayIsOneDay(cfg: RiskConfig, start: Time, ops: seq<Op>, i: nat)
    requires InOrder(start, ops) && DayStart(cfg, start, ops) <= i < |ops| && ops[i].Trade?
    ensures InDay(After(cfg, start, ops).resetTime, ops[i].now)
  {
    var m := |ops| - 1;
    DayHasBegun(cfg, start, ops);
    ResetTimeStep(cfg, After(cfg, start, ops[..m]), ops[m]);
    if i < m {
      TodayIsOneDay(cfg, start, ops[..m], i);
    }
  }

  // ----- the revert windows

  /** The times of all reverts of the run that are competitive, or of all that are not. */
  function RevertTimes(ops: seq<Op>, competitive: bool): seq<Time> {
    if ops == [] then []
    else
      var op := ops[|ops| - 1];
      var before := RevertTimes(ops[..|ops| - 1], competitive);
      if op.Revert? && (op.kind == "competitive") == competitive then before + [op.now] else before
  }

  /** The time of the last revert of either kind. */
  function LastRevert(ops: seq<Op>): Option<Time> {
    if ops == [] then None
    else if ops[|ops| - 1].Revert? then Some(ops[|ops| - 1].now)
    else LastRevert(ops[..|ops| - 1])
  }

  /** The clock did not go back: each revert is recorded no earlier than the one before it. */
  ghost predicate ClockHolds(ops: seq<Op>) {
    if ops == [] then true
    else
      var before, op := ops[..|ops| - 1], ops[|ops| - 1];
      ClockHolds(before) && (op.Revert? && LastRevert(before).Some? ==> LastRevert(before).value <= op.now)
  }

  function WindowAt(ts: seq<Time>, last: Option<Time>, window: Time): seq<Time> {
    if last.None? then [] else KeepAfter(ts, last.value - window)
  }

  /** What a list of revert times should be after `ops`: all of them, cut to the window that ends at the last one. */
  function Window(ops: seq<Op>, competitive: bool, window: Time): seq<Time> {
    WindowAt(RevertTimes(ops, competitive), LastRevert(ops), window)
  }

  lemma KeepAfterAppend(ts: seq<Time>, t: Time, cutoff: Time)
    ensures KeepAfter(ts + [t], cutoff) == if t > cutoff then KeepAfter(ts, cutoff) + [t] else KeepAfter(ts, cutoff)
  {
  }

  lemma {:induction false} KeepAfterTwice(ts: seq<Time>, c1: Time, c2: Time)
    requires c1 <= c2
    ensures KeepAfter(KeepAfter(ts, c1), c2) == KeepAfter(ts, c2)
  {
    if ts != [] {
      var m := |ts| - 1;
      KeepAfterTwice(ts[..m], c1, c2);
      KeepAfterAppend(KeepAfter(ts[..m], c1), ts[m], c2);
    }
  }

  /** Pruning the window of the past, and adding the present, gives the window of both. */
  lemma PrunedIsWindow(ts: seq<Time>, last: Option<Time>, window: Time, now: Time, add: bool)
    requires window > 0 && if last.Some? then last.value <= now else ts == []
    ensures Pruned(WindowAt(ts, last, window), now, window, add)
         == WindowAt(if add then ts + [now] else ts, Some(now), window)
  {
    var kept := KeepAfter(ts, now - window);
    assert KeepAfter(WindowAt(ts, last, window), now - window) == kept by {
      if last.Some? { KeepAfterTwice(ts, last.value - window, now - window); }
    }
    assert add ==> KeepAfter(ts + [now], now - window) == kept + [now] by { KeepAfterAppend(ts, now, now - window); }
  }

  lemma {:induction false} NoRevertNoTimes(ops: seq<Op>, competitive: bool)
    ensures LastRevert(ops).None? ==> RevertTimes(ops, competitive) == []
  {
    if ops != [] { NoRevertNoTimes(ops[..|ops| - 1], competitive); }
  }

  lemma AppendRevert(ops: seq<Op>, kind: string, now: Time, competitive: bool)
    ensures LastRevert(ops + [Revert(kind, now)]) == Some(now)
    ensures var ts := RevertTimes(ops, competitive);
            RevertTimes(ops + [Revert(kind, now)], competitive)
            == if (kind == "competitive") == competitive then ts + [now] else ts
    ensures ClockHolds(ops + [Revert(kind, now)]) ==>
              ClockHolds(ops) && (LastRevert(ops).Some? ==> LastRevert(ops).value <= now)
  {
  }

  lemma RevertKeepsWindow(window: Time, ops: seq<Op>, kind: string, now: Time, competitive: bool)
    requires window > 0 && ClockHolds(ops + [Revert(kind, now)])
    ensures Pruned(Window(ops, competitive, window), now, window, (kind == "competitive") == competitive)
         == Window(ops + [Revert(kind, now)], competitive, window)
         == KeepAfter(RevertTimes(ops + [Revert(kind, now)], competitive), now - window)
  {
    AppendRevert(ops, kind, now, competitive);
    NoRevertNoTimes(ops, competitive);
    PrunedIsWindow(RevertTimes(ops, competitive), LastRevert(ops), window, now, (kind == "competitive") == competitive);
  }

  lemma AfterAppend(cfg: RiskConfig, start: Time, ops: seq<Op>, op: Op)
    ensures After(cfg, start, ops + [op]) == Apply(cfg, After(cfg, start, ops), op)
  {
  }

  /** Both lists are the windows of their histories. */
  ghost predicate ListsHold(cfg: RiskConfig, r: Manager, ops: seq<Op>) {
    && r.bugReverts == Window(ops, false, RevertWindow(cfg))
    && r.compReverts == Window(ops, true, RevertWindow(cfg))
  }

  lemma OtherOpKeepsReverts(cfg: RiskConfig, r: Manager, op: Op)
    requires RingShape(r) && !op.Revert?
    ensures Apply(cfg, r, op).bugReverts == r.bugReverts && Apply(cfg, r, op).compReverts == r.compReverts
  {
  }

  lemma OpKeepsLists(cfg: RiskConfig, r: Manager, ops: seq<Op>, op: Op)
    requires cfg.revertWindowMinutes > 0 && ClockHolds(ops + [op]) && RingShape(r) && ListsHold(cfg, r, ops)
    ensures ListsHold(cfg, Apply(cfg, r, op), ops + [op])
  {
    if op.Revert? {
      RevertKeepsWindow(RevertWindow(cfg), ops, op.kind, op.now, false);
      RevertKeepsWindow(RevertWindow(cfg), ops, op.kind, op.now, true);
    } else {
      OtherOpKeepsReverts(cfg, r, op);
      assert (ops + [op])[..|ops|] == ops;
    }
  }

  lemma ListsStep(cfg: RiskConfig, start: Time, ops: seq<Op>, op: Op)
    requires cfg.revertWindowMinutes > 0 && ClockHolds(ops + [op]) && ListsHold(cfg, After(cfg, start, ops), ops)
    ensures ListsHold(cfg, After(cfg, start, ops + [op]), ops + [op])
  {
    AfterAppend(cfg, start, ops, op);
    OpKeepsLists(cfg, After(cfg, start, ops), ops, op);
  }

  /** The pruned lists are the full histories of reverts, cut to the window that ends at the last revert. */
  lemma {:induction false} RevertListsAreWindows(cfg: RiskConfig, start: Time, ops: seq<Op>)
    requires cfg.revertWindowMinutes > 0 && ClockHolds(ops)
    ensures ListsHold(cfg, After(cfg, start, ops), ops)
  {
    if ops != [] {
      var m := |ops| - 1;
      RevertListsAreWindows(cfg, start, ops[..m]);
      assert ops == ops[..m] + [ops[m]];
      ListsStep(cfg, start, ops[..m], ops[m]);
    }
  }

  lemma ClockHeld(ops: seq<Op>, op: Op)
    requires ClockHolds(ops + [op])
    ensures ClockHolds(ops)
  {
    assert (ops + [op])[..|ops|] == ops;
  }

  lemma BugListAfterRevert(cfg: RiskConfig, start: Time, ops: seq<Op>, kind: string, now: Time)
    requires cfg.revertWindowMinutes > 0 && ClockHolds(ops + [Revert(kind, now)])
    ensures Pruned(After(cfg, start, ops).bugReverts, now, RevertWindow(cfg), (kind == "competitive") == false)
         == KeepAfter(RevertTimes(ops + [Revert(kind, now)], false), now - RevertWindow(cfg))
  {
    ClockHeld(ops, Revert(kind, now));
    RevertListsAreWindows(cfg, start, ops);
    RevertKeepsWindow(RevertWindow(cfg), ops, kind, now, false);
  }

  lemma StateAfterRevert(cfg: RiskConfig, r: Manager, kind: string, now: Time)
    ensures var kept := |Pruned(r.bugReverts, now, RevertWindow(cfg), (kind == "competitive") == false)|;
            AfterRevert(cfg, r, kind, now).state
            == if kept < cfg.consecutiveRevertsPause then r.state else if r.state.Halted? then Halted else Paused
  {
  }

  /** How many bug reverts of the run came later than `minutes` before `now`. */
  ghost function BugsWithin(ops: seq<Op>, minutes: int, now: Time): nat {
    |KeepAfter(RevertTimes(ops, false), now - minutes * 60_000_000_000)|
  }

  lemma WindowIsInMinutes(cfg: RiskConfig, ops: seq<Op>, now: Time)
    ensures |KeepAfter(RevertTimes(ops, false), now - RevertWindow(cfg))|
         == BugsWithin(ops, cfg.revertWindowMinutes, now)
  {
  }

  lemma CompetitiveIsNoBug(ops: seq<Op>, minutes: int, now: Time)
    ensures BugsWithin(ops + [Revert("competitive", now)], minutes, now) == BugsWithin(ops, minutes, now)
  {
    AppendRevert(ops, "competitive", now, false);
  }

  /**
   What recording a revert does to the system state: it trips exactly when the bug reverts
   of the window, this one included, reach the threshold.
   */
  lemma RevertTripsOnThreshold(cfg: RiskConfig, start: Time, ops: seq<Op>, kind: string, now: Time)
    requires cfg.revertWindowMinutes > 0 && ClockHolds(ops + [Revert(kind, now)])
    ensures var before := After(cfg, start, ops).state;
            var after := After(cfg, start, ops + [Revert(kind, now)]).state;
            var bugs := BugsWithin(ops + [Revert(kind, now)], cfg.revertWindowMinutes, now);
            if bugs >= cfg.consecutiveRevertsPause then after == (if before.Halted? then Halted else Paused)
            else after == before
  {
    BugListAfterRevert(cfg, start, ops, kind, now);
    WindowIsInMinutes(cfg, ops + [Revert(kind, now)], now);
    AfterAppend(cfg, start, ops, Revert(kind, now));
    StateAfterRevert(cfg, After(cfg, start, ops), kind, now);
  }

  /** Competitive reverts alone never trip the breaker. */
  lemma CompetitiveRevertsNeverTrip(cfg: RiskConfig, start: Time, ops: seq<Op>, now: Time)
    requires cfg.revertWindowMinutes > 0 && cfg.consecutiveRevertsPause > 0
    requires ClockHolds(ops + [Revert("competitive", now)]) && RevertTimes(ops, false) == []
    ensures After(cfg, start, ops + [Revert("competitive", now)]).state == After(cfg, start, ops).state
  {
    CompetitiveIsNoBug(ops, cfg.revertWindowMinutes, now);
    assert BugsWithin(ops, cfg.revertWindowMinutes, now) == 0;
    RevertTripsOnThreshold(cfg, start, ops, "competitive", now);
  }

  /** A competitive revert changes the state exactly when bug reverts still fill the window and the system runs. */
  lemma CompetitiveRevertTripsIff(cfg: RiskConfig, start: Time, ops: seq<Op>, now: Time)
    requires cfg.revertWindowMinutes > 0 && ClockHolds(ops + [Revert("competitive", now)])
    ensures var before := After(cfg, start, ops).state;
            After(cfg, start, ops + [Revert("competitive", now)]).state != before
            <==> && BugsWithin(ops, cfg.revertWindowMinutes, now) >= cfg.consecutiveRevertsPause
                 && (before.Running? || before.Degraded?)
  {
    CompetitiveIsNoBug(ops, cfg.revertWindowMinutes, now);
    RevertTripsOnThreshold(cfg, start, ops, "competitive", now);
  }

  /** And it can: a bug revert trips, the operator resumes, and a competitive revert trips again. */
  lemma CompetitiveRevertCanTrip(cfg: RiskConfig, start: Time, now: Time)
    requires cfg.revertWindowMinutes > 0 && cfg.consecutiveRevertsPause == 1
    ensures var ops := [Revert("bug", now), Resume];
            && After(cfg, start, ops).state == Running
            && After(cfg, start, ops + [Revert("competitive", now)]).state == Paused
  {
    var bug, ops := [Revert("bug", now)], [Revert("bug", now), Resume];
    AfterAppend(cfg, start, [], Revert("bug", now));
    assert [] + bug == bug && bug + [Resume] == ops;
    AfterAppend(cfg, start, bug, Resume);
    AfterAppend(cfg, start, ops, Revert("competitive", now));
    assert After(cfg, start, bug).bugReverts == [now];
    assert [now][..0] == [];
  }

  // ----- bundle results

  /** The history of results after one more operation. */
  function Logged(h: seq<bool>, op: Op): seq<bool> {
    if op.Result? then h + [op.included] else h
  }

  /** All bundle results of the run. */
  function Results(ops: seq<Op>): seq<bool> {
    if ops == [] then [] else Logged(Results(ops[..|ops| - 1]), ops[|ops| - 1])
  }

  /** The last results, at most as many as the ring buffer holds. */
  function Recent(h: seq<bool>): seq<bool> {
    if |h| <= 100 then h else h[|h| - 100..]
  }

  /** Two results less than a window apart are in different slots; a window apart, in the same one. */
  lemma SlotsDiffer(i: nat, j: nat)
    requires i < j <= i + WINDOW_SIZE
    ensures Slot(i) == Slot(j) <==> j == i + WINDOW_SIZE
  {
  }

  /** Each recent result of the history `h` is in the slot it was written to. */
  ghost predicate SlotsHold(results: seq<bool>, h: seq<bool>)
    requires |results| == WINDOW_SIZE
  {
    forall j | 0 <= j < |h| && |h| - WINDOW_SIZE <= j :: results[Slot(j)] == h[j]
  }

  lemma SlotsStillHold(results: seq<bool>, h: seq<bool>, b: bool)
    requires |results| == WINDOW_SIZE && SlotsHold(results, h)
    ensures SlotsHold(results[Slot(|h|) := b], h + [b])
  {
  }

  lemma {:induction false} CountTrueUpdate(s: seq<bool>, i: nat, b: bool)
    requires i < |s|
    ensures CountTrue(s[i := b]) + (if s[i] then 1 else 0) == CountTrue(s) + if b then 1 else 0
  {
    var m := |s| - 1;
    if i < m {
      CountTrueUpdate(s[..m], i, b);
      assert s[i := b][..m] == s[..m][i := b];
    } else {
      assert s[i := b][..m] == s[..m];
    }
  }

  lemma {:induction false} CountTrueTail(s: seq<bool>)
    requires s != []
    ensures CountTrue(s) == CountTrue(s[1..]) + if s[0] then 1 else 0
  {
    if |s| > 1 {
      var m := |s| - 1;
      CountTrueTail(s[..m]);
      assert s[..m][1..] == s[1..][..m - 1];
    }
  }

  lemma CountTrueAppend(s: seq<bool>, b: bool)
    ensures CountTrue(s + [b]) == CountTrue(s) + if b then 1 else 0
  {
  }

  /** On a full ring the slot written next holds the oldest recent result. */
  lemma OldestIsReplaced(results: seq<bool>, h: seq<bool>)
    requires |results| == WINDOW_SIZE <= |h| && SlotsHold(results, h)
    ensures |Recent(h)| == WINDOW_SIZE && results[Slot(|h|)] == Recent(h)[0]
  {
    SlotsDiffer(|h| - WINDOW_SIZE, |h|);
  }

  lemma RecentMovesOn(h: seq<bool>, b: bool)
    requires |h| >= WINDOW_SIZE
    ensures Recent(h) != []
    ensures CountTrue(Recent(h + [b])) + (if Recent(h)[0] then 1 else 0) == CountTrue(Recent(h)) + if b then 1 else 0
  {
    var recent := Recent(h);
    assert Recent(h + [b]) == recent[1..] + [b];
    CountTrueTail(recent);
    CountTrueAppend(recent[1..], b);
  }

  /** On a full ring a new result is counted in place of the oldest one. */
  lemma FullRingCount(results: seq<bool>, h: seq<bool>, b: bool)
    requires |results| == WINDOW_SIZE <= |h| && SlotsHold(results, h)
    requires CountTrue(results) == CountTrue(Recent(h))
    ensures CountTrue(results[Slot(|h|) := b]) == CountTrue(Recent(h + [b]))
  {
    OldestIsReplaced(results, h);
    CountTrueUpdate(results, Slot(|h|), b);
    RecentMovesOn(h, b);
  }

  /** The slots filled after `n` results. */
  function Slots(results: seq<bool>, n: nat): seq<bool>
    requires |results| == WINDOW_SIZE
  {
    if n < WINDOW_SIZE then results[..n] else results
  }

  /** The ring buffer, seen without the manager around it, holds the history `h`. */
  ghost predicate RingIs(results: seq<bool>, h: seq<bool>)
    requires |results| == WINDOW_SIZE
  {
    SlotsHold(results, h) && CountTrue(Slots(results, |h|)) == CountTrue(Recent(h))
  }

  lemma FillingRingCount(results: seq<bool>, h: seq<bool>, b: bool)
    requires |results| == WINDOW_SIZE > |h| && CountTrue(results[..|h|]) == CountTrue(h)
    ensures CountTrue(Slots(results[Slot(|h|) := b], |h| + 1)) == CountTrue(h + [b])
  {
    var n := |h|;
    assert Slot(n) == n;
    var results' := results[n := b];
    assert Slots(results', n + 1) == results'[..n + 1] == results[..n] + [b];
    CountTrueAppend(results[..n], b);
    CountTrueAppend(h, b);
  }

  lemma RingStep(results: seq<bool>, h: seq<bool>, b: bool)
    requires |results| == WINDOW_SIZE && RingIs(results, h)
    ensures RingIs(results[Slot(|h|) := b], h + [b])
  {
    SlotsStillHold(results, h, b);
    if |h| < WINDOW_SIZE {
      FillingRingCount(results, h, b);
      assert Recent(h + [b]) == h + [b];
    } else {
      FullRingCount(results, h, b);
    }
  }

  ghost predicate RingHolds(r: Manager, h: seq<bool>) {
    RingShape(r) && r.resultIdx == |h| && RingIs(r.results, h)
  }

  lemma ResultKeepsRing(r: Manager, h: seq<bool>, b: bool)
    requires RingHolds(r, h)
    ensures RingHolds(AfterResult(r, b), h + [b])
  {
    RingStep(r.results, h, b);
  }

  lemma OtherOpKeepsRing(cfg: RiskConfig, r: Manager, op: Op)
    requires RingShape(r) && !op.Result?
    ensures var r' := Apply(cfg, r, op);
            r'.results == r.results && r'.resultIdx == r.resultIdx && r'.resultCount == r.resultCount
  {
  }

  lemma SameRing(r: Manager, r': Manager, h: seq<bool>)
    requires RingHolds(r, h) && RingShape(r') && r'.results == r.results && r'.resultIdx == r.resultIdx
    ensures RingHolds(r', h)
  {
  }

  lemma OpKeepsRing(cfg: RiskConfig, r: Manager, h: seq<bool>, op: Op)
    requires RingHolds(r, h)
    ensures RingHolds(Apply(cfg, r, op), Logged(h, op))
  {
    var r' := Apply(cfg, r, op);
    if op.Result? {
      assert r' == AfterResult(r, op.included);
      ResultKeepsRing(r, h, op.included);
    } else {
      OtherOpKeepsRing(cfg, r, op);
      SameRing(r, r', h);
    }
  }

  lemma {:induction false} RingIsRecentResults(cfg: RiskConfig, start: Time, ops: seq<Op>)
    ensures RingHolds(After(cfg, start, ops), Results(ops))
  {
    if ops == [] {
      assert Slots(Initial(cfg, start).results, 0) == [];
    } else {
      var m := |ops| - 1;
      RingIsRecentResults(cfg, start, ops[..m]);
      OpKeepsRing(cfg, After(cfg, start, ops[..m]), Results(ops[..m]), ops[m]);
    }
  }

  lemma PercentScales(part: nat, total: nat, t: real)
    requires total > 0 && t == total as real
    ensures Percent(part, total) * t == part as real * 100.0
  {
  }

  lemma ScaledOrder(p: real, c: real, t: real, x: real, ct: real)
    requires t > 0.0 && x == p * t && ct == c * t
    ensures (p < c <==> x < ct) && (p > c <==> x > ct)
  {
  }

  /** Percentages of complementary parts add up; the thresholds of the tip are ratios of counts. */
  lemma PercentsComplete(part: nat, total: nat)
    requires part <= total && total > 0
    ensures Percent(part, total) + Percent(total - part, total) == 100.0
    ensures 0.0 <= Percent(part, total) <= 100.0
    ensures Percent(part, total) < 50.0 <==> 2 * part < total
    ensures Percent(part, total) > 80.0 <==> 5 * part > 4 * total
  {
    var p, q, t := Percent(part, total), Percent(total - part, total), total as real;
    PercentScales(part, total, t);
    PercentScales(total - part, total, t);
    var x, y := part as real * 100.0, (total - part) as real * 100.0;
    ScaledOrder(p, 0.0, t, x, 0.0);
    ScaledOrder(p, 100.0, t, x, 100.0 * t);
    ScaledOrder(p, 50.0, t, x, 50.0 * t);
    ScaledOrder(p, 80.0, t, x, 80.0 * t);
    assert (p + q) * t == x + y;
    ScaledOrder(p + q, 100.0, t, x + y, 100.0 * t);
  }

  lemma CountsOfRing(r: Manager, h: seq<bool>)
    requires RingHolds(r, h) && h != []
    ensures r.resultCount == |Recent(h)| == |Filled(r)| > 0
    ensures CountTrue(Filled(r)) == CountTrue(Recent(h)) <= |Recent(h)|
  {
    assert Filled(r) == Slots(r.results, r.resultIdx);
    CountTrueIsBounded(Filled(r));
  }

  lemma RatesOfRing(r: Manager, included: nat, total: nat)
    requires RingShape(r) && r.resultCount == |Filled(r)| == total > 0 && CountTrue(Filled(r)) == included <= total
    ensures WinRate(r) == Percent(included, total)
    ensures WinRate(r) + MissRate(r) == 100.0
  {
    PercentsComplete(included, total);
  }

  /** The reported rates count the last hundred results, and they add up to a hundred. */
  lemma RatesAreOfRecentResults(cfg: RiskConfig, start: Time, ops: seq<Op>)
    requires Results(ops) != []
    ensures var r, recent := After(cfg, start, ops), Recent(Results(ops));
            && WinRate(r) == Percent(CountTrue(recent), |recent|)
            && WinRate(r) + MissRate(r) == 100.0
  {
    RingIsRecentResults(cfg, start, ops);
    var r, recent := After(cfg, start, ops), Recent(Results(ops));
    CountsOfRing(r, Results(ops));
    RatesOfRing(r, CountTrue(recent), |recent|);
  }
}
