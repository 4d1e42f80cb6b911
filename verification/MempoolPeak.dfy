/**
 How far the approvals for one target block can crowd together: for every cap, a run
 that reaches the bound on a span of the reaping age.
 */
module MempoolPeak {
  import opened Wrappers
  import opened MempoolGate
  import opened MempoolRuns

  /** The `i`-th victim. */
  function Victim(i: nat): (v: string)
    ensures |v| == i
  {
    seq(i, _ => 'v')
  }

  ghost function Victims(n: nat): set<string> {
    if n == 0 then {} else Victims(n - 1) + {Victim(n - 1)}
  }

  lemma {:induction false} VictimsDiffer(n: nat)
    ensures |Victims(n)| == n
    ensures forall v | v in Victims(n) :: |v| < n
  {
    if n > 0 { VictimsDiffer(n - 1); }
  }

  /** A candidate that only deduplication and the cap can refuse. */
  function Good(cfg: Config, block: u64, i: nat, now: Time): Request {
    Request(Args(Some(cfg.minProfitWei), cfg.maxTipShareBps, now, block, Victim(i)), now)
  }

  /** The first `n` victims are in flight for `block` since `since`. */
  ghost predicate Holds(entries: Entries, block: u64, n: nat, since: Time) {
    if n == 0 then block !in entries else block in entries && entries[block] == Entry(Victims(n), since)
  }

  lemma GoodPassesGates(cfg: Config, entries: Entries, block: u64, n: nat, since: Time, now: Time)
    requires Holds(entries, block, n, since) && n < cfg.maxInflight
    ensures Refusal(cfg, Good(cfg, block, n, now).args, entries, now).None?
  {
    VictimsDiffer(n);
    SmallCount(n, cfg.maxInflight);
    assert FreshMs(now, now) == 0;
    assert !IsSeen(entries, block, Victim(n)) && CountOf(entries, block) == n;
  }

  lemma RecordedHolds(entries: Entries, block: u64, n: nat, since: Time, now: Time)
    requires Holds(entries, block, n, since) && now - REAP_AGE <= since && (n == 0 ==> since == now)
    ensures Joined(entries, block, now) == Entry(Victims(n), since)
    ensures var entries' := Recorded(entries, block, Victim(n), now);
            Holds(entries', block, n + 1, since) && entries'.Keys <= entries.Keys + {block}
  {
  }

  lemma GoodIsApproved(cfg: Config, run: Run, block: u64, n: nat, since: Time, now: Time)
    requires Holds(run.entries, block, n, since) && n < cfg.maxInflight
    requires now - REAP_AGE <= since && (n == 0 ==> since == now)
    ensures var run' := Step(cfg, run, Good(cfg, block, n, now));
            && run'.approvals == run.approvals + [Approval(block, Victim(n), now, since)]
            && Holds(run'.entries, block, n + 1, since)
            && run'.entries.Keys <= run.entries.Keys + {block}
  {
    GoodPassesGates(cfg, run.entries, block, n, since, now);
    RecordedHolds(run.entries, block, n, since, now);
  }

  /** The candidates for the victims from `lo` up to `hi`, all at `now`. */
  function Crowd(cfg: Config, block: u64, lo: nat, hi: nat, now: Time): (reqs: seq<Request>)
    requires lo <= hi
    ensures |reqs| == hi - lo && forall i | 0 <= i < |reqs| :: reqs[i].now == now
  {
    if lo == hi then [] else Crowd(cfg, block, lo, hi - 1, now) + [Good(cfg, block, hi - 1, now)]
  }

  /** The approvals of a crowd. */
  ghost predicate Adds(before: seq<Approval>, after: seq<Approval>, n: nat, block: u64, now: Time) {
    && |after| == |before| + n && before <= after
    && forall i | |before| <= i < |after| :: after[i].block == block && after[i].time == now
  }

  lemma AddsOneMore(a: seq<Approval>, b: seq<Approval>, c: seq<Approval>, n: nat, block: u64, now: Time)
    requires Adds(a, b, n, block, now) && Adds(b, c, 1, block, now)
    ensures Adds(a, c, n + 1, block, now)
  {
  }

  lemma RunOfAppend(cfg: Config, reqs: seq<Request>, req: Request)
    ensures RunOf(cfg, reqs + [req]) == Step(cfg, RunOf(cfg, reqs), req)
  {
    assert (reqs + [req])[..|reqs|] == reqs;
  }

  lemma OneMoreIsApproved(cfg: Config, reqs: seq<Request>, block: u64, n: nat, since: Time, now: Time)
    requires Holds(RunOf(cfg, reqs).entries, block, n, since) && n < cfg.maxInflight
    requires now - REAP_AGE <= since && (n == 0 ==> since == now)
    ensures var run, run' := RunOf(cfg, reqs), RunOf(cfg, reqs + [Good(cfg, block, n, now)]);
            && Adds(run.approvals, run'.approvals, 1, block, now)
            && Holds(run'.entries, block, n + 1, since)
            && run'.entries.Keys <= run.entries.Keys + {block}
  {
    RunOfAppend(cfg, reqs, Good(cfg, block, n, now));
    GoodIsApproved(cfg, RunOf(cfg, reqs), block, n, since, now);
  }

  lemma {:induction false} CrowdIsApproved(
    cfg: Config, reqs: seq<Request>, block: u64, lo: nat, hi: nat, since: Time, now: Time)
    requires lo <= hi <= cfg.maxInflight && Holds(RunOf(cfg, reqs).entries, block, lo, since)
    requires now - REAP_AGE <= since && (lo == 0 ==> since == now)
    ensures var run, run' := RunOf(cfg, reqs), RunOf(cfg, reqs + Crowd(cfg, block, lo, hi, now));
            && Adds(run.approvals, run'.approvals, hi - lo, block, now)
            && Holds(run'.entries, block, hi, since)
            && run'.entries.Keys <= run.entries.Keys + {block}
    decreases hi
  {
    var all := reqs + Crowd(cfg, block, lo, hi, now);
    if lo == hi {
      assert all == reqs;
    } else {
      CrowdIsApproved(cfg, reqs, block, lo, hi - 1, since, now);
      var most := reqs + Crowd(cfg, block, lo, hi - 1, now);
      assert all == most + [Good(cfg, block, hi - 1, now)];
      OneMoreIsApproved(cfg, most, block, hi - 1, since, now);
      AddsOneMore(RunOf(cfg, reqs).approvals, RunOf(cfg, most).approvals, RunOf(cfg, all).approvals,
                  hi - 1 - lo, block, now);
    }
  }

  /** An approval for another block reaps an entry that is too old. */
  lemma OtherBlockReaps(cfg: Config, run: Run, block: u64, n: nat, since: Time, other: u64, now: Time)
    requires Holds(run.entries, block, n, since) && other !in run.entries && other != block
    requires since < now - REAP_AGE && cfg.maxInflight >= 1
    ensures var run' := Step(cfg, run, Good(cfg, other, 0, now));
            && run'.approvals == run.approvals + [Approval(other, Victim(0), now, now)]
            && Holds(run'.entries, block, 0, now)
  {
    assert Holds(run.entries, other, 0, now);
    GoodIsApproved(cfg, run, other, 0, now, now);
  }

  /** The part of the run before the first entry is reaped. */
  function EarlyRun(cfg: Config): seq<Request>
    requires cfg.maxInflight >= 1
  {
    [Good(cfg, 0, 0, 0)] + Crowd(cfg, 0, 1, cfg.maxInflight, REAP_AGE)
  }

  /** The first victim, the others when its entry is about to be too old, and all again in a new entry. */
  function PeakRun(cfg: Config): seq<Request>
    requires cfg.maxInflight >= 1
  {
    EarlyRun(cfg) + [Good(cfg, 1, 0, REAP_AGE + 1)] + Crowd(cfg, 0, 0, cfg.maxInflight, REAP_AGE + 1)
  }

  /** Where the approvals of that run lie. */
  ghost predicate PeakShape(approvals: seq<Approval>, c: nat) {
    && |approvals| == 2 * c + 1 && c >= 1
    && approvals[0].time == 0 && approvals[c].block == 1
    && (forall i | 1 <= i < c :: approvals[i].block == 0 && approvals[i].time == REAP_AGE)
    && (forall i | c < i <= 2 * c :: approvals[i].block == 0 && approvals[i].time == REAP_AGE + 1)
  }

  lemma EarlyRunFills(cfg: Config)
    requires cfg.maxInflight >= 1
    ensures var c, run := cfg.maxInflight, RunOf(cfg, EarlyRun(cfg));
            && |run.approvals| == c && run.approvals[0].time == 0
            && (forall i | 1 <= i < c :: run.approvals[i].block == 0 && run.approvals[i].time == REAP_AGE)
            && Holds(run.entries, 0, c, 0) && 1 !in run.entries
  {
    var first := [Good(cfg, 0, 0, 0)];
    assert [] + first == first;
    RunOfAppend(cfg, [], first[0]);
    GoodIsApproved(cfg, RunOf(cfg, []), 0, 0, 0, 0);
    CrowdIsApproved(cfg, first, 0, 1, cfg.maxInflight, 0, REAP_AGE);
  }

  lemma PeakRunHasShape(cfg: Config)
    requires cfg.maxInflight >= 1
    ensures PeakShape(RunOf(cfg, PeakRun(cfg)).approvals, cfg.maxInflight)
  {
    var c, early, other := cfg.maxInflight, EarlyRun(cfg), Good(cfg, 1, 0, REAP_AGE + 1);
    EarlyRunFills(cfg);
    RunOfAppend(cfg, early, other);
    OtherBlockReaps(cfg, RunOf(cfg, early), 0, c, 0, 1, REAP_AGE + 1);
    CrowdIsApproved(cfg, early + [other], 0, 0, c, REAP_AGE + 1, REAP_AGE + 1);
  }

  lemma PeakRunKeepsClock(cfg: Config)
    requires cfg.maxInflight >= 1
    ensures ClockHolds(PeakRun(cfg))
  {
    var c, reqs := cfg.maxInflight, PeakRun(cfg);
    forall i | 0 <= i < |reqs|
      ensures reqs[i].now == if i == 0 then 0 else if i < c then REAP_AGE else REAP_AGE + 1
    {
    }
  }

  ghost function Range(lo: nat, hi: nat): (r: set<nat>)
    requires lo <= hi
    ensures |r| == hi - lo && forall i: nat :: i in r <==> lo <= i < hi
  {
    if lo == hi then {} else Range(lo, hi - 1) + {hi - 1}
  }

  lemma PeakWindow(approvals: seq<Approval>, c: nat)
    requires PeakShape(approvals, c)
    ensures |Window(approvals, 0, REAP_AGE)| == 2 * c - 1
  {
    var a, b := Range(1, c), Range(c + 1, 2 * c + 1);
    assert Window(approvals, 0, REAP_AGE) == a + b;
    assert |a + b| == |a| + |b|;
  }

  /** The bound on the approvals within a span of the reaping age is reached, whatever the cap. */
  lemma WindowBoundIsReached(cfg: Config)
    requires cfg.maxInflight >= 1
    ensures ClockHolds(PeakRun(cfg))
    ensures |Window(RunOf(cfg, PeakRun(cfg)).approvals, 0, REAP_AGE)| == 2 * cfg.maxInflight - 1
  {
    PeakRunKeepsClock(cfg);
    PeakRunHasShape(cfg);
    PeakWindow(RunOf(cfg, PeakRun(cfg)).approvals, cfg.maxInflight);
  }
}
