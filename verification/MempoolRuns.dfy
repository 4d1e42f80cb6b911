/**
 Whole runs of the mempool gate under a clock that does not go back: how the approvals
 for one target block are spread over time.
 */
module MempoolRuns {
  import opened MempoolGate

  datatype Request = Request(args: Args, now: Time)

  /** An approval, and when the tracker entry it went into was started. */
  datatype Approval = Approval(block: u64, victim: string, time: Time, since: Time)

  datatype Run = Run(entries: Entries, approvals: seq<Approval>)

  ghost predicate ClockHolds(reqs: seq<Request>) {
    forall i, j | 0 <= i < j < |reqs| :: reqs[i].now <= reqs[j].now
  }

  function Step(cfg: Config, run: Run, req: Request): Run {
    if Refusal(cfg, req.args, run.entries, req.now).Some? then run
    else
      var block := req.args.targetBlock;
      Run(AfterGate(cfg, req.args, run.entries, req.now),
          run.approvals + [Approval(block, req.args.victim, req.now, Joined(run.entries, block, req.now).firstSet)])
  }

  /** The run of a whole sequence of requests, from an empty tracker. */
  function RunOf(cfg: Config, reqs: seq<Request>): Run {
    if reqs == [] then Run(map[], [])
    else Step(cfg, RunOf(cfg, reqs[..|reqs| - 1]), reqs[|reqs| - 1])
  }

  /** The approvals of one generation: those for `block` in the entry started at `since`. */
  ghost function Generation(approvals: seq<Approval>, block: u64, since: Time): set<nat> {
    set i | 0 <= i < |approvals| && approvals[i].block == block && approvals[i].since == since
  }

  /** `b` is of the same generation as `a`, or of one started after `a` and more than the reaping age after it. */
  predicate Follows(a: Approval, b: Approval) {
    a.since == b.since || (a.time <= b.since && a.since + REAP_AGE < b.since)
  }

  ghost predicate Spread(approvals: seq<Approval>) {
    && (forall i, j | 0 <= i < j < |approvals| && approvals[i].block == approvals[j].block ::
          && Follows(approvals[i], approvals[j])
          && (approvals[i].since == approvals[j].since ==> approvals[i].victim != approvals[j].victim))
    && (forall i | 0 <= i < |approvals| :: approvals[i].since <= approvals[i].time)
  }

  ghost predicate Capped(cfg: Config, approvals: seq<Approval>) {
    forall block: u64, since: Time :: |Generation(approvals, block, since)| <= cfg.maxInflight
  }

  /** What the tracker knows of the approvals: the current generation of each block it holds. */
  ghost predicate Tracks(run: Run, t: Time) {
    forall i | 0 <= i < |run.approvals| ::
      var a := run.approvals[i];
      && a.time <= t
      && (a.block !in run.entries ==> a.since + REAP_AGE < t)
      && (a.block in run.entries ==>
            var e := run.entries[a.block];
            if a.since == e.firstSet then a.victim in e.victims
            else a.time <= e.firstSet && a.since + REAP_AGE < e.firstSet)
  }

  ghost predicate Counts(cfg: Config, run: Run, t: Time) {
    forall b | b in run.entries ::
      && run.entries[b].firstSet <= t
      && |Generation(run.approvals, b, run.entries[b].firstSet)| == |run.entries[b].victims| <= cfg.maxInflight
  }

  ghost predicate Inv(cfg: Config, run: Run, t: Time) {
    Spread(run.approvals) && Capped(cfg, run.approvals) && Tracks(run, t) && Counts(cfg, run, t)
  }

  lemma GenerationGrows(approvals: seq<Approval>, a: Approval, block: u64, since: Time)
    ensures Generation(approvals + [a], block, since)
         == Generation(approvals, block, since) + if a.block == block && a.since == since then {|approvals|} else {}
    ensures |approvals| !in Generation(approvals, block, since)
  {
  }

  /** The generation that an approval joins has room for it. */
  lemma GenerationHasRoom(cfg: Config, run: Run, t: Time, req: Request)
    requires Inv(cfg, run, t) && t <= req.now && Refusal(cfg, req.args, run.entries, req.now).None?
    ensures var block := req.args.targetBlock;
            var e := Joined(run.entries, block, req.now);
            && e.firstSet <= req.now && req.args.victim !in e.victims
            && |Generation(run.approvals, block, e.firstSet)| == |e.victims| < cfg.maxInflight
  {
  }

  lemma StepKeepsSpread(cfg: Config, run: Run, t: Time, req: Request)
    requires Inv(cfg, run, t) && t <= req.now && Refusal(cfg, req.args, run.entries, req.now).None?
    ensures Spread(Step(cfg, run, req).approvals)
  {
  }

  lemma StepKeepsCapped(cfg: Config, run: Run, t: Time, req: Request)
    requires Inv(cfg, run, t) && t <= req.now && Refusal(cfg, req.args, run.entries, req.now).None?
    ensures Capped(cfg, Step(cfg, run, req).approvals)
  {
    GenerationHasRoom(cfg, run, t, req);
    var approvals := Step(cfg, run, req).approvals;
    var a := approvals[|approvals| - 1];
    forall block: u64, since: Time ensures |Generation(approvals, block, since)| <= cfg.maxInflight {
      GenerationGrows(run.approvals, a, block, since);
    }
  }

  lemma StepKeepsTracks(cfg: Config, run: Run, t: Time, req: Request)
    requires Inv(cfg, run, t) && t <= req.now && Refusal(cfg, req.args, run.entries, req.now).None?
    ensures Tracks(Step(cfg, run, req), req.now)
  {
  }

  /** What the tracker holds after an approval: the joined entry with the victim added, and old entries as they were. */
  lemma EntryAfterStep(cfg: Config, run: Run, req: Request, b: u64)
    requires Refusal(cfg, req.args, run.entries, req.now).None? && b in Step(cfg, run, req).entries
    ensures var e, e' := Joined(run.entries, req.args.targetBlock, req.now), Step(cfg, run, req).entries[b];
            if b == req.args.targetBlock then e' == e.(victims := e.victims + {req.args.victim})
            else b in run.entries && e' == run.entries[b]
  {
  }

  lemma CountAfterStep(cfg: Config, run: Run, t: Time, req: Request, b: u64)
    requires Inv(cfg, run, t) && t <= req.now && Refusal(cfg, req.args, run.entries, req.now).None?
    requires b in Step(cfg, run, req).entries
    ensures var run' := Step(cfg, run, req);
            && run'.entries[b].firstSet <= req.now
            && |Generation(run'.approvals, b, run'.entries[b].firstSet)| == |run'.entries[b].victims| <= cfg.maxInflight
  {
    GenerationHasRoom(cfg, run, t, req);
    EntryAfterStep(cfg, run, req, b);
    var run' := Step(cfg, run, req);
    GenerationGrows(run.approvals, run'.approvals[|run.approvals|], b, run'.entries[b].firstSet);
  }

  lemma StepKeepsCounts(cfg: Config, run: Run, t: Time, req: Request)
    requires Inv(cfg, run, t) && t <= req.now && Refusal(cfg, req.args, run.entries, req.now).None?
    ensures Counts(cfg, Step(cfg, run, req), req.now)
  {
    forall b | b in Step(cfg, run, req).entries { CountAfterStep(cfg, run, t, req, b); }
  }

  lemma LaterKeepsInv(cfg: Config, run: Run, t: Time, now: Time)
    requires Inv(cfg, run, t) && t <= now
    ensures Inv(cfg, run, now)
  {
  }

  lemma {:induction false} RunKeepsInv(cfg: Config, reqs: seq<Request>)
    requires ClockHolds(reqs)
    ensures Inv(cfg, RunOf(cfg, reqs), if reqs == [] then 0 else reqs[|reqs| - 1].now)
  {
    if reqs == [] {
      forall block: u64, since: Time ensures |Generation([], block, since)| <= cfg.maxInflight {
        assert Generation([], block, since) == {};
      }
    } else {
      var m := |reqs| - 1;
      RunKeepsInv(cfg, reqs[..m]);
      var run, req := RunOf(cfg, reqs[..m]), reqs[m];
      var t := if m == 0 then req.now else reqs[m - 1].now;
      if Refusal(cfg, req.args, run.entries, req.now).Some? {
        LaterKeepsInv(cfg, run, t, req.now);
      } else {
        StepKeepsSpread(cfg, run, t, req);
        StepKeepsCapped(cfg, run, t, req);
        StepKeepsTracks(cfg, run, t, req);
        StepKeepsCounts(cfg, run, t, req);
      }
    }
  }

  /**
   In every run the approvals for a block fall into generations that start more than the
   reaping age apart, with at most the cap of distinct victims each.
   */
  lemma ApprovalsComeInGenerations(cfg: Config, reqs: seq<Request>, block: u64, since: Time)
    requires ClockHolds(reqs)
    ensures Spread(RunOf(cfg, reqs).approvals)
    ensures |Generation(RunOf(cfg, reqs).approvals, block, since)| <= cfg.maxInflight
  {
    RunKeepsInv(cfg, reqs);
  }

  lemma SmallCount(n: nat, cap: u16)
    requires n <= cap
    ensures n % 0x1_0000 == n
  {
  }

  /** The 16-bit count of a block is its true number of victims. */
  lemma {:induction false} CountNeverTruncates(cfg: Config, reqs: seq<Request>, block: u64)
    requires ClockHolds(reqs)
    ensures var entries := RunOf(cfg, reqs).entries;
            CountOf(entries, block) == if block in entries then |entries[block].victims| else 0
  {
    RunKeepsInv(cfg, reqs);
    var entries := RunOf(cfg, reqs).entries;
    if block in entries { SmallCount(|entries[block].victims|, cfg.maxInflight); }
  }

  // ----- windows

  /** The approvals for `block` within the reaping age from `from` on. */
  ghost function Window(approvals: seq<Approval>, block: u64, from: Time): set<nat> {
    set i | 0 <= i < |approvals| && approvals[i].block == block && from <= approvals[i].time <= from + 144_000_000_000
  }

  lemma {:induction false} Ends(s: set<nat>) returns (lo: nat, hi: nat)
    requires s != {}
    ensures lo in s && hi in s && forall i | i in s :: lo <= i <= hi
    decreases |s|
  {
    var x :| x in s;
    var rest := s - {x};
    assert s == rest + {x};
    if rest == {} {
      lo, hi := x, x;
    } else {
      lo, hi := Ends(rest);
      assert forall i | i in s :: i == x || i in rest;
      if x < lo { lo := x; }
      if x > hi { hi := x; }
    }
  }

  // ----- how generations start

  /** One of the first `n` approvals is for `block` and started its entry at `since`. */
  ghost predicate StartedBy(approvals: seq<Approval>, n: nat, block: u64, since: Time)
    requires n <= |approvals|
  {
    exists j | 0 <= j < n :: approvals[j] == approvals[j].(block := block, time := since, since := since)
  }

  /** Every generation was started by an approval at the time it is dated, and so was every entry held. */
  ghost predicate Started(run: Run) {
    && (forall i | 0 <= i < |run.approvals| ::
          StartedBy(run.approvals, i + 1, run.approvals[i].block, run.approvals[i].since))
    && (forall b | b in run.entries :: StartedBy(run.approvals, |run.approvals|, b, run.entries[b].firstSet))
  }

  lemma StartedStays(approvals: seq<Approval>, a: Approval, n: nat, m: nat, block: u64, since: Time)
    requires n <= |approvals| && n <= m <= |approvals| + 1 && StartedBy(approvals, n, block, since)
    ensures StartedBy(approvals + [a], m, block, since)
  {
    var j :| 0 <= j < n && approvals[j] == approvals[j].(block := block, time := since, since := since);
    assert (approvals + [a])[j] == approvals[j];
  }

  /** The generation of an approval is one that was started, or is started by it. */
  lemma ApprovalIsStarted(cfg: Config, run: Run, req: Request)
    requires Started(run) && Refusal(cfg, req.args, run.entries, req.now).None?
    ensures var as' := Step(cfg, run, req).approvals;
            StartedBy(as', |as'|, req.args.targetBlock, as'[|as'| - 1].since)
  {
    var as', b := Step(cfg, run, req).approvals, req.args.targetBlock;
    if b in run.entries {
      StartedStays(run.approvals, as'[|as'| - 1], |run.approvals|, |as'|, b, run.entries[b].firstSet);
    } else {
      var a := as'[|run.approvals|];
      assert a == a.(block := b, time := a.since, since := a.since);
    }
  }

  lemma StartedGrows(run: Run, run': Run, a: Approval)
    requires Started(run) && run'.approvals == run.approvals + [a]
    requires StartedBy(run'.approvals, |run.approvals| + 1, a.block, a.since)
    requires forall b | b in run'.entries ::
               if b == a.block then run'.entries[b].firstSet == a.since
               else b in run.entries && run'.entries[b] == run.entries[b]
    ensures Started(run')
  {
    var n := |run.approvals|;
    forall i | 0 <= i < n ensures StartedBy(run'.approvals, i + 1, run'.approvals[i].block, run'.approvals[i].since) {
      StartedStays(run.approvals, a, i + 1, i + 1, run.approvals[i].block, run.approvals[i].since);
    }
    forall b | b in run'.entries ensures StartedBy(run'.approvals, n + 1, b, run'.entries[b].firstSet) {
      if b != a.block { StartedStays(run.approvals, a, n, n + 1, b, run.entries[b].firstSet); }
    }
  }

  lemma StepKeepsStarted(cfg: Config, run: Run, req: Request)
    requires Started(run) && Refusal(cfg, req.args, run.entries, req.now).None?
    ensures Started(Step(cfg, run, req))
  {
    ApprovalIsStarted(cfg, run, req);
    var run' := Step(cfg, run, req);
    forall b | b in run'.entries { EntryAfterStep(cfg, run, req, b); }
    StartedGrows(run, run', run'.approvals[|run.approvals|]);
  }

  lemma {:induction false} RunIsStarted(cfg: Config, reqs: seq<Request>)
    ensures Started(RunOf(cfg, reqs))
  {
    if reqs != [] {
      var m := |reqs| - 1;
      RunIsStarted(cfg, reqs[..m]);
      var run := RunOf(cfg, reqs[..m]);
      if Refusal(cfg, reqs[m].args, run.entries, reqs[m].now).None? { StepKeepsStarted(cfg, run, reqs[m]); }
    }
  }

  /** The approvals for the block of `first` up to the reaping age after it. */
  ghost function FirstSpan(approvals: seq<Approval>, first: nat): set<nat>
    requires first < |approvals|
  {
    set i | 0 <= i < |approvals| && approvals[i].block == approvals[first].block
            && approvals[i].time <= approvals[first].time + REAP_AGE
  }

  lemma FirstSpanIsGeneration(approvals: seq<Approval>, first: nat)
    requires Spread(approvals) && first < |approvals|
    requires StartedBy(approvals, first + 1, approvals[first].block, approvals[first].since)
    requires forall i | 0 <= i < first :: approvals[i].block != approvals[first].block
    ensures FirstSpan(approvals, first) <= Generation(approvals, approvals[first].block, approvals[first].since)
  {
    assert approvals[first].time == approvals[first].since;
    forall i | i in FirstSpan(approvals, first) ensures approvals[i].since == approvals[first].since {
      if i != first { assert Follows(approvals[first], approvals[i]); }
    }
  }

  lemma {:induction false} SizeOfSubset(a: set<nat>, b: set<nat>)
    requires a <= b
    ensures |a| <= |b|
  {
    if a != {} {
      var x :| x in a;
      SizeOfSubset(a - {x}, b - {x});
    }
  }

  /** Until the reaping age after the first approval for a block, there are at most the cap, of distinct victims. */
  lemma FirstSpanIsCapped(cfg: Config, reqs: seq<Request>, first: nat)
    requires ClockHolds(reqs)
    requires var approvals := RunOf(cfg, reqs).approvals;
             first < |approvals| && forall i | 0 <= i < first :: approvals[i].block != approvals[first].block
    ensures var approvals := RunOf(cfg, reqs).approvals;
            var span := FirstSpan(approvals, first);
            && |span| <= cfg.maxInflight
            && (forall i, j | i in span && j in span && i != j :: approvals[i].victim != approvals[j].victim)
  {
    RunKeepsInv(cfg, reqs);
    RunIsStarted(cfg, reqs);
    var approvals := RunOf(cfg, reqs).approvals;
    FirstSpanIsGeneration(approvals, first);
    SizeOfSubset(FirstSpan(approvals, first), Generation(approvals, approvals[first].block, approvals[first].since));
  }

  // ----- spans of the reaping age

  /** A window touches at most the generations of its first and its last approval. */
  lemma WindowSpansTwo(approvals: seq<Approval>, block: u64, from: Time, lo: nat, hi: nat)
    requires Spread(approvals) && lo in Window(approvals, block, from) && hi in Window(approvals, block, from)
    requires forall i | i in Window(approvals, block, from) :: lo <= i <= hi
    ensures Window(approvals, block, from)
         <= Generation(approvals, block, approvals[lo].since) + Generation(approvals, block, approvals[hi].since)
  {
  }

  /** A window that touches two generations lies behind the start of the earlier one. */
  lemma StartIsOutside(approvals: seq<Approval>, block: u64, from: Time, lo: nat, hi: nat) returns (j: nat)
    requires Spread(approvals) && lo in Window(approvals, block, from) && hi in Window(approvals, block, from)
    requires lo <= hi && approvals[lo].since != approvals[hi].since
    requires StartedBy(approvals, lo + 1, block, approvals[lo].since)
    ensures j in Generation(approvals, block, approvals[lo].since) && j !in Window(approvals, block, from)
  {
    assert Follows(approvals[lo], approvals[hi]);
    var since := approvals[lo].since;
    j :| 0 <= j < lo + 1 && approvals[j] == approvals[j].(block := block, time := since, since := since);
  }

  lemma SizeOfUnion(w: set<nat>, a: set<nat>, b: set<nat>)
    requires w <= a + b
    ensures |w| <= |a| + |b|
  {
    assert |a + b| <= |a| + |b|;
    SizeOfSubset(w, a + b);
  }

  /** No span of the reaping age holds as many as twice the cap of approvals for one block. */
  lemma WindowIsCapped(cfg: Config, reqs: seq<Request>, block: u64, from: Time)
    requires ClockHolds(reqs)
    ensures var n := |Window(RunOf(cfg, reqs).approvals, block, from)|;
            n == 0 || n <= 2 * cfg.maxInflight - 1
  {
    RunKeepsInv(cfg, reqs);
    RunIsStarted(cfg, reqs);
    var approvals := RunOf(cfg, reqs).approvals;
    var w := Window(approvals, block, from);
    if w != {} {
      var lo, hi := Ends(w);
      WindowSpansTwo(approvals, block, from, lo, hi);
      var g1 := Generation(approvals, block, approvals[lo].since);
      var g2 := Generation(approvals, block, approvals[hi].since);
      assert lo in g1;
      if approvals[lo].since == approvals[hi].since {
        SizeOfSubset(w, g1);
      } else {
        var j := StartIsOutside(approvals, block, from, lo, hi);
        SizeOfUnion(w, g1 - {j}, g2);
      }
    }
  }

  /** No span of the reaping age holds three approvals of the same victim for one block. */
  lemma VictimAtMostTwice(cfg: Config, reqs: seq<Request>, block: u64, from: Time, i: nat, j: nat, k: nat)
    requires ClockHolds(reqs)
    requires var approvals := RunOf(cfg, reqs).approvals;
             && i < j < k < |approvals|
             && {i, j, k} <= Window(approvals, block, from)
    ensures var approvals := RunOf(cfg, reqs).approvals;
            !(approvals[i].victim == approvals[j].victim == approvals[k].victim)
  {
    RunKeepsInv(cfg, reqs);
    var approvals := RunOf(cfg, reqs).approvals;
    var w := Window(approvals, block, from);
    assert i in w && j in w && k in w;
    assert Follows(approvals[i], approvals[j]) && Follows(approvals[j], approvals[k]);
  }
}
