/**
 The mempool gate and its in-flight tracker: per-candidate checks, deduplication per
 target block, a cap per target block, and lazy reaping by age.
 */
module MempoolGate {
  import opened Wrappers

  type u16 = x: nat | x < 0x1_0000
  type u64 = x: nat | x < 0x1_0000_0000_0000_0000

  /** Times are nanoseconds. */
  type Time = int

  const REAP_AGE: nat := 144_000_000_000

  datatype Config = Config(minProfitWei: int, maxTipShareBps: u16, maxVictimFreshnessMs: u64, maxInflight: u16)

  datatype Args = Args(
    grossProfitWei: Option<int>, tipShareBps: u16, victimSeenAt: Time, targetBlock: u64, victim: string)

  datatype GateTrace = GateTrace(gate: string, passed: bool)

  datatype Result = Result(approved: bool, reason: string, gates: seq<GateTrace>)

  /** The victims in flight for one target block, and when the first of them was recorded. */
  datatype Entry = Entry(victims: set<string>, firstSet: Time)

  type Entries = map<u64, Entry>

  // ----- arithmetic of the source types

  /** The difference of two times, limited to the range of a duration. */
  function Sub(a: Time, b: Time): int {
    var max := 0x7FFF_FFFF_FFFF_FFFF;
    if a - b > max then max else if a - b < -max - 1 then -max - 1 else a - b
  }

  /** Whole milliseconds, cut off towards zero and read as an unsigned 64-bit number. */
  function FreshMs(now: Time, seenAt: Time): (ms: u64)
    ensures now >= seenAt && now - seenAt < 0x7FFF_FFFF_FFFF_FFFF ==> ms == (now - seenAt) / 1_000_000
    ensures seenAt - 1_000_000 < now < seenAt ==> ms == 0
    ensures now <= seenAt - 1_000_000 ==> ms >= 0x7FFF_FFFF_FFFF_FFFF
  {
    var d := Sub(now, seenAt);
    var ms := if d >= 0 then d / 1_000_000 else -(-d / 1_000_000);
    ms % 0x1_0000_0000_0000_0000
  }

  // ----- the tracker

  predicate IsSeen(entries: Entries, block: u64, victim: string) {
    block in entries && victim in entries[block].victims
  }

  /** The number of victims of a block, as an unsigned 16-bit number. */
  function CountOf(entries: Entries, block: u64): u16 {
    if block in entries then |entries[block].victims| % 0x1_0000 else 0
  }

  /** The entry of `block` that a recording at `now` joins or starts. */
  function Joined(entries: Entries, block: u64, now: Time): Entry {
    if block in entries then entries[block] else Entry({}, now)
  }

  function Reap(entries: Entries, cutoff: Time): Entries {
    map b | b in entries && entries[b].firstSet >= cutoff :: entries[b]
  }

  function Recorded(entries: Entries, block: u64, victim: string, now: Time): Entries {
    var e := Joined(entries, block, now);
    Reap(entries[block := e.(victims := e.victims + {victim})], now - REAP_AGE)
  }

  // ----- the gate

  /** The first failing check, if any, in the order of the gates. */
  function Refusal(cfg: Config, args: Args, entries: Entries, now: Time): (r: Option<string>)
    ensures r.None? <==>
              && args.grossProfitWei.Some? && args.grossProfitWei.value >= cfg.minProfitWei
              && args.tipShareBps <= cfg.maxTipShareBps
              && FreshMs(now, args.victimSeenAt) <= cfg.maxVictimFreshnessMs
              && !IsSeen(entries, args.targetBlock, args.victim)
              && CountOf(entries, args.targetBlock) < cfg.maxInflight
  {
    if args.grossProfitWei.None? || args.grossProfitWei.value < cfg.minProfitWei then Some("min_profit")
    else if args.tipShareBps > cfg.maxTipShareBps then Some("max_tip_share")
    else if FreshMs(now, args.victimSeenAt) > cfg.maxVictimFreshnessMs then Some("victim_stale")
    else if IsSeen(entries, args.targetBlock, args.victim) then Some("duplicate")
    else if CountOf(entries, args.targetBlock) >= cfg.maxInflight then Some("max_inflight_per_block")
    else None
  }

  /** The reasons of refusal, in the order of the gates. */
  const REASONS: seq<string> := ["min_profit", "max_tip_share", "victim_stale", "duplicate", "max_inflight_per_block"]

  /** What each gate refuses. */
  ghost predicate GateFails(cfg: Config, args: Args, entries: Entries, now: Time, gate: nat) {
    match gate
    case 0 => args.grossProfitWei.None? || args.grossProfitWei.value < cfg.minProfitWei
    case 1 => args.tipShareBps > cfg.maxTipShareBps
    case 2 => FreshMs(now, args.victimSeenAt) > cfg.maxVictimFreshnessMs
    case 3 => args.targetBlock in entries && args.victim in entries[args.targetBlock].victims
    case _ =>
      var n := if args.targetBlock in entries then |entries[args.targetBlock].victims| else 0;
      n % 0x1_0000 >= cfg.maxInflight
  }

  lemma ReasonsDiffer()
    ensures forall i, j | 0 <= i < j < |REASONS| :: REASONS[i] != REASONS[j]
  {
    assert |REASONS[0]| == 10 && |REASONS[1]| == 13 && |REASONS[2]| == 12 && |REASONS[3]| == 9 && |REASONS[4]| == 22;
  }

  /** The first gate that fails gives the reason. */
  lemma FirstGateDecides(cfg: Config, args: Args, entries: Entries, now: Time, k: nat)
    requires k < |REASONS|
    ensures Refusal(cfg, args, entries, now) == Some(REASONS[k]) <==>
              GateFails(cfg, args, entries, now, k) && forall j: nat | j < k :: !GateFails(cfg, args, entries, now, j)
  {
    ReasonsDiffer();
    var r := Refusal(cfg, args, entries, now);
    var f0, f1 := GateFails(cfg, args, entries, now, 0), GateFails(cfg, args, entries, now, 1);
    var f2, f3 := GateFails(cfg, args, entries, now, 2), GateFails(cfg, args, entries, now, 3);
    assert r == Some(REASONS[0]) <==> f0;
    assert r == Some(REASONS[1]) <==> !f0 && f1;
    assert r == Some(REASONS[2]) <==> !f0 && !f1 && f2;
    assert r == Some(REASONS[3]) <==> !f0 && !f1 && !f2 && f3;
    assert r == Some(REASONS[4]) <==> !f0 && !f1 && !f2 && !f3 && GateFails(cfg, args, entries, now, 4);
  }

  function AfterGate(cfg: Config, args: Args, entries: Entries, now: Time): Entries {
    if Refusal(cfg, args, entries, now).Some? then entries
    else Recorded(entries, args.targetBlock, args.victim, now)
  }

  /** The gates with an outcome of their own, in the order of their checks. */
  const GATES: seq<string> := ["min_profit", "max_tip_share", "victim_freshness"]

  /** The first `n` gates passed. */
  function PassedGates(n: nat): (trace: seq<GateTrace>)
    requires n <= |GATES|
    ensures |trace| == n && forall i | 0 <= i < n :: trace[i].passed
  {
    seq(n, i requires 0 <= i < n => GateTrace(GATES[i], true))
  }

  /** The trace of a verdict: the gates passed on the way, then the one that failed or the last one. */
  function TraceOf(refusal: Option<string>): seq<GateTrace> {
    if refusal.None? then PassedGates(3) + [GateTrace("dedup_inflight", true)]
    else if refusal.value == "min_profit" then PassedGates(0) + [GateTrace("min_profit", false)]
    else if refusal.value == "max_tip_share" then PassedGates(1) + [GateTrace("max_tip_share", false)]
    else if refusal.value == "victim_stale" then PassedGates(2) + [GateTrace("victim_freshness", false)]
    else if refusal.value == "duplicate" then PassedGates(3) + [GateTrace("dedup", false)]
    else PassedGates(3) + [GateTrace("max_inflight", false)]
  }

  class MempoolInflightTracker {
    var entries: Entries

    constructor ()
      ensures entries == map[]
    {
      entries := map[];
    }

    method Seen(block: u64, victim: string) returns (dup: bool)
      ensures dup == IsSeen(entries, block, victim)
    {
      if block !in entries {
        return false;
      }
      dup := victim in entries[block].victims;
    }

    method CountForBlock(block: u64) returns (n: u16)
      ensures n == CountOf(entries, block)
    {
      if block in entries {
        return |entries[block].victims| % 0x1_0000;
      }
      n := 0;
    }

    method Record(block: u64, victim: string, now: Time)
      modifies this
      ensures entries == Recorded(old(entries), block, victim, now)
    {
      if block !in entries {
        entries := entries[block := Entry({}, now)];
      }
      var e := entries[block];
      entries := entries[block := e.(victims := e.victims + {victim})];

      var cutoff := now - REAP_AGE;
      ghost var all := entries;
      assert all == old(entries)[block := e.(victims := e.victims + {victim})];
      var todo := entries.Keys;
      while todo != {}
        invariant todo <= all.Keys
        invariant entries == map b | b in all && (b in todo || all[b].firstSet >= cutoff) :: all[b]
        decreases todo
      {
        var b :| b in todo;
        todo := todo - {b};
        if entries[b].firstSet < cutoff {
          entries := entries - {b};
        }
      }
    }
  }

  /** The gate: the verdict, the trace of gates passed and the last one failed, and the recording on approval. */
  method MempoolRiskGate(cfg: Config, args: Args, inflight: MempoolInflightTracker, now: Time) returns (r: Result)
    modifies inflight
    ensures var refusal := Refusal(cfg, args, old(inflight.entries), now);
            && r.approved == refusal.None?
            && r.reason == (if refusal.Some? then refusal.value else "")
            && inflight.entries == AfterGate(cfg, args, old(inflight.entries), now)
    ensures r.gates == TraceOf(Refusal(cfg, args, old(inflight.entries), now))
    ensures r.gates != [] && r.gates[|r.gates| - 1].passed == r.approved
    ensures forall i | 0 <= i < |r.gates| - 1 :: r.gates[i].passed
  {
    var trace: seq<GateTrace> := [];
    if args.grossProfitWei.None? || args.grossProfitWei.value < cfg.minProfitWei {
      return Result(false, "min_profit", trace + [GateTrace("min_profit", false)]);
    }
    trace := trace + [GateTrace("min_profit", true)];
    if args.tipShareBps > cfg.maxTipShareBps {
      return Result(false, "max_tip_share", trace + [GateTrace("max_tip_share", false)]);
    }
    trace := trace + [GateTrace("max_tip_share", true)];
    var freshMs := FreshMs(now, args.victimSeenAt);
    if freshMs > cfg.maxVictimFreshnessMs {
      return Result(false, "victim_stale", trace + [GateTrace("victim_freshness", false)]);
    }
    trace := trace + [GateTrace("victim_freshness", true)];
    var dup := inflight.Seen(args.targetBlock, args.victim);
    if dup {
      return Result(false, "duplicate", trace + [GateTrace("dedup", false)]);
    }
    var n := inflight.CountForBlock(args.targetBlock);
    if n >= cfg.maxInflight {
      return Result(false, "max_inflight_per_block", trace + [GateTrace("max_inflight", false)]);
    }
    inflight.Record(args.targetBlock, args.victim, now);
    trace := trace + [GateTrace("dedup_inflight", true)];
    r := Result(true, "", trace);
  }
}
