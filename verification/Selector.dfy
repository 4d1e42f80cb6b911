/**
 The A/B builder selector: running totals per builder, a deterministic ranking, the
 allocation of volume, and sampling from it.
 */
module Selector {
  import opened Wrappers
  import opened Allocation
  import StableSort

  datatype Outcome = Outcome(included: bool, profitWei: Option<int>)

  datatype Stats = Stats(attempts: nat, inclusions: nat, profitWei: int)

  datatype Config = Config(explorationFloor: real, priorAttempts: real)

  /** The configuration in force: values out of range fall back to the defaults. */
  function Effective(cfg: Config): (r: Config)
    ensures 0.0 < r.explorationFloor < 1.0 && r.priorAttempts > 0.0
    ensures 0.0 < cfg.explorationFloor < 1.0 ==> r.explorationFloor == cfg.explorationFloor
    ensures cfg.priorAttempts > 0.0 ==> r.priorAttempts == cfg.priorAttempts
    ensures r.explorationFloor == cfg.explorationFloor || r.explorationFloor == 0.15
    ensures r.priorAttempts == cfg.priorAttempts || r.priorAttempts == 1.0
  {
    Config(if cfg.explorationFloor <= 0.0 || cfg.explorationFloor >= 1.0 then 0.15 else cfg.explorationFloor,
           if cfg.priorAttempts <= 0.0 then 1.0 else cfg.priorAttempts)
  }

  // ----- totals

  function Folded(st: Stats, o: Outcome): Stats {
    Stats(st.attempts + 1,
          if o.included then st.inclusions + 1 else st.inclusions,
          if o.profitWei.Some? then st.profitWei + o.profitWei.value else st.profitWei)
  }

  /** One recorded outcome, for whichever builder it names. */
  datatype Entry = Entry(builder: string, outcome: Outcome)

  /** The totals of one builder over a whole history. */
  function Tally(history: seq<Entry>, b: string): (st: Stats)
    ensures st.inclusions <= st.attempts <= |history|
  {
    if history == [] then Stats(0, 0, 0)
    else
      var last, st := history[|history| - 1], Tally(history[..|history| - 1], b);
      if last.builder == b then Folded(st, last.outcome) else st
  }

  lemma TallyAppend(history: seq<Entry>, e: Entry, b: string)
    ensures Tally(history + [e], b)
         == if e.builder == b then Folded(Tally(history, b), e.outcome) else Tally(history, b)
  {
  }

  /** The totals of one outcome. */
  lemma TallyOfOne(e: Entry, b: string)
    ensures Tally([e], b)
         == if e.builder != b then Stats(0, 0, 0)
            else Stats(1, if e.outcome.included then 1 else 0,
                       if e.outcome.profitWei.None? then 0 else e.outcome.profitWei.value)
  {
    assert [e][..0] == [];
  }

  /** The totals of a history are the sums of the totals of its parts. */
  lemma {:induction false} TallyAdds(before: seq<Entry>, after: seq<Entry>, b: string)
    ensures var x, y := Tally(before, b), Tally(after, b);
            Tally(before + after, b)
            == Stats(x.attempts + y.attempts, x.inclusions + y.inclusions, x.profitWei + y.profitWei)
    decreases |after|
  {
    if after == [] {
      assert before + after == before;
    } else {
      var m := |after| - 1;
      TallyAdds(before, after[..m], b);
      assert before + after == (before + after[..m]) + [after[m]];
      TallyAppend(before + after[..m], after[m], b);
    }
  }

  /** The attempts with the prior counted in. */
  function Smoothed(cfg: Config, st: Stats): real {
    st.attempts as real + cfg.priorAttempts
  }

  function Score(cfg: Config, st: Stats): real {
    if Smoothed(cfg, st) <= 0.0 then 0.0 else st.profitWei as real / 1000000000000000000.0 / Smoothed(cfg, st)
  }

  lemma SameOrder(q: real, r: real, f: real)
    requires f > 0.0
    ensures q < r <==> q * f < r * f
  {
  }

  lemma CrossMultiply(x: real, y: real, s: real, t: real)
    requires s > 0.0 && t > 0.0
    ensures x / s < y / t <==> x * t < y * s
  {
    var q, r := x / s, y / t;
    QuotientTimes(x, s);
    QuotientTimes(y, t);
    assert x * t == q * (s * t) && y * s == r * (s * t);
    SameOrder(q, r, s * t);
  }

  /** Scores compare as profit per attempt, the prior counted as attempts of every builder. */
  lemma ScoreComparesProfit(cfg: Config, a: Stats, b: Stats)
    requires cfg.priorAttempts > 0.0
    ensures Score(cfg, a) < Score(cfg, b) <==>
              a.profitWei as real * (b.attempts as real + cfg.priorAttempts)
              < b.profitWei as real * (a.attempts as real + cfg.priorAttempts)
  {
    var wei := 1000000000000000000.0;
    var x, y, s, t := a.profitWei as real, b.profitWei as real, Smoothed(cfg, a), Smoothed(cfg, b);
    CrossMultiply(x / wei, y / wei, s, t);
    assert x / wei * t == x * t / wei && y / wei * s == y * s / wei;
  }

  function RawWinRate(st: Stats): real {
    if st.attempts == 0 then 0.0 else st.inclusions as real / st.attempts as real
  }

  // ----- the builders

  /** The configured names without empty ones and repetitions, in order of first appearance. */
  function Admitted(names: seq<string>): seq<string> {
    if names == [] then []
    else
      var rest, b := Admitted(names[..|names| - 1]), names[|names| - 1];
      if b == "" || b in rest then rest else rest + [b]
  }

  lemma {:induction false} AdmittedOnce(names: seq<string>)
    ensures forall b :: b in Admitted(names) <==> b in names && b != ""
    ensures forall i, j | 0 <= i < j < |Admitted(names)| :: Admitted(names)[i] != Admitted(names)[j]
  {
    if names != [] {
      AdmittedOnce(names[..|names| - 1]);
      assert names == names[..|names| - 1] + [names[|names| - 1]];
    }
  }

  /** The admitted names stand in the order in which they first appear. */
  lemma {:induction false} AdmittedInOrder(names: seq<string>) returns (at: seq<nat>)
    ensures |at| == |Admitted(names)|
    ensures forall i | 0 <= i < |at| ::
              at[i] < |names| && names[at[i]] == Admitted(names)[i] && names[at[i]] !in names[..at[i]]
    ensures forall i, j | 0 <= i < j < |at| :: at[i] < at[j]
  {
    if names == [] {
      at := [];
    } else {
      var m := |names| - 1;
      var most := names[..m];
      at := AdmittedInOrder(most);
      AdmittedOnce(most);
      assert forall i | 0 <= i < |at| :: most[..at[i]] == names[..at[i]];
      if names[m] != "" && names[m] !in Admitted(most) { at := at + [m]; }
    }
  }

  // ----- ranking

  /** A builder with what it is ranked by. */
  datatype Ranked = Ranked(builder: string, score: real, winRate: real, position: nat)

  /** Higher score first, then higher win rate, then configured order. */
  predicate Ahead(a: Ranked, b: Ranked) {
    if a.score != b.score then a.score > b.score
    else if a.winRate != b.winRate then a.winRate > b.winRate
    else a.position <= b.position
  }

  function Entries(cfg: Config, order: seq<string>, stats: map<string, Stats>): (es: seq<Ranked>)
    requires forall b | b in order :: b in stats
    ensures |es| == |order|
    ensures forall i | 0 <= i < |es| ::
              es[i] == Ranked(order[i], Score(cfg, stats[order[i]]), RawWinRate(stats[order[i]]), i)
  {
    seq(|order|, i requires 0 <= i < |order| && order[i] in stats =>
      Ranked(order[i], Score(cfg, stats[order[i]]), RawWinRate(stats[order[i]]), i))
  }

  function Ranking(cfg: Config, order: seq<string>, stats: map<string, Stats>): seq<Ranked>
    requires forall b | b in order :: b in stats
  {
    StableSort.Sort(Entries(cfg, order, stats), Ahead)
  }

  /** The ranking lists every builder once, best first. */
  lemma RankingIsComplete(cfg: Config, order: seq<string>, stats: map<string, Stats>)
    requires forall b | b in order :: b in stats
    ensures var rs := Ranking(cfg, order, stats);
            && StableSort.SortedBy(rs, Ahead)
            && multiset(rs) == multiset(Entries(cfg, order, stats))
            && |rs| == |order|
  {
    var es := Entries(cfg, order, stats);
    StableSort.SortIsStable(es, Ahead);
    StableSort.SortPermutes(es, Ahead);
    assert |es| == |multiset(es)| && |Ranking(cfg, order, stats)| == |multiset(Ranking(cfg, order, stats))|;
  }

  lemma RankedByScore(cfg: Config, order: seq<string>, stats: map<string, Stats>, i: nat)
    requires (forall b | b in order :: b in stats) && i < |Ranking(cfg, order, stats)|
    ensures var r := Ranking(cfg, order, stats)[i];
            && r.builder in stats && r.score == Score(cfg, stats[r.builder])
            && r.winRate == RawWinRate(stats[r.builder]) && r.position < |order| && order[r.position] == r.builder
  {
    RankingIsComplete(cfg, order, stats);
    var es, rs := Entries(cfg, order, stats), Ranking(cfg, order, stats);
    assert rs[i] in multiset(rs) && rs[i] in es;
  }

  /** Nowhere in the ranking does a builder follow one with less profit per smoothed attempt. */
  lemma RankingComparesProfit(cfg: Config, order: seq<string>, stats: map<string, Stats>, i: nat, j: nat)
    requires (forall b | b in order :: b in stats) && cfg.priorAttempts > 0.0 && i < j < |order|
    ensures var rs := Ranking(cfg, order, stats);
            && |rs| == |order| && rs[i].builder in stats && rs[j].builder in stats
            && var a, b := stats[rs[i].builder], stats[rs[j].builder];
               a.profitWei as real * Smoothed(cfg, b) >= b.profitWei as real * Smoothed(cfg, a)
  {
    RankingIsComplete(cfg, order, stats);
    var rs := Ranking(cfg, order, stats);
    RankedByScore(cfg, order, stats, i);
    RankedByScore(cfg, order, stats, j);
    assert Ahead(rs[i], rs[j]);
    ScoreComparesProfit(cfg, stats[rs[i].builder], stats[rs[j].builder]);
  }

  /** Attempts, but at least one. */
  function Tries(st: Stats): nat {
    if st.attempts == 0 then 1 else st.attempts
  }

  lemma WinRateIs(st: Stats)
    requires st.inclusions <= st.attempts
    ensures RawWinRate(st) == st.inclusions as real / Tries(st) as real
  {
  }

  lemma ProductAsReal(p: nat, q: nat)
    ensures (p * q) as real == p as real * q as real
  {
  }

  lemma QuotientsCompare(p: nat, q: nat, r: nat, s: nat)
    requires q > 0 && s > 0
    ensures p as real / q as real < r as real / s as real <==> p * s < r * q
  {
    CrossMultiply(p as real, r as real, q as real, s as real);
    ProductAsReal(p, s);
    ProductAsReal(r, q);
  }

  lemma WinRateCompares(a: Stats, b: Stats)
    requires a.inclusions <= a.attempts && b.inclusions <= b.attempts
    ensures RawWinRate(a) < RawWinRate(b) <==> a.inclusions * Tries(b) < b.inclusions * Tries(a)
  {
    WinRateIs(a);
    WinRateIs(b);
    QuotientsCompare(a.inclusions, Tries(a), b.inclusions, Tries(b));
  }

  /** Among builders with the same profit per attempt, more inclusions per attempt come first, then configured order. */
  lemma RankingBreaksTies(cfg: Config, order: seq<string>, stats: map<string, Stats>, i: nat, j: nat)
    requires (forall b | b in order :: b in stats && stats[b].inclusions <= stats[b].attempts) && i < j < |order|
    requires cfg.priorAttempts > 0.0
    ensures var rs := Ranking(cfg, order, stats);
            && |rs| == |order| && rs[i].builder in stats && rs[j].builder in stats
            && var a, b := stats[rs[i].builder], stats[rs[j].builder];
               a.profitWei as real * Smoothed(cfg, b) == b.profitWei as real * Smoothed(cfg, a) ==>
                 && a.inclusions * Tries(b) >= b.inclusions * Tries(a)
                 && (a.inclusions * Tries(b) == b.inclusions * Tries(a) ==> rs[i].position <= rs[j].position)
  {
    RankingIsComplete(cfg, order, stats);
    var rs := Ranking(cfg, order, stats);
    RankedByScore(cfg, order, stats, i);
    RankedByScore(cfg, order, stats, j);
    assert Ahead(rs[i], rs[j]);
    var a, b := stats[rs[i].builder], stats[rs[j].builder];
    ScoreComparesProfit(cfg, a, b);
    ScoreComparesProfit(cfg, b, a);
    WinRateCompares(a, b);
    WinRateCompares(b, a);
  }

  /** The names of ranked builders. */
  function Names(rs: seq<Ranked>): (names: seq<string>)
    ensures |names| == |rs| && forall i | 0 <= i < |rs| :: names[i] == rs[i].builder
  {
    seq(|rs|, i requires 0 <= i < |rs| => rs[i].builder)
  }

  lemma LastAddsName(rs: seq<Ranked>)
    requires rs != []
    ensures multiset(Names(rs)) == multiset(Names(rs[..|rs| - 1])) + multiset{rs[|rs| - 1].builder}
  {
    assert Names(rs) == Names(rs[..|rs| - 1]) + [rs[|rs| - 1].builder];
  }

  lemma {:induction false} InsertAddsName(rs: seq<Ranked>, r: Ranked)
    ensures multiset(Names(StableSort.Insert(rs, r, Ahead))) == multiset(Names(rs)) + multiset{r.builder}
  {
    var rs' := StableSort.Insert(rs, r, Ahead);
    if rs == [] || Ahead(rs[|rs| - 1], r) {
      assert Names(rs') == Names(rs) + [r.builder];
    } else {
      var m := |rs| - 1;
      InsertAddsName(rs[..m], r);
      assert Names(rs') == Names(StableSort.Insert(rs[..m], r, Ahead)) + [rs[m].builder];
      LastAddsName(rs);
    }
  }

  lemma {:induction false} SortKeepsNames(rs: seq<Ranked>)
    ensures multiset(Names(StableSort.Sort(rs, Ahead))) == multiset(Names(rs))
  {
    if rs != [] {
      var m := |rs| - 1;
      SortKeepsNames(rs[..m]);
      InsertAddsName(StableSort.Sort(rs[..m], Ahead), rs[m]);
      LastAddsName(rs);
    }
  }

  function Scores(cfg: Config, order: seq<string>, stats: map<string, Stats>): (s: seq<real>)
    requires forall b | b in order :: b in stats
    ensures |s| == |order| && forall i | 0 <= i < |order| :: s[i] == Score(cfg, stats[order[i]])
  {
    seq(|order|, i requires 0 <= i < |order| && order[i] in stats => Score(cfg, stats[order[i]]))
  }

  /** The best-ranked builder has the highest score and no smaller share than any other. */
  lemma BestGetsMost(cfg: Config, order: seq<string>, stats: map<string, Stats>, i: nat)
    requires (forall b | b in order :: b in stats) && i < |order| && 0.0 < cfg.explorationFloor < 1.0
    ensures |Ranking(cfg, order, stats)| == |order|
    ensures var k := Ranking(cfg, order, stats)[0].position;
            && k < |order| && order[k] == Ranking(cfg, order, stats)[0].builder
            && Scores(cfg, order, stats)[i] <= Scores(cfg, order, stats)[k]
            && Share(cfg.explorationFloor, Scores(cfg, order, stats), i)
               <= Share(cfg.explorationFloor, Scores(cfg, order, stats), k)
  {
    RankingIsComplete(cfg, order, stats);
    var es, rs := Entries(cfg, order, stats), Ranking(cfg, order, stats);
    assert es[i] in multiset(rs) && rs[0] in multiset(es);
    var k :| 0 <= k < |es| && es[k] == rs[0];
    var j :| 0 <= j < |rs| && rs[j] == es[i];
    assert j == 0 || Ahead(rs[0], rs[j]);
    ShareFollowsScore(cfg.explorationFloor, Scores(cfg, order, stats), i, k);
  }

  /** A map from distinct names to the numbers beside them. */
  method ByName(names: seq<string>, xs: seq<real>) returns (out: map<string, real>)
    requires |names| == |xs| && forall i, j | 0 <= i < j < |names| :: names[i] != names[j]
    ensures |out| <= |names|
    ensures forall i | 0 <= i < |names| :: names[i] in out && out[names[i]] == xs[i]
  {
    out := map[];
    for i := 0 to |names|
      invariant |out| <= i
      invariant forall j | 0 <= j < i :: names[j] in out && out[names[j]] == xs[j]
    {
      out := out[names[i] := xs[i]];
    }
  }

  class Selector {
    const order: seq<string>
    const cfg: Config
    var stats: map<string, Stats>
    ghost var history: seq<Entry>

    /** Each builder's totals are those of the whole history. */
    ghost predicate Valid()
      reads this
    {
      && 0.0 < cfg.explorationFloor < 1.0 && cfg.priorAttempts > 0.0
      && (forall i, j | 0 <= i < j < |order| :: order[i] != order[j])
      && (forall b :: b in order <==> b in stats)
      && (forall b | b in order :: stats[b] == Tally(history, b))
    }

    constructor (builders: seq<string>, config: Config)
      ensures Valid() && history == [] && order == Admitted(builders) && cfg == Effective(config)
    {
      var names: seq<string> := [];
      var fresh0: map<string, Stats> := map[];
      for i := 0 to |builders|
        invariant names == Admitted(builders[..i])
        invariant forall b :: b in names <==> b in fresh0
        invariant forall b | b in names :: fresh0[b] == Stats(0, 0, 0)
      {
        assert builders[..i + 1][..i] == builders[..i];
        var b := builders[i];
        if b == "" || b in names {
          continue;
        }
        names := names + [b];
        fresh0 := fresh0[b := Stats(0, 0, 0)];
      }
      assert builders[..|builders|] == builders;
      AdmittedOnce(builders);
      order, stats, cfg, history := names, fresh0, Effective(config), [];
    }

    method Record(builder: string, o: Outcome)
      requires Valid()
      modifies this
      ensures Valid() && history == old(history) + [Entry(builder, o)]
    {
      forall b ensures Tally(history + [Entry(builder, o)], b)
                    == if builder == b then Folded(Tally(history, b), o) else Tally(history, b)
      {
        TallyAppend(history, Entry(builder, o), b);
      }
      history := history + [Entry(builder, o)];
      if builder !in stats {
        return;
      }
      var st := stats[builder];
      st := st.(attempts := st.attempts + 1);
      if o.included {
        st := st.(inclusions := st.inclusions + 1);
      }
      if o.profitWei.Some? && o.profitWei.value != 0 {
        st := st.(profitWei := st.profitWei + o.profitWei.value);
      }
      stats := stats[builder := st];
    }

    method Rank() returns (ranked: seq<string>)
      requires Valid()
      ensures var rs := Ranking(cfg, order, stats);
              |ranked| == |rs| && forall i | 0 <= i < |rs| :: ranked[i] == rs[i].builder
      ensures multiset(ranked) == multiset(order)
    {
      SortKeepsNames(Entries(cfg, order, stats));
      assert Names(Entries(cfg, order, stats)) == order;
      ranked := Names(Ranking(cfg, order, stats));
    }

    method Best() returns (b: string)
      requires Valid()
      ensures order == [] ==> b == ""
      ensures order != [] ==> |Ranking(cfg, order, stats)| == |order| && b == Ranking(cfg, order, stats)[0].builder
    {
      RankingIsComplete(cfg, order, stats);
      var r := Rank();
      if |r| == 0 {
        return "";
      }
      b := r[0];
    }

    /** The share of every builder, by name. */
    method Allocation() returns (out: map<string, real>)
      requires Valid()
      ensures |out| <= |order|
      ensures forall i | 0 <= i < |order| ::
                order[i] in out && out[order[i]] == Shares(cfg.explorationFloor, Scores(cfg, order, stats))[i]
    {
      var shares := SplitVolume(cfg.explorationFloor, Scores(cfg, order, stats));
      out := ByName(order, shares);
    }

    /**
     Samples a builder. `r` is the random number in [0, 1), or `None` without a generator.
     The sampled builder is the one whose interval of the shares holds `r`.
     */
    method Pick(r: Option<real>) returns (b: string, ghost at: nat)
      requires Valid() && (r.Some? ==> 0.0 <= r.value < 1.0)
      ensures order == [] ==> b == ""
      ensures order != [] && r.None? ==>
                |Ranking(cfg, order, stats)| == |order| && b == Ranking(cfg, order, stats)[0].builder
      ensures order != [] && r.Some? ==>
                && at < |order| && b == order[at]
                && InInterval(Shares(cfg.explorationFloor, Scores(cfg, order, stats)), at, r.value)
    {
      at := 0;
      if |order| == 0 {
        return "", at;
      }
      var alloc := Allocation();
      if r.None? {
        b := Best();
        return;
      }
      var shares := seq(|order|, i requires 0 <= i < |order| && order[i] in alloc => alloc[order[i]]);
      assert shares == Shares(cfg.explorationFloor, Scores(cfg, order, stats));
      SharesSumToOne(cfg.explorationFloor, Scores(cfg, order, stats));
      var i := Sample(shares, r.value);
      b, at := order[i], i;
    }
  }
}
