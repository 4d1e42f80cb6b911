/**
 The import-cycle check of the architecture analyzer: a depth-first search that
 reports the part of its path that an import closes.
 */
module ImportCycles {

  type Package = string

  /** For each package its import targets, in the order in which the search happens to visit them. */
  type Imports = map<Package, seq<Package>>

  /** The marks of packages; a package without one is not marked. */
  type Flags = map<Package, bool>

  function Targets(imports: Imports, p: Package): seq<Package> {
    if p in imports then imports[p] else []
  }

  /** Each package of `w` imports the next one. */
  ghost predicate Chain(imports: Imports, w: seq<Package>) {
    forall i | 0 <= i < |w| - 1 :: w[i + 1] in Targets(imports, w[i])
  }

  ghost predicate Distinct(w: seq<Package>) {
    forall i, j | 0 <= i < j < |w| :: w[i] != w[j]
  }

  /** At least two packages, all different, each importing the next and the last importing the first. */
  ghost predicate IsCycle(imports: Imports, c: seq<Package>) {
    |c| >= 2 && Distinct(c) && Chain(imports, c) && c[0] in Targets(imports, c[|c| - 1])
  }

  ghost predicate Leads(imports: Imports, pkgs: set<Package>, w: seq<Package>, p: Package) {
    w != [] && Chain(imports, w) && w[0] in pkgs && w[|w| - 1] == p
  }

  ghost predicate Reachable(imports: Imports, pkgs: set<Package>, p: Package) {
    exists w :: Leads(imports, pkgs, w, p)
  }

  // ----- finishing order

  /** Some report is closed by the import of `t` by `p`: it starts with `t` and ends with `p`. */
  ghost predicate Closes(cycles: seq<seq<Package>>, p: Package, t: Package) {
    exists c | c in cycles :: c != [] && c[0] == t && c[|c| - 1] == p
  }

  ghost predicate Covered(imports: Imports, cycles: seq<seq<Package>>, p: Package, done: seq<Package>) {
    forall t | t in Targets(imports, p) :: t in done || Closes(cycles, p, t)
  }

  /** Every target of a finished package is finished no later than it, or closes a report with it. */
  ghost predicate Ordered(imports: Imports, cycles: seq<seq<Package>>, finished: seq<Package>) {
    forall i | 0 <= i < |finished| :: Covered(imports, cycles, finished[i], finished[..i + 1])
  }

  lemma OrderedExtends(imports: Imports, cycles: seq<seq<Package>>, finished: seq<Package>, p: Package)
    requires Ordered(imports, cycles, finished) && Covered(imports, cycles, p, finished + [p])
    ensures Ordered(imports, cycles, finished + [p])
  {
    var f := finished + [p];
    forall i | 0 <= i < |f| ensures Covered(imports, cycles, f[i], f[..i + 1]) {
      if i < |finished| { assert f[..i + 1] == finished[..i + 1]; } else { assert f[..i + 1] == f; }
    }
  }

  /** More reports close no fewer imports. */
  lemma StillCloses(cycles: seq<seq<Package>>, cycles': seq<seq<Package>>, p: Package, t: Package)
    requires cycles <= cycles' && Closes(cycles, p, t)
    ensures Closes(cycles', p, t)
  {
    var c :| c in cycles && c != [] && c[0] == t && c[|c| - 1] == p;
    assert c in cycles';
  }

  lemma StillOrdered(
    imports: Imports, cycles: seq<seq<Package>>, cycles': seq<seq<Package>>, finished: seq<Package>)
    requires cycles <= cycles' && Ordered(imports, cycles, finished)
    ensures Ordered(imports, cycles', finished)
  {
    forall i, t | 0 <= i < |finished| && t in Targets(imports, finished[i])
      ensures t in finished[..i + 1] || Closes(cycles', finished[i], t)
    {
      assert Covered(imports, cycles, finished[i], finished[..i + 1]);
      if Closes(cycles, finished[i], t) { StillCloses(cycles, cycles', finished[i], t); }
    }
  }

  /** No import along the chain closes a report. */
  ghost predicate Unreported(cycles: seq<seq<Package>>, w: seq<Package>) {
    forall i | 0 <= i < |w| - 1 :: !Closes(cycles, w[i], w[i + 1])
  }

  lemma TargetIsEarlier(
    imports: Imports, cycles: seq<seq<Package>>, finished: seq<Package>, m: nat, t: Package)
    requires Ordered(imports, cycles, finished) && m < |finished|
    requires t in Targets(imports, finished[m]) && !Closes(cycles, finished[m], t)
    ensures t in finished[..m + 1]
  {
    assert Covered(imports, cycles, finished[m], finished[..m + 1]);
  }

  /** Over imports that close no report, a chain never moves to a later position of the finishing list. */
  lemma {:induction false} ChainDescends(
    imports: Imports, cycles: seq<seq<Package>>, finished: seq<Package>, w: seq<Package>, k: nat, i: nat)
    requires Ordered(imports, cycles, finished) && Chain(imports, w) && Unreported(cycles, w) && i < |w|
    requires k < |finished| && w[0] == finished[k]
    ensures w[i] in finished[..k + 1]
    decreases i
  {
    if i > 0 {
      ChainDescends(imports, cycles, finished, w, k, i - 1);
      var m :| 0 <= m < k + 1 && finished[m] == w[i - 1];
      assert w[i - 1 + 1] in Targets(imports, w[i - 1]) && !Closes(cycles, w[i - 1], w[i - 1 + 1]);
      TargetIsEarlier(imports, cycles, finished, m, w[i]);
      assert finished[..m + 1] <= finished[..k + 1];
    }
  }

  lemma ChainSuffix(imports: Imports, cycles: seq<seq<Package>>, w: seq<Package>, i: nat)
    requires Chain(imports, w) && Unreported(cycles, w) && i < |w|
    ensures Chain(imports, w[i..]) && Unreported(cycles, w[i..])
  {
    forall j | 0 <= j < |w[i..]| - 1
      ensures w[i..][j + 1] in Targets(imports, w[i..][j]) && !Closes(cycles, w[i..][j], w[i..][j + 1])
    {
      assert w[i + j + 1] in Targets(imports, w[i + j]) && !Closes(cycles, w[i + j], w[i + j + 1]);
    }
  }

  /** So such a chain that comes back to its start never left it. */
  lemma ClosedChainStays(
    imports: Imports, cycles: seq<seq<Package>>, finished: seq<Package>, w: seq<Package>, i: nat)
    requires Ordered(imports, cycles, finished) && Distinct(finished)
    requires Chain(imports, w) && Unreported(cycles, w) && i < |w|
    requires w[0] in finished && w[|w| - 1] == w[0]
    ensures w[i] == w[0]
  {
    var k :| 0 <= k < |finished| && finished[k] == w[0];
    ChainDescends(imports, cycles, finished, w, k, i);
    var m :| 0 <= m < k + 1 && finished[m] == w[i];
    ChainSuffix(imports, cycles, w, i);
    ChainDescends(imports, cycles, finished, w[i..], m, |w| - 1 - i);
    var n :| 0 <= n < m + 1 && finished[n] == w[0];
  }

  /** Nothing that a finished package imports is left unfinished. */
  ghost predicate Complete(imports: Imports, finished: seq<Package>) {
    forall p, t | p in finished && t in Targets(imports, p) :: t in finished
  }

  lemma {:induction false} ChainIsFinished(imports: Imports, finished: seq<Package>, w: seq<Package>, i: nat)
    requires Complete(imports, finished) && Chain(imports, w) && i < |w| && w[0] in finished
    ensures w[i] in finished
  {
    if i > 0 {
      ChainIsFinished(imports, finished, w, i - 1);
      assert w[i - 1 + 1] in Targets(imports, w[i - 1]);
    }
  }

  /** A reachable chain that comes back to its start. */
  ghost predicate ClosedFrom(imports: Imports, pkgs: set<Package>, w: seq<Package>) {
    w != [] && Chain(imports, w) && w[|w| - 1] == w[0] && Reachable(imports, pkgs, w[0])
  }

  /** When everything is finished in order, a closed chain without reported imports is one package over and over. */
  lemma OrderedHasNoLoop(
    imports: Imports, cycles: seq<seq<Package>>, pkgs: set<Package>, finished: seq<Package>, w: seq<Package>, i: nat)
    requires Ordered(imports, cycles, finished) && Distinct(finished) && Complete(imports, finished)
    requires forall p | p in pkgs :: p in finished
    requires ClosedFrom(imports, pkgs, w) && Unreported(cycles, w) && i < |w|
    ensures w[i] == w[0]
  {
    var lead :| Leads(imports, pkgs, lead, w[0]);
    ChainIsFinished(imports, finished, lead, |lead| - 1);
    ClosedChainStays(imports, cycles, finished, w, i);
  }

  /** The position after `i` on a cycle. */
  function Next(c: seq<Package>, i: nat): nat
    requires i < |c|
  {
    if i == |c| - 1 then 0 else i + 1
  }

  /** So every reachable cycle has an import that closes a report. */
  lemma CycleHasReportedImport(
    imports: Imports, cycles: seq<seq<Package>>, pkgs: set<Package>, finished: seq<Package>, c: seq<Package>)
    returns (i: nat)
    requires Ordered(imports, cycles, finished) && Distinct(finished) && Complete(imports, finished)
    requires forall p | p in pkgs :: p in finished
    requires IsCycle(imports, c) && Reachable(imports, pkgs, c[0])
    ensures i < |c| && Closes(cycles, c[i], c[Next(c, i)])
  {
    var w := c + [c[0]];
    assert ClosedFrom(imports, pkgs, w) && w[1] != w[0];
    if Unreported(cycles, w) { OrderedHasNoLoop(imports, cycles, pkgs, finished, w, 1); }
    i :| 0 <= i < |w| - 1 && Closes(cycles, w[i], w[i + 1]);
  }

  ghost predicate ReachableCycle(imports: Imports, pkgs: set<Package>, c: seq<Package>) {
    IsCycle(imports, c) && Reachable(imports, pkgs, c[0])
  }

  /** Some import along the cycle closes a report. */
  ghost predicate HasReportedImport(cycles: seq<seq<Package>>, c: seq<Package>) {
    exists i | 0 <= i < |c| :: Closes(cycles, c[i], c[Next(c, i)])
  }

  /** One package over and over. */
  ghost predicate OnePackage(w: seq<Package>) {
    forall i | 0 <= i < |w| :: w[i] == w[0]
  }

  /** Every reachable cycle has a reported import, and without those imports there is no cycle left. */
  ghost predicate AllFound(imports: Imports, pkgs: set<Package>, cycles: seq<seq<Package>>) {
    && (forall c | ReachableCycle(imports, pkgs, c) :: HasReportedImport(cycles, c))
    && (forall w | ClosedFrom(imports, pkgs, w) && Unreported(cycles, w) :: OnePackage(w))
  }

  /** A search that has finished everything the packages import has found all cycles in this sense. */
  lemma FinishedSearch(imports: Imports, pkgs: set<Package>, cycles: seq<seq<Package>>, finished: seq<Package>)
    requires Ordered(imports, cycles, finished) && Distinct(finished) && Complete(imports, finished)
    requires forall p | p in pkgs :: p in finished
    ensures AllFound(imports, pkgs, cycles)
  {
    forall w | ClosedFrom(imports, pkgs, w) && Unreported(cycles, w) ensures OnePackage(w) {
      forall i | 0 <= i < |w| ensures w[i] == w[0] { OrderedHasNoLoop(imports, cycles, pkgs, finished, w, i); }
    }
    forall c | ReachableCycle(imports, pkgs, c) ensures HasReportedImport(cycles, c) {
      var i := CycleHasReportedImport(imports, cycles, pkgs, finished, c);
    }
  }

  lemma ReportedImportNeedsReport(cycles: seq<seq<Package>>, c: seq<Package>)
    requires HasReportedImport(cycles, c)
    ensures cycles != []
  {
  }

  /** So there is a report exactly when there is a cycle. */
  lemma ReportsIffCycle(imports: Imports, pkgs: set<Package>, cycles: seq<seq<Package>>)
    requires AllFound(imports, pkgs, cycles) && forall c | c in cycles :: ReachableCycle(imports, pkgs, c)
    ensures cycles != [] <==> exists c :: ReachableCycle(imports, pkgs, c)
  {
    if cycles != [] { assert ReachableCycle(imports, pkgs, cycles[0]); }
    if c :| ReachableCycle(imports, pkgs, c) { ReportedImportNeedsReport(cycles, c); }
  }

  ghost function Roots(pkgs: seq<Package>): set<Package> {
    set p | p in pkgs
  }

  // ----- the search

  predicate IsSet(flags: Flags, p: Package) {
    p in flags && flags[p]
  }

  ghost function SetFlags(flags: Flags): set<Package> {
    set p | p in flags && flags[p]
  }

  ghost function Members(s: seq<Package>): set<Package> {
    set p | p in s
  }

  lemma AppendMembers(s: seq<Package>, p: Package)
    ensures Members(s + [p]) == Members(s) + {p}
    ensures Distinct(s) && p !in Members(s) ==> Distinct(s + [p])
    ensures Distinct(s + [p]) ==> Distinct(s) && p !in Members(s)
  {
    assert forall x | x in Members(s + [p]) :: x in Members(s) || x == p;
    assert forall x | x in s :: x in s + [p];
    assert p in s + [p];
    if Distinct(s + [p]) {
      assert forall i | 0 <= i < |s| :: s[i] == (s + [p])[i] && s[i] != (s + [p])[|s|];
    }
  }

  lemma PrefixMembers(s: seq<Package>, t: seq<Package>)
    requires s <= t
    ensures Members(s) <= Members(t)
  {
  }

  lemma SetFlagsAfter(flags: Flags, p: Package, b: bool)
    ensures SetFlags(flags[p := b]) == if b then SetFlags(flags) + {p} else SetFlags(flags) - {p}
  {
  }

  /** Marking a package leaves fewer unmarked ones. */
  lemma FewerLeft(visited: Flags, universe: set<Package>, p: Package)
    requires p in universe && !IsSet(visited, p)
    ensures universe - (SetFlags(visited) + {p}) < universe - SetFlags(visited)
  {
    assert p in universe - SetFlags(visited) && p !in universe - (SetFlags(visited) + {p});
  }

  /** The import of `t` by `p` has been dealt with: `t` is finished, or `p` itself, or closes a report. */
  ghost predicate Handled(cycles: seq<seq<Package>>, finished: seq<Package>, p: Package, t: Package) {
    t in finished || t == p || Closes(cycles, p, t)
  }

  lemma StillHandled(
    cycles: seq<seq<Package>>, cycles': seq<seq<Package>>, finished: seq<Package>, finished': seq<Package>,
    p: Package, t: Package)
    requires cycles <= cycles' && finished <= finished' && Handled(cycles, finished, p, t)
    ensures Handled(cycles', finished', p, t)
  {
    if Closes(cycles, p, t) { StillCloses(cycles, cycles', p, t); }
  }

  /** All of `targets` have been dealt with and seen. */
  ghost predicate AllHandled(
    cycles: seq<seq<Package>>, path: seq<Package>, finished: seq<Package>, p: Package, targets: seq<Package>)
  {
    forall t | t in targets :: Handled(cycles, finished, p, t) && (t in path || t in finished)
  }

  lemma OneMoreHandled(
    cycles: seq<seq<Package>>, cycles': seq<seq<Package>>, path: seq<Package>, finished: seq<Package>,
    finished': seq<Package>, p: Package, targets: seq<Package>, i: nat)
    requires cycles <= cycles' && finished <= finished' && i < |targets|
    requires AllHandled(cycles, path, finished, p, targets[..i])
    requires Handled(cycles', finished', p, targets[i]) && (targets[i] in path || targets[i] in finished')
    ensures AllHandled(cycles', path, finished', p, targets[..i + 1])
  {
    assert targets[..i + 1] == targets[..i] + [targets[i]];
    forall t | t in targets[..i] ensures Handled(cycles', finished', p, t) && (t in path || t in finished') {
      StillHandled(cycles, cycles', finished, finished', p, t);
    }
  }

  lemma CoveredBy(
    imports: Imports, cycles: seq<seq<Package>>, path: seq<Package>, p: Package, finished: seq<Package>)
    requires AllHandled(cycles, path, finished, p, Targets(imports, p))
    ensures Covered(imports, cycles, p, finished + [p])
  {
  }

  /** What finished packages import has been seen: it is finished or on the path. */
  ghost predicate TargetsSeen(imports: Imports, path: seq<Package>, finished: seq<Package>) {
    forall p, t | p in finished && t in Targets(imports, p) :: t in path || t in finished
  }

  /** `universe` holds the targets of all its packages. */
  ghost predicate Closed(imports: Imports, universe: set<Package>) {
    forall p | p in universe :: Members(Targets(imports, p)) <= universe
  }

  lemma TargetIsKnown(imports: Imports, universe: set<Package>, path: seq<Package>, tgt: Package)
    requires Closed(imports, universe) && Members(path) <= universe
    requires path != [] && tgt in Targets(imports, path[|path| - 1])
    ensures tgt in universe
  {
    assert path[|path| - 1] in Members(path) && tgt in Members(Targets(imports, path[|path| - 1]));
  }

  ghost function FirstIndex(path: seq<Package>, tgt: Package): (k: nat)
    requires tgt in path
    ensures k < |path| && path[k] == tgt && tgt !in path[..k]
  {
    if path[0] == tgt then 0
    else
      assert path == [path[0]] + path[1..];
      var k := FirstIndex(path[1..], tgt) + 1;
      assert path[..k] == [path[0]] + path[1..][..k - 1];
      k
  }

  /** The part of `path` from the first occurrence of `tgt` on. */
  method PathFrom(path: seq<Package>, tgt: Package) returns (cycle: seq<Package>)
    requires tgt in path
    ensures cycle == path[FirstIndex(path, tgt)..]
  {
    cycle := [];
    var started := false;
    ghost var k := FirstIndex(path, tgt);
    for i := 0 to |path|
      invariant started <==> k < i
      invariant cycle == if started then path[k..i] else []
    {
      assert i < k ==> path[i] == path[..k][i];
      if path[i] == tgt || started {
        started := true;
        cycle := cycle + [path[i]];
      }
    }
    assert path[k..|path|] == path[k..];
  }

  /** The colours: on the path, finished, or not seen. */
  ghost predicate Coloured(visited: Flags, recStack: Flags, path: seq<Package>, finished: seq<Package>) {
    && Distinct(path) && Distinct(finished) && Members(path) !! Members(finished)
    && SetFlags(visited) == Members(path) + Members(finished)
    && SetFlags(recStack) == Members(path)
  }

  lemma SeenAfterLeave(imports: Imports, path: seq<Package>, finished: seq<Package>, p: Package)
    requires TargetsSeen(imports, path + [p], finished)
    requires forall t | t in Targets(imports, p) :: t in path + [p] || t in finished
    ensures TargetsSeen(imports, path, finished + [p])
  {
  }

  /** The path is a chain of known packages from one of the given ones. */
  ghost predicate OnRoute(imports: Imports, pkgs: set<Package>, universe: set<Package>, path: seq<Package>) {
    Members(path) <= universe && Chain(imports, path) && (path != [] ==> path[0] in pkgs)
  }

  ghost predicate Reported(imports: Imports, pkgs: set<Package>, cycles: seq<seq<Package>>) {
    forall c | c in cycles :: ReachableCycle(imports, pkgs, c)
  }

  lemma ColourOf(visited: Flags, recStack: Flags, path: seq<Package>, finished: seq<Package>, p: Package)
    requires Coloured(visited, recStack, path, finished)
    ensures IsSet(recStack, p) <==> p in path
    ensures IsSet(visited, p) <==> p in path || p in finished
    ensures p in path ==> p !in finished
  {
    assert IsSet(recStack, p) <==> p in SetFlags(recStack);
    assert IsSet(visited, p) <==> p in SetFlags(visited);
    assert p in path <==> p in Members(path);
    assert p in finished <==> p in Members(finished);
  }

  lemma ColouredEnter(visited: Flags, recStack: Flags, path: seq<Package>, finished: seq<Package>, p: Package)
    requires Coloured(visited, recStack, path, finished) && !IsSet(visited, p)
    ensures Coloured(visited[p := true], recStack[p := true], path + [p], finished)
  {
    SetFlagsAfter(visited, p, true);
    SetFlagsAfter(recStack, p, true);
    AppendMembers(path, p);
  }

  lemma ColouredLeave(visited: Flags, recStack: Flags, path: seq<Package>, finished: seq<Package>, p: Package)
    requires Coloured(visited, recStack, path + [p], finished)
    ensures Coloured(visited, recStack[p := false], path, finished + [p])
  {
    SetFlagsAfter(recStack, p, false);
    AppendMembers(path, p);
    AppendMembers(finished, p);
  }

  lemma OnRouteEnter(imports: Imports, pkgs: set<Package>, universe: set<Package>, path: seq<Package>, p: Package)
    requires OnRoute(imports, pkgs, universe, path) && p in universe
    requires if path == [] then p in pkgs else p in Targets(imports, path[|path| - 1])
    ensures OnRoute(imports, pkgs, universe, path + [p])
  {
  }

  lemma OnRouteLeave(imports: Imports, pkgs: set<Package>, universe: set<Package>, path: seq<Package>, p: Package)
    requires OnRoute(imports, pkgs, universe, path + [p])
    ensures OnRoute(imports, pkgs, universe, path)
  {
    AppendMembers(path, p);
    var w := path + [p];
    forall i | 0 <= i < |path| - 1 ensures path[i + 1] in Targets(imports, path[i]) {
      assert w[i + 1] in Targets(imports, w[i]);
    }
  }

  /** The path from `tgt` on is a cycle when its last package imports `tgt` and is another one. */
  lemma SuffixIsCycle(imports: Imports, pkgs: set<Package>, universe: set<Package>, path: seq<Package>, k: nat)
    requires OnRoute(imports, pkgs, universe, path) && Distinct(path) && k < |path| - 1
    requires path[k] in Targets(imports, path[|path| - 1])
    ensures IsCycle(imports, path[k..]) && Reachable(imports, pkgs, path[k])
  {
    var c := path[k..];
    forall i | 0 <= i < |c| - 1 ensures c[i + 1] in Targets(imports, c[i]) {
      assert path[k + i + 1] in Targets(imports, path[k + i]);
    }
    assert Leads(imports, pkgs, path[..k + 1], path[k]);
  }

  lemma OneMoreReport(
    imports: Imports, pkgs: set<Package>, cycles: seq<seq<Package>>, finished: seq<Package>, c: seq<Package>)
    requires Reported(imports, pkgs, cycles) && Ordered(imports, cycles, finished)
    requires ReachableCycle(imports, pkgs, c)
    ensures Reported(imports, pkgs, cycles + [c]) && Ordered(imports, cycles + [c], finished)
    ensures Closes(cycles + [c], c[|c| - 1], c[0])
  {
    assert c in cycles + [c];
    StillOrdered(imports, cycles, cycles + [c], finished);
  }

  lemma OtherThanLast(path: seq<Package>, k: nat)
    requires Distinct(path) && k < |path| - 1
    ensures path[k] != path[|path| - 1] && path[k..][0] == path[k] && path[k..][|path| - k - 1] == path[|path| - 1]
  {
  }

  class Search {
    const imports: Imports
    var visited: Flags
    var recStack: Flags
    var path: seq<Package>
    var cycles: seq<seq<Package>>
    ghost const pkgs: set<Package>
    ghost const universe: set<Package>
    ghost var finished: seq<Package>

    ghost predicate Valid()
      reads this
    {
      && Closed(imports, universe)
      && Coloured(visited, recStack, path, finished)
      && OnRoute(imports, pkgs, universe, path)
      && Reported(imports, pkgs, cycles)
      && Ordered(imports, cycles, finished)
      && TargetsSeen(imports, path, finished)
    }

    constructor (imports: Imports, ghost pkgs: set<Package>, ghost universe: set<Package>)
      requires Closed(imports, universe)
      ensures this.imports == imports && this.pkgs == pkgs && this.universe == universe
      ensures Valid() && path == [] && cycles == [] && finished == []
    {
      this.imports, this.pkgs, this.universe := imports, pkgs, universe;
      visited, recStack, path, cycles, finished := map[], map[], [], [], [];
    }

    /** Reports the cycle that an import of a package on the path closes, unless it is a self-import. */
    method Close(tgt: Package)
      requires Valid() && path != [] && tgt in path && tgt in Targets(imports, path[|path| - 1])
      modifies `cycles
      ensures Valid()
      ensures cycles == if tgt == path[|path| - 1] then old(cycles) else old(cycles) + [path[FirstIndex(path, tgt)..]]
      ensures Handled(cycles, finished, path[|path| - 1], tgt)
    {
      var cycle := PathFrom(path, tgt);
      if |cycle| > 1 {
        SuffixIsCycle(imports, pkgs, universe, path, FirstIndex(path, tgt));
        OneMoreReport(imports, pkgs, cycles, finished, cycle);
        OtherThanLast(path, FirstIndex(path, tgt));
        cycles := cycles + [cycle];
      }
    }

    /** Marks `node` and puts it on the path. */
    method Enter(node: Package)
      requires Valid() && !IsSet(visited, node) && node in universe
      requires if path == [] then node in pkgs else node in Targets(imports, path[|path| - 1])
      modifies `visited, `recStack, `path
      ensures Valid() && path == old(path) + [node]
      ensures SetFlags(visited) == SetFlags(old(visited)) + {node}
    {
      ColouredEnter(visited, recStack, path, finished, node);
      OnRouteEnter(imports, pkgs, universe, path, node);
      SetFlagsAfter(visited, node, true);
      visited := visited[node := true];
      recStack := recStack[node := true];
      path := path + [node];
    }

    /** Takes the last package off the path; all its targets have been seen. */
    method Leave()
      requires Valid() && path != []
      requires var node := path[|path| - 1]; Covered(imports, cycles, node, finished + [node])
      requires forall t | t in Targets(imports, path[|path| - 1]) :: t in path || t in finished
      modifies `recStack, `path, `finished
      ensures Valid() && path == old(path)[..|old(path)| - 1]
      ensures finished == old(finished) + [old(path)[|old(path)| - 1]]
    {
      ghost var node := path[|path| - 1];
      assert path == path[..|path| - 1] + [node];
      ColouredLeave(visited, recStack, path[..|path| - 1], finished, node);
      OnRouteLeave(imports, pkgs, universe, path[..|path| - 1], node);
      OrderedExtends(imports, cycles, finished, node);
      SeenAfterLeave(imports, path[..|path| - 1], finished, node);
      recStack := recStack[path[|path| - 1] := false];
      path := path[..|path| - 1];
      finished := finished + [node];
    }

    /** One import of the last package on the path: descend, report, or pass. */
    method Visit(tgt: Package)
      requires Valid() && path != [] && tgt in Targets(imports, path[|path| - 1])
      modifies `visited, `recStack, `path, `cycles, `finished
      ensures Valid() && path == old(path)
      ensures old(finished) <= finished && old(cycles) <= cycles
      ensures SetFlags(old(visited)) <= SetFlags(visited)
      ensures Handled(cycles, finished, path[|path| - 1], tgt) && (tgt in path || tgt in finished)
      ensures tgt in path ==>
                cycles == if tgt == path[|path| - 1] then old(cycles) else old(cycles) + [path[FirstIndex(path, tgt)..]]
      ensures tgt in old(finished) ==> cycles == old(cycles)
      decreases universe - SetFlags(visited), 1
    {
      ColourOf(visited, recStack, path, finished, tgt);
      if !IsSet(visited, tgt) {
        TargetIsKnown(imports, universe, path, tgt);
        Dfs(tgt);
      } else if IsSet(recStack, tgt) {
        Close(tgt);
      }
    }

    /** All imports of the last package on the path. */
    method VisitAll(node: Package)
      requires Valid() && path != [] && path[|path| - 1] == node
      modifies `visited, `recStack, `path, `cycles, `finished
      ensures Valid() && path == old(path)
      ensures old(finished) <= finished && old(cycles) <= cycles
      ensures SetFlags(old(visited)) <= SetFlags(visited)
      ensures AllHandled(cycles, path, finished, node, Targets(imports, node))
      decreases universe - SetFlags(visited), 2
    {
      if node in imports {
        var targets := imports[node];
        for i := 0 to |targets|
          invariant Valid() && path == old(path)
          invariant old(finished) <= finished && old(cycles) <= cycles
          invariant SetFlags(old(visited)) <= SetFlags(visited)
          invariant AllHandled(cycles, path, finished, node, targets[..i])
        {
          ghost var cycles0, finished0 := cycles, finished;
          Visit(targets[i]);
          OneMoreHandled(cycles0, cycles, path, finished0, finished, node, targets, i);
        }
        assert targets[..|targets|] == targets;
      }
    }

    method Dfs(node: Package)
      requires Valid() && !IsSet(visited, node) && node in universe
      requires if path == [] then node in pkgs else node in Targets(imports, path[|path| - 1])
      modifies `visited, `recStack, `path, `cycles, `finished
      ensures Valid() && path == old(path) && node in finished
      ensures old(finished) <= finished && old(cycles) <= cycles
      ensures SetFlags(old(visited)) <= SetFlags(visited)
      decreases universe - SetFlags(visited), 0
    {
      FewerLeft(visited, universe, node);
      Enter(node);
      VisitAll(node);
      CoveredBy(imports, cycles, path, node, finished);
      Leave();
    }
  }

  /**
   Each report is an import cycle reachable from the packages, and every such cycle has an
   import that closes a report: without those imports there would be no cycle left.
   */
  method DetectCycles(pkgs: seq<Package>, imports: Imports) returns (cycles: seq<seq<Package>>)
    ensures forall c | c in cycles :: ReachableCycle(imports, Roots(pkgs), c)
    ensures AllFound(imports, Roots(pkgs), cycles)
    ensures cycles != [] <==> exists c :: ReachableCycle(imports, Roots(pkgs), c)
  {
    ghost var roots := Roots(pkgs);
    ghost var universe := roots + (set p, t | p in imports && t in imports[p] :: t);
    var s := new Search(imports, roots, universe);
    for i := 0 to |pkgs|
      invariant s.Valid() && s.path == []
      invariant forall j | 0 <= j < i :: pkgs[j] in s.finished
    {
      if !IsSet(s.visited, pkgs[i]) {
        s.Dfs(pkgs[i]);
      } else {
        assert pkgs[i] in SetFlags(s.visited);
      }
    }
    cycles := s.cycles;
    FinishedSearch(imports, roots, cycles, s.finished);
    ReportsIffCycle(imports, roots, cycles);
  }
}
