/** Enumeration of the elementary cycles of a directed graph with an explicit stack of paths. */
module Cycles {
  import opened Collections
  import opened Rotations

  /** Node labels; the algorithm only compares them. */
  type Node = int

  /** A dictionary from a parent to its collection of children. */
  type Graph = map<Node, seq<Node>>

  ghost predicate Edge(g: Graph, u: Node, v: Node) {
    u in g && v in g[u]
  }

  function Last(p: seq<Node>): Node
    requires |p| > 0
  {
    p[|p| - 1]
  }

  ghost predicate SimplePath(g: Graph, p: seq<Node>) {
    && |p| > 0
    && Distinct(p)
    && forall i :: 0 <= i < |p| - 1 ==> Edge(g, p[i], p[i + 1])
  }

  ghost predicate SimplePathFrom(g: Graph, root: Node, p: seq<Node>) {
    SimplePath(g, p) && p[0] == root
  }

  ghost predicate ElementaryCycle(g: Graph, c: seq<Node>) {
    SimplePath(g, c) && Edge(g, Last(c), c[0])
  }

  /** `c` is among the cycles up to rotation. */
  ghost predicate Known(cycles: seq<seq<Node>>, c: seq<Node>) {
    exists m :: 0 <= m < |cycles| && Rotation(cycles[m], c)
  }

  /** What every list of yielded cycles satisfies. */
  ghost predicate Sound(g: Graph, cycles: seq<seq<Node>>) {
    && (forall m :: 0 <= m < |cycles| ==> ElementaryCycle(g, cycles[m]))
    && (forall m, n :: 0 <= m < n < |cycles| ==> !Rotation(cycles[m], cycles[n]))
  }

  /** Every cycle closed by an edge from the end of `p` back into `p` is known. */
  ghost predicate Closed(g: Graph, cycles: seq<seq<Node>>, p: seq<Node>) {
    |p| > 0 && Last(p) in g ==>
      forall i :: 0 <= i < |p| && p[i] in g[Last(p)] ==> Known(cycles, p[i..])
  }

  ghost predicate Explored(g: Graph, cycles: seq<seq<Node>>, root: Node) {
    forall p :: SimplePathFrom(g, root, p) ==> Closed(g, cycles, p)
  }

  ghost predicate Reaches(g: Graph, root: Node, x: Node) {
    exists p :: SimplePathFrom(g, root, p) && Last(p) == x
  }

  // ---------------------------------------------------------------------------
  // The termination measure: a stack of simple paths, each worth a power of the branching bound

  ghost function AllNodes(g: Graph): set<Node> {
    g.Keys + (set u, i | u in g && 0 <= i < |g[u]| :: g[u][i])
  }

  lemma BranchingBound(g: Graph) returns (b: nat)
    ensures forall u <- g :: |g[u]| < b
  {
    b := 1;
    var todo := g.Keys;
    while todo != {}
      invariant forall u <- g :: u in todo || |g[u]| < b
    {
      var u := Member(todo);
      b := if |g[u]| < b then b else |g[u]| + 1;
      todo := todo - {u};
    }
  }

  ghost function Times(k: nat, x: nat): nat {
    if k == 0 then 0 else Times(k - 1, x) + x
  }

  ghost function Pow(b: nat, e: nat): nat {
    if e == 0 then 1 else Times(b, Pow(b, e - 1))
  }

  lemma {:induction false} TimesGrows(k: nat, b: nat, x: nat)
    requires k < b && x > 0
    ensures Times(k, x) < Times(b, x)
  {
    if k < b - 1 {
      TimesGrows(k, b - 1, x);
    }
  }

  lemma {:induction false} PowPositive(b: nat, e: nat)
    requires b > 0
    ensures Pow(b, e) > 0
  {
    if e > 0 {
      PowPositive(b, e - 1);
      TimesGrows(0, b, Pow(b, e - 1));
    }
  }

  ghost function Worth(n: nat, b: nat, p: seq<Node>): nat {
    if |p| <= n then Pow(b, n - |p|) else 0
  }

  ghost function StackWorth(n: nat, b: nat, paths: seq<seq<Node>>): nat {
    if paths == [] then 0 else
      StackWorth(n, b, paths[..|paths| - 1]) + Worth(n, b, paths[|paths| - 1])
  }

  lemma PathBounded(g: Graph, p: seq<Node>)
    requires SimplePath(g, p) && p[0] in g
    ensures |p| <= |AllNodes(g)|
  {
    forall i | 0 <= i < |p| ensures p[i] in AllNodes(g) {
      if i > 0 {
        assert Edge(g, p[i - 1], p[i]);
        var u := p[i - 1];
        var j :| 0 <= j < |g[u]| && g[u][j] == p[i];
      }
    }
    DistinctBounded(p, AllNodes(g));
  }

  // ---------------------------------------------------------------------------
  // Small facts

  lemma ExtendPath(g: Graph, p: seq<Node>, c: Node)
    requires SimplePath(g, p) && Edge(g, Last(p), c) && c !in p
    ensures SimplePath(g, p + [c])
  {
    var q := p + [c];
    forall i | 0 <= i < |q| - 1 ensures Edge(g, q[i], q[i + 1]) {
      assert q[i] == p[i];
    }
  }

  lemma SuffixCycle(g: Graph, p: seq<Node>, i: nat)
    requires SimplePath(g, p) && i < |p| && Edge(g, Last(p), p[i])
    ensures ElementaryCycle(g, p[i..])
  {
    var c := p[i..];
    forall k | 0 <= k < |c| - 1 ensures Edge(g, c[k], c[k + 1]) {
      assert Edge(g, p[i + k], p[i + k + 1]);
    }
  }

  lemma KnownGrows(cycles: seq<seq<Node>>, more: seq<seq<Node>>, c: seq<Node>)
    requires cycles <= more && Known(cycles, c)
    ensures Known(more, c)
  {
    var m :| 0 <= m < |cycles| && Rotation(cycles[m], c);
    assert more[m] == cycles[m];
  }

  lemma ClosedGrows(g: Graph, cycles: seq<seq<Node>>, more: seq<seq<Node>>, p: seq<Node>)
    requires cycles <= more && Closed(g, cycles, p)
    ensures Closed(g, more, p)
  {
    if |p| > 0 && Last(p) in g {
      forall i | 0 <= i < |p| && p[i] in g[Last(p)] ensures Known(more, p[i..]) {
        KnownGrows(cycles, more, p[i..]);
      }
    }
  }

  lemma ExploredGrows(g: Graph, cycles: seq<seq<Node>>, more: seq<seq<Node>>, root: Node)
    requires cycles <= more && Explored(g, cycles, root)
    ensures Explored(g, more, root)
  {
    forall p | SimplePathFrom(g, root, p) ensures Closed(g, more, p) {
      ClosedGrows(g, cycles, more, p);
    }
  }

  // ---------------------------------------------------------------------------
  // The algorithm

  /** Position of a member, as `path.index(child)`. */
  function IndexOf(p: seq<Node>, x: Node): (i: nat)
    requires x in p
    ensures i < |p| && p[i] == x
    ensures forall j :: 0 <= j < i ==> p[j] != x
  {
    if p[0] == x then 0 else 1 + IndexOf(p[1..], x)
  }

  /** Append a closed path suffix unless a rotation of it was yielded before. */
  method AddCycle(g: Graph, cycles: seq<seq<Node>>, cycle: seq<Node>) returns (more: seq<seq<Node>>)
    requires Sound(g, cycles) && ElementaryCycle(g, cycle)
    ensures cycles <= more && Sound(g, more) && Known(more, cycle)
    ensures more == cycles || more == cycles + [cycle]
  {
    for m := 0 to |cycles|
      invariant forall k :: 0 <= k < m ==> !Rotation(cycles[k], cycle)
    {
      var isDup := IsRotated(cycles[m], cycle);
      if isDup {
        return cycles;
      }
    }
    more := cycles + [cycle];
    assert RotatedAt(cycle, cycle, 0);
    assert Rotation(more[|cycles|], cycle);
  }

  /** The children loop: what one popped path adds to the yields, the stack and the visited set. */
  method Expand(g: Graph, path: seq<Node>, cycles0: seq<seq<Node>>, paths0: seq<seq<Node>>, visited0: set<Node>)
    returns (cycles: seq<seq<Node>>, paths: seq<seq<Node>>, visited: set<Node>)
    requires SimplePath(g, path) && Last(path) in g && Sound(g, cycles0)
    ensures cycles0 <= cycles && Sound(g, cycles) && Closed(g, cycles, path)
    ensures paths0 <= paths && |paths| <= |paths0| + |g[Last(path)]|
    ensures forall k :: |paths0| <= k < |paths| ==> IsExtension(g, path, paths[k])
    ensures Pushed(paths, path, g[Last(path)])
    ensures visited0 <= visited
    ensures forall x :: x in visited && x !in visited0 ==> x in g[Last(path)] && x !in path
  {
    cycles, paths, visited := cycles0, paths0, visited0;
    var children := g[Last(path)];
    for j := 0 to |children|
      invariant cycles0 <= cycles && Sound(g, cycles)
      invariant ClosedUpTo(cycles, path, children[..j])
      invariant paths0 <= paths && |paths| <= |paths0| + j
      invariant forall k :: |paths0| <= k < |paths| ==> IsExtension(g, path, paths[k])
      invariant Pushed(paths, path, children[..j])
      invariant visited0 <= visited
      invariant forall x :: x in visited && x !in visited0 ==> x in children && x !in path
    {
      var child := children[j];
      ghost var before := cycles;
      assert children[..j + 1] == children[..j] + [child];
      if child in path {
        var at := IndexOf(path, child);
        SuffixCycle(g, path, at);
        cycles := AddCycle(g, cycles, path[at..]);
        ClosedStep(before, cycles, path, children[..j], at);
      } else {
        PushStep(g, paths0, paths, path, children[..j], child);
        paths := paths + [path + [child]];
        visited := visited + {child};
      }
    }
    assert children[..|children|] == children;
  }

  ghost predicate ClosedUpTo(cycles: seq<seq<Node>>, path: seq<Node>, children: seq<Node>) {
    forall i :: 0 <= i < |path| && path[i] in children ==> Known(cycles, path[i..])
  }

  ghost predicate Pushed(paths: seq<seq<Node>>, path: seq<Node>, children: seq<Node>) {
    forall c <- children :: c in path || path + [c] in paths
  }

  lemma PushStep(g: Graph, paths0: seq<seq<Node>>, paths: seq<seq<Node>>, path: seq<Node>, children: seq<Node>,
                 child: Node)
    requires |path| > 0 && Edge(g, Last(path), child) && child !in path
    requires Pushed(paths, path, children) && |paths0| <= |paths|
    requires forall k :: |paths0| <= k < |paths| ==> IsExtension(g, path, paths[k])
    ensures var more := paths + [path + [child]];
      && Pushed(more, path, children + [child])
      && forall k :: |paths0| <= k < |more| ==> IsExtension(g, path, more[k])
  {
    var longer := path + [child];
    var more := paths + [longer];
    assert longer[..|path|] == path;
    assert more[|paths|] == longer;
  }

  lemma ClosedStep(before: seq<seq<Node>>, cycles: seq<seq<Node>>, path: seq<Node>, children: seq<Node>, at: nat)
    requires before <= cycles && ClosedUpTo(before, path, children)
    requires Distinct(path) && at < |path| && Known(cycles, path[at..])
    ensures ClosedUpTo(cycles, path, children + [path[at]])
  {
    forall i | 0 <= i < |path| && path[i] in children + [path[at]] ensures Known(cycles, path[i..]) {
      if path[i] in children {
        KnownGrows(before, cycles, path[i..]);
      }
    }
  }

  ghost predicate IsExtension(g: Graph, path: seq<Node>, q: seq<Node>) {
    && |path| > 0
    && |q| == |path| + 1
    && q[..|path|] == path
    && Edge(g, Last(path), Last(q))
    && Last(q) !in path
  }

  /** `p` was popped: its cycles are known and its extensions are popped or still on the stack. */
  ghost predicate Expanded(g: Graph, cycles: seq<seq<Node>>, done: set<seq<Node>>, paths: seq<seq<Node>>,
                           p: seq<Node>) {
    && Closed(g, cycles, p)
    && (|p| > 0 && Last(p) in g ==>
          forall c :: c in g[Last(p)] && c !in p ==> p + [c] in done || p + [c] in paths)
  }

  /** The stack holds simple paths from the root, and every popped path was expanded. */
  ghost predicate StackInv(g: Graph, root: Node, cycles: seq<seq<Node>>, done: set<seq<Node>>, paths: seq<seq<Node>>) {
    && (forall k :: 0 <= k < |paths| ==> SimplePathFrom(g, root, paths[k]))
    && ([root] in done || [root] in paths)
    && (forall p :: p in done ==> Expanded(g, cycles, done, paths, p))
  }

  /** The `while paths` loop for one root: on exit every simple path from the root has been expanded. */
  method Explore(g: Graph, root: Node, cycles0: seq<seq<Node>>, visited0: set<Node>)
    returns (cycles: seq<seq<Node>>, visited: set<Node>)
    requires root in g && Sound(g, cycles0)
    ensures cycles0 <= cycles && Sound(g, cycles) && Explored(g, cycles, root)
    ensures visited0 <= visited
    ensures forall x :: x in visited && x !in visited0 ==> Reaches(g, root, x)
  {
    ghost var n := |AllNodes(g)|;
    ghost var b := BranchingBound(g);
    cycles, visited := cycles0, visited0;
    var paths := [[root]];
    ghost var done: set<seq<Node>> := {};
    while paths != []
      invariant cycles0 <= cycles && Sound(g, cycles)
      invariant visited0 <= visited
      invariant forall x :: x in visited && x !in visited0 ==> Reaches(g, root, x)
      invariant StackInv(g, root, cycles, done, paths)
      decreases StackWorth(n, b, paths)
    {
      ghost var before, cyclesBefore, visitedBefore := paths, cycles, visited;
      var path := paths[|paths| - 1];
      assert SimplePathFrom(g, root, path);
      paths := paths[..|paths| - 1];
      if Last(path) in g {
        cycles, paths, visited := Expand(g, path, cycles, paths, visited);
        ExtensionsReached(g, root, path, visitedBefore, visited);
      }
      PopPays(g, root, n, b, path, before, paths);
      StackMoves(g, root, cyclesBefore, cycles, done, before, paths, path);
      done := done + {path};
    }
    AllDone(g, cycles, root, done);
  }

  lemma ExtensionsReached(g: Graph, root: Node, path: seq<Node>, visited: set<Node>, visited': set<Node>)
    requires SimplePathFrom(g, root, path) && Last(path) in g
    requires forall x :: x in visited' && x !in visited ==> x in g[Last(path)] && x !in path
    ensures forall x :: x in visited' && x !in visited ==> Reaches(g, root, x)
  {
    forall x | x in visited' && x !in visited ensures Reaches(g, root, x) {
      ExtendPath(g, path, x);
      assert SimplePathFrom(g, root, path + [x]) && Last(path + [x]) == x;
    }
  }

  /** Popping a path pays for all its extensions. */
  lemma {:induction false} PopPays(g: Graph, root: Node, n: nat, b: nat, path: seq<Node>, before: seq<seq<Node>>,
                                   paths: seq<seq<Node>>)
    requires root in g && SimplePathFrom(g, root, path) && n == |AllNodes(g)| && forall u <- g :: |g[u]| < b
    requires before != [] && before[|before| - 1] == path && before[..|before| - 1] <= paths
    requires |paths| < |before| + if Last(path) in g then |g[Last(path)]| else 0
    requires forall k :: |before| - 1 <= k < |paths| ==> IsExtension(g, path, paths[k])
    ensures StackWorth(n, b, paths) < StackWorth(n, b, before)
  {
    var rest := before[..|before| - 1];
    PathBounded(g, path);
    PowPositive(b, n - |path|);
    if |paths| == |rest| {
      assert paths == rest;
    } else {
      var q := paths[|paths| - 1];
      assert IsExtension(g, path, q);
      ExtendPath(g, path, Last(q));
      assert q == path + [Last(q)];
      PathBounded(g, q);
      PushCheaper(n, b, rest, path, paths);
      assert before == rest + [path];
    }
  }

  lemma {:induction false} PushCheaper(n: nat, b: nat, rest: seq<seq<Node>>, path: seq<Node>, paths: seq<seq<Node>>)
    requires rest <= paths && |path| < n && |paths| - |rest| < b
    requires forall k :: |rest| <= k < |paths| ==> |paths[k]| == |path| + 1
    ensures StackWorth(n, b, paths) < StackWorth(n, b, rest + [path])
  {
    assert (rest + [path])[..|rest|] == rest;
    PushCosts(n, b, rest, paths, |path| + 1);
    PowPositive(b, n - |path| - 1);
    TimesGrows(|paths| - |rest|, b, Pow(b, n - |path| - 1));
  }

  lemma {:induction false} PushCosts(n: nat, b: nat, rest: seq<seq<Node>>, paths: seq<seq<Node>>, len: nat)
    requires rest <= paths && len <= n
    requires forall k :: |rest| <= k < |paths| ==> |paths[k]| == len
    ensures StackWorth(n, b, paths) == StackWorth(n, b, rest) + Times(|paths| - |rest|, Pow(b, n - len))
  {
    if |paths| == |rest| {
      assert paths == rest;
    } else {
      PushCosts(n, b, rest, paths[..|paths| - 1], len);
    }
  }

  lemma StackMoves(g: Graph, root: Node, cycles: seq<seq<Node>>, more: seq<seq<Node>>, done: set<seq<Node>>,
                   before: seq<seq<Node>>, paths: seq<seq<Node>>, path: seq<Node>)
    requires StackInv(g, root, cycles, done, before)
    requires before != [] && before[|before| - 1] == path && before[..|before| - 1] <= paths
    requires cycles <= more && Closed(g, more, path)
    requires forall k :: |before| - 1 <= k < |paths| ==> IsExtension(g, path, paths[k])
    requires Last(path) in g ==> Pushed(paths, path, g[Last(path)])
    ensures StackInv(g, root, more, done + {path}, paths)
  {
    forall k | 0 <= k < |paths| ensures SimplePathFrom(g, root, paths[k]) {
      if k < |before| - 1 {
        assert paths[k] == before[k];
      } else {
        assert IsExtension(g, path, paths[k]);
        ExtendPath(g, path, Last(paths[k]));
        assert paths[k] == path + [Last(paths[k])];
      }
    }
    forall q | q in before ensures q in done + {path} || q in paths {
      var k :| 0 <= k < |before| && before[k] == q;
      assert k == |before| - 1 || paths[k] == q;
    }
    forall p | p in done + {path} ensures Expanded(g, more, done + {path}, paths, p) {
      if p in done {
        ClosedGrows(g, cycles, more, p);
      }
    }
  }

  /** With an empty stack, the expanded paths are all the simple paths from the root. */
  lemma AllDone(g: Graph, cycles: seq<seq<Node>>, root: Node, done: set<seq<Node>>)
    requires [root] in done
    requires forall p :: p in done ==> Expanded(g, cycles, done, [], p)
    ensures Explored(g, cycles, root)
  {
    forall p | SimplePathFrom(g, root, p) ensures Closed(g, cycles, p) {
      PathDone(g, cycles, root, done, p);
    }
  }

  lemma {:induction false} PathDone(g: Graph, cycles: seq<seq<Node>>, root: Node, done: set<seq<Node>>, p: seq<Node>)
    requires [root] in done
    requires forall q :: q in done ==> Expanded(g, cycles, done, [], q)
    requires SimplePathFrom(g, root, p)
    ensures p in done
  {
    if |p| == 1 {
      assert p == [root];
    } else {
      var q := p[..|p| - 1];
      PathDone(g, cycles, root, done, q);
      assert Edge(g, p[|p| - 2], p[|p| - 1]);
      assert p == q + [Last(p)];
      assert Last(p) !in q;
    }
  }

  /** A simple path that meets an elementary cycle can be continued once around the cycle. */
  lemma CycleFromRoot(g: Graph, cycles: seq<seq<Node>>, root: Node, p: seq<Node>, c: seq<Node>)
    requires Explored(g, cycles, root) && SimplePathFrom(g, root, p)
    requires ElementaryCycle(g, c) && Last(p) in c
    ensures Known(cycles, c)
  {
    var i := FirstHit(p, c);
    var k := IndexOf(c, p[i]);
    var rot := c[k..] + c[..k];
    var full := p[..i] + rot;
    assert full[i] == p[i] && full[0] == root;
    RotationIsCycle(g, c, k);
    forall j | 0 <= j < |full| - 1 ensures Edge(g, full[j], full[j + 1]) {
      if j < i {
        assert Edge(g, p[j], p[j + 1]);
      } else {
        assert Edge(g, rot[j - i], rot[j - i + 1]);
      }
    }
    forall x, y | 0 <= x < y < |full| ensures full[x] != full[y] {
      if x < i <= y {
        assert rot[y - i] in c;
      }
    }
    assert SimplePathFrom(g, root, full);
    assert Last(full) == Last(rot);
    assert full[i..] == rot;
    assert Known(cycles, rot);
    var m :| 0 <= m < |cycles| && Rotation(cycles[m], rot);
    assert RotatedAt(c, rot, k);
    RotationSymmetric(c, rot);
    RotationTransitive(cycles[m], rot, c);
  }

  lemma FirstHit(p: seq<Node>, c: seq<Node>) returns (i: nat)
    requires |p| > 0 && Last(p) in c
    ensures i < |p| && p[i] in c && forall j :: 0 <= j < i ==> p[j] !in c
  {
    i := 0;
    while p[i] !in c
      invariant i < |p| && forall j :: 0 <= j < i ==> p[j] !in c
      decreases |p| - i
    {
      i := i + 1;
    }
  }

  lemma RotationIsCycle(g: Graph, c: seq<Node>, k: nat)
    requires ElementaryCycle(g, c) && k < |c|
    ensures ElementaryCycle(g, c[k..] + c[..k])
  {
    var rot := c[k..] + c[..k];
    forall j | 0 <= j < |rot| ensures Edge(g, rot[j], if j + 1 < |rot| then rot[j + 1] else rot[0]) {
      var x := if k + j < |c| then k + j else k + j - |c|;
      assert rot[j] == c[x];
      assert x + 1 < |c| ==> Edge(g, c[x], c[x + 1]);
    }
  }

  /**
   * The cycles yielded for a dictionary iterated in the order `order`: each is an elementary cycle,
   * no two are rotations of each other, and every elementary cycle is yielded up to rotation.
   */
  method FindCycles(g: Graph, order: seq<Node>) returns (cycles: seq<seq<Node>>)
    requires forall u :: u in order <==> u in g
    ensures forall m :: 0 <= m < |cycles| ==> ElementaryCycle(g, cycles[m])
    ensures forall m, n :: 0 <= m < |cycles| && 0 <= n < |cycles| && m != n ==> !Rotation(cycles[m], cycles[n])
    ensures forall c :: ElementaryCycle(g, c) ==> Known(cycles, c)
  {
    cycles := [];
    var visited: set<Node> := {};
    ghost var roots: set<Node> := {};
    for r := 0 to |order|
      invariant Sound(g, cycles)
      invariant forall root <- roots :: Explored(g, cycles, root)
      invariant forall x <- visited :: exists root :: root in roots && Reaches(g, root, x)
      invariant forall j :: 0 <= j < r ==> order[j] in roots || order[j] in visited
    {
      var parent := order[r];
      if parent in visited {
        continue;
      }
      ghost var before := cycles;
      assert parent in order;
      cycles, visited := Explore(g, parent, cycles, visited);
      forall root | root in roots ensures Explored(g, cycles, root) {
        ExploredGrows(g, before, cycles, root);
      }
      roots := roots + {parent};
    }
    forall c | ElementaryCycle(g, c) ensures Known(cycles, c) {
      FoundFromSomeRoot(g, order, cycles, roots, visited, c);
    }
    forall m, n | 0 <= m < |cycles| && 0 <= n < |cycles| && m != n ensures !Rotation(cycles[m], cycles[n]) {
      if Rotation(cycles[m], cycles[n]) {
        RotationSymmetric(cycles[m], cycles[n]);
      }
    }
  }

  /** Skipping the nodes visited from an earlier root loses no cycle. */
  lemma FoundFromSomeRoot(g: Graph, order: seq<Node>, cycles: seq<seq<Node>>, roots: set<Node>, visited: set<Node>,
                          c: seq<Node>)
    requires forall u :: u in order <==> u in g
    requires forall root <- roots :: Explored(g, cycles, root)
    requires forall x <- visited :: exists root :: root in roots && Reaches(g, root, x)
    requires forall u <- order :: u in roots || u in visited
    requires ElementaryCycle(g, c)
    ensures Known(cycles, c)
  {
    var x := Last(c);
    assert x in g;
    if x in roots {
      assert SimplePathFrom(g, x, [x]);
      CycleFromRoot(g, cycles, x, [x], c);
    } else {
      var root :| root in roots && Reaches(g, root, x);
      var p :| SimplePathFrom(g, root, p) && Last(p) == x;
      CycleFromRoot(g, cycles, root, p, c);
    }
  }
}
