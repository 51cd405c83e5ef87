/** Equal-cost routes from every node to every host, and what link failures do to them. */
module Routing {
  import opened Collections

  type Node = int

  const U64: nat := 0x1_0000_0000_0000_0000

  /** One direction of a link as seen from a node: interface index, state, delay (ns), rate (bit/s). */
  datatype Interface = Interface(idx: int, up: bool, delay: nat, bw: nat)

  type Links = map<Node, map<Node, Interface>>

  /** The entry `nbr2if[u][v]`; a missing one reads as a default, down interface. */
  function At(t: Links, u: Node, v: Node): Interface {
    if u in t && v in t[u] then t[u][v] else Interface(0, false, 0, 0)
  }

  predicate Up(t: Links, u: Node, v: Node) {
    At(t, u, v).up
  }

  function Last(s: seq<Node>): Node
    requires |s| > 0
  {
    s[|s| - 1]
  }

  // ---------------------------------------------------------------------------
  // The reference notions: routes, distances, next hops, path measures

  /** A walk over up links from `h` whose inner nodes are switches. */
  ghost predicate Route(sw: set<Node>, t: Links, h: Node, w: seq<Node>) {
    && |w| > 0
    && w[0] == h
    && (forall i :: 0 <= i < |w| - 1 ==> Up(t, w[i], w[i + 1]))
    && (forall i :: 0 < i < |w| - 1 ==> w[i] in sw)
  }

  ghost predicate RouteTo(sw: set<Node>, t: Links, h: Node, v: Node, w: seq<Node>) {
    Route(sw, t, h, w) && Last(w) == v
  }

  /** `d` is the least number of hops of a route from `h` to `v`. */
  ghost predicate Distance(sw: set<Node>, t: Links, h: Node, v: Node, d: nat) {
    && (exists w :: RouteTo(sw, t, h, v, w) && |w| == d + 1)
    && (forall w :: RouteTo(sw, t, h, v, w) ==> |w| >= d + 1)
  }

  ghost predicate Expands(sw: set<Node>, h: Node, u: Node) {
    u == h || u in sw
  }

  /** `u` is a neighbour of `v` one hop nearer to `h` through which packets may pass. */
  ghost predicate NextHopOf(sw: set<Node>, t: Links, h: Node, v: Node, u: Node) {
    Up(t, u, v) && Expands(sw, h, u) && exists d: nat :: Distance(sw, t, h, u, d) && Distance(sw, t, h, v, d + 1)
  }

  ghost predicate HopsExact(sw: set<Node>, t: Links, h: Node, v: Node, hops: seq<Node>) {
    Distinct(hops) && forall u :: u in hops <==> NextHopOf(sw, t, h, v, u)
  }

  ghost function PathDelay(t: Links, w: seq<Node>): nat {
    if |w| <= 1 then 0 else PathDelay(t, w[..|w| - 1]) + At(t, w[|w| - 2], w[|w| - 1]).delay
  }

  /** Time in ns to send one packet at rate `bw`, in 64-bit arithmetic (an up link has a positive rate). */
  function TxTime(payload: nat, bw: nat): nat {
    if bw == 0 then 0 else (payload * 8_000_000_000) % U64 / bw
  }

  ghost function PathTxDelay(t: Links, payload: nat, w: seq<Node>): nat {
    if |w| <= 1 then 0 else PathTxDelay(t, payload, w[..|w| - 1]) + TxTime(payload, At(t, w[|w| - 2], w[|w| - 1]).bw)
  }

  function Min(a: nat, b: nat): nat {
    if a < b then a else b
  }

  ghost function PathBw(t: Links, w: seq<Node>): nat {
    if |w| <= 1 then U64 - 1 else Min(PathBw(t, w[..|w| - 1]), At(t, w[|w| - 2], w[|w| - 1]).bw)
  }

  /** The rate of the link from the `i`th node of `w` to the next. */
  ghost function HopRate(t: Links, w: seq<Node>, i: nat): nat
    requires i < |w| - 1
  {
    At(t, w[i], w[i + 1]).bw
  }

  /** `b` is the least rate of the hops of `w`, or the largest 64-bit number if there is no hop (or none is slower). */
  ghost predicate LeastRate(t: Links, w: seq<Node>, b: nat) {
    && b < U64
    && (forall i :: 0 <= i < |w| - 1 ==> b <= HopRate(t, w, i))
    && (b == U64 - 1 || exists i :: 0 <= i < |w| - 1 && b == HopRate(t, w, i))
  }

  lemma {:induction false} PathBwIsLeast(t: Links, w: seq<Node>)
    ensures LeastRate(t, w, PathBw(t, w))
  {
    if |w| > 1 {
      var front := w[..|w| - 1];
      PathBwIsLeast(t, front);
      LeastRateNext(t, w, PathBw(t, front));
    }
  }

  lemma LeastRateNext(t: Links, w: seq<Node>, b: nat)
    requires |w| > 1 && LeastRate(t, w[..|w| - 1], b)
    ensures LeastRate(t, w, Min(b, HopRate(t, w, |w| - 2)))
  {
    var front, n := w[..|w| - 1], |w| - 2;
    forall i | 0 <= i < n ensures HopRate(t, w, i) == HopRate(t, front, i) {
      SameHop(t, w, i);
    }
    if HopRate(t, w, n) > b && b != U64 - 1 {
      var i :| 0 <= i < n && b == HopRate(t, front, i);
      assert b == HopRate(t, w, i);
    }
  }

  lemma SameHop(t: Links, w: seq<Node>, i: nat)
    requires i < |w| - 2
    ensures HopRate(t, w, i) == HopRate(t, w[..|w| - 1], i)
  {
  }

  /** The time to send a packet is its number of bits times 10^9, divided by the rate and rounded down. */
  lemma TxTimeExact(payload: nat, bw: nat)
    requires bw > 0 && payload * 8_000_000_000 < U64
    ensures TxTime(payload, bw) * bw <= payload * 8 * 1_000_000_000 < (TxTime(payload, bw) + 1) * bw
  {
    var bits, q := payload * 8_000_000_000, TxTime(payload, bw);
    assert q == bits / bw;
    QuotientBounds(bits, bw);
    assert (q + 1) * bw == q * bw + bw;
  }

  lemma QuotientBounds(a: nat, c: nat)
    requires c > 0
    ensures a / c * c <= a < a / c * c + c
  {
  }

  // ---------------------------------------------------------------------------
  // The search from one host

  datatype Label = Label(dis: nat, delay: nat, txDelay: nat, bw: nat)

  type Labels = map<Node, Label>

  /** The queue, the labels of the nodes found so far, and the next hops pushed so far. */
  datatype Search = Search(q: seq<Node>, labels: Labels, hops: map<Node, seq<Node>>)

  function HopsOf(s: Search, v: Node): seq<Node> {
    if v in s.hops then s.hops[v] else []
  }

  ghost predicate Wired(t: Links, nodes: set<Node>) {
    forall u, v :: Up(t, u, v) ==> v in nodes && At(t, u, v).bw > 0
  }

  /** `w` is the path on which label `l` of `v` was computed. */
  ghost predicate Witness(sw: set<Node>, t: Links, payload: nat, h: Node, v: Node, l: Label, w: seq<Node>) {
    && RouteTo(sw, t, h, v, w)
    && |w| == l.dis + 1
    && l.delay == PathDelay(t, w) % U64
    && l.txDelay == PathTxDelay(t, payload, w) % U64
    && l.bw == PathBw(t, w)
  }

  ghost predicate Labelled(sw: set<Node>, t: Links, payload: nat, h: Node, labels: Labels,
                           paths: map<Node, seq<Node>>) {
    && labels.Keys == paths.Keys
    && h in labels && labels[h].dis == 0
    && forall v {:trigger Witness(sw, t, payload, h, v, labels[v], paths[v])} ::
         v in labels ==> Witness(sw, t, payload, h, v, labels[v], paths[v])
  }

  ghost predicate Queued(sw: set<Node>, nodes: set<Node>, h: Node, q: seq<Node>, labels: Labels) {
    && Distinct(q)
    && (forall u <- labels :: u in nodes)
    && (forall i :: 0 <= i < |q| ==> q[i] in labels && Expands(sw, h, q[i]))
    && (forall u <- labels :: Expands(sw, h, u) ==> u in q)
    && (forall i, j :: 0 <= i < j < |q| ==> labels[q[i]].dis <= labels[q[j]].dis)
  }

  /** Nothing is labelled more than one hop beyond `d`. */
  ghost predicate Within(labels: Labels, d: nat) {
    forall v <- labels :: labels[v].dis <= d + 1
  }

  /** The neighbours `vs` of `u` have been looked at. */
  ghost predicate Scanned(t: Links, labels: Labels, u: Node, vs: set<Node>) {
    && u in labels
    && forall v {:trigger Up(t, u, v)} :: v in vs && Up(t, u, v) ==> v in labels && labels[v].dis <= labels[u].dis + 1
  }

  ghost predicate AllScanned(t: Links, nodes: set<Node>, labels: Labels, done: set<Node>) {
    forall u {:trigger Scanned(t, labels, u, nodes)} :: u in done ==> Scanned(t, labels, u, nodes)
  }

  ghost predicate Shorter(t: Links, labels: Labels, u: Node, v: Node) {
    Up(t, u, v) && u in labels && v in labels && labels[u].dis + 1 == labels[v].dis
  }

  /** The pushes so far: the nearer neighbours among the scanned nodes `done`, plus `now` for its scanned neighbours. */
  ghost predicate Pushed(t: Links, s: Search, done: set<Node>, now: Node, seen: set<Node>) {
    forall v :: Distinct(HopsOf(s, v)) &&
      forall u :: u in HopsOf(s, v) <==> Shorter(t, s.labels, u, v) && (u in done || (u == now && v in seen))
  }

  /** What holds while the neighbours `seen` of `now` are done, after the nodes `done`. */
  ghost predicate Midway(sw: set<Node>, t: Links, nodes: set<Node>, payload: nat, h: Node, s: Search,
                         paths: map<Node, seq<Node>>,
                         done: set<Node>, now: Node, seen: set<Node>) {
    && Labelled(sw, t, payload, h, s.labels, paths)
    && Queued(sw, nodes, h, s.q, s.labels)
    && now in s.q && now !in done
    && Within(s.labels, s.labels[now].dis)
    && Scanned(t, s.labels, now, seen)
    && AllScanned(t, nodes, s.labels, done)
    && Pushed(t, s, done, now, seen)
  }

  // ---------------------------------------------------------------------------
  // Visiting one neighbour

  lemma {:induction false} ExtendWitness(sw: set<Node>, t: Links, payload: nat, h: Node, now: Node, l: Label,
                                         w: seq<Node>, next: Node)
    requires Witness(sw, t, payload, h, now, l, w) && Up(t, now, next)
    requires now in sw || l.dis == 0
    ensures Witness(sw, t, payload, h, next, NextLabel(l, At(t, now, next), payload), w + [next])
  {
    var w' := w + [next];
    assert w'[..|w'| - 1] == w;
    ExtendRoute(sw, t, h, w, next);
    ModularSum(PathDelay(t, w), At(t, now, next).delay);
    ModularSum(PathTxDelay(t, payload, w), TxTime(payload, At(t, now, next).bw));
  }

  lemma ExtendRoute(sw: set<Node>, t: Links, h: Node, w: seq<Node>, next: Node)
    requires Route(sw, t, h, w) && Up(t, Last(w), next) && (Last(w) in sw || |w| == 1)
    ensures Route(sw, t, h, w + [next])
  {
    var w' := w + [next];
    forall k | 0 <= k < |w'| - 1 ensures Up(t, w'[k], w'[k + 1]) {
      assert k < |w| - 1 ==> Up(t, w[k], w[k + 1]);
    }
  }

  lemma ModularSum(a: nat, b: nat)
    ensures (a % U64 + b) % U64 == (a + b) % U64
  {
  }

  function NextLabel(l: Label, i: Interface, payload: nat): Label {
    Label(l.dis + 1, (l.delay + i.delay) % U64, (l.txDelay + TxTime(payload, i.bw)) % U64, Min(l.bw, i.bw))
  }

  /** The label and queue part of visiting `next` from `now`. */
  function Discover(sw: set<Node>, t: Links, payload: nat, s: Search, now: Node, next: Node): Search
    requires now in s.labels
  {
    if next in s.labels then s
    else s.(labels := s.labels[next := NextLabel(s.labels[now], At(t, now, next), payload)],
            q := if next in sw then s.q + [next] else s.q)
  }

  /** The push part. */
  function Push(s: Search, now: Node, next: Node): Search
    requires now in s.labels && next in s.labels
  {
    if s.labels[now].dis + 1 == s.labels[next].dis then s.(hops := s.hops[next := HopsOf(s, next) + [now]]) else s
  }

  lemma {:induction false} DiscoverKeeps(sw: set<Node>, t: Links, nodes: set<Node>, payload: nat, h: Node, s: Search,
                                         paths: map<Node, seq<Node>>,
                                         done: set<Node>, now: Node, seen: set<Node>, next: Node)
    returns (paths': map<Node, seq<Node>>)
    requires Midway(sw, t, nodes, payload, h, s, paths, done, now, seen) && Wired(t, nodes) && Up(t, now, next)
    ensures var s' := Discover(sw, t, payload, s, now, next);
      && Midway(sw, t, nodes, payload, h, s', paths', done, now, seen)
      && next in s'.labels && s'.labels[next].dis <= s'.labels[now].dis + 1
  {
    paths' := paths;
    if next !in s.labels {
      var s' := Discover(sw, t, payload, s, now, next);
      paths' := paths[next := paths[now] + [next]];
      assert now != h ==> now in sw;
      ExtendWitness(sw, t, payload, h, now, s.labels[now], paths[now], next);
      assert Labelled(sw, t, payload, h, s'.labels, paths');
      QueueGrows(sw, nodes, h, s, s', now, next);
      ScannedGrows(t, nodes, s.labels, s'.labels, done, now, seen);
      PushedUnaffected(t, nodes, s, s', done, now, seen, next);
    }
  }

  lemma QueueGrows(sw: set<Node>, nodes: set<Node>, h: Node, s: Search, s': Search, now: Node, next: Node)
    requires Queued(sw, nodes, h, s.q, s.labels) && now in s.q && next !in s.labels && h in s.labels && next in nodes
    requires Within(s.labels, s.labels[now].dis)
    requires s'.labels.Keys == s.labels.Keys + {next} && Extends(s.labels, s'.labels)
    requires s'.labels[next].dis == s.labels[now].dis + 1
    requires s'.q == if next in sw then s.q + [next] else s.q
    ensures Queued(sw, nodes, h, s'.q, s'.labels) && Within(s'.labels, s.labels[now].dis)
  {
    forall i, j | 0 <= i < j < |s'.q|
      ensures s'.q[i] != s'.q[j] && s'.q[j] in s'.labels && s'.labels[s'.q[i]].dis <= s'.labels[s'.q[j]].dis
    {
      assert s'.q[i] == s.q[i] && s.q[i] in s.labels;
      assert j < |s.q| ==> s'.q[j] == s.q[j];
    }
    QueueMembers(sw, h, s.q, s'.q, s.labels, s'.labels, next);
  }

  lemma QueueMembers(sw: set<Node>, h: Node, q: seq<Node>, q': seq<Node>, labels: Labels, labels': Labels, next: Node)
    requires labels'.Keys == labels.Keys + {next} && next != h && q' == if next in sw then q + [next] else q
    requires forall i :: 0 <= i < |q| ==> q[i] in labels && Expands(sw, h, q[i])
    requires forall u <- labels :: Expands(sw, h, u) ==> u in q
    ensures forall i :: 0 <= i < |q'| ==> q'[i] in labels' && Expands(sw, h, q'[i])
    ensures forall u <- labels' :: Expands(sw, h, u) ==> u in q'
  {
    assert forall u :: u in q' <==> u in q || (u == next && next in sw);
  }

  ghost predicate Extends(labels: Labels, labels': Labels) {
    labels.Keys <= labels'.Keys && forall v <- labels :: labels'[v] == labels[v]
  }

  lemma ScannedGrows(t: Links, nodes: set<Node>, labels: Labels, labels': Labels, done: set<Node>, now: Node,
                     seen: set<Node>)
    requires AllScanned(t, nodes, labels, done) && Scanned(t, labels, now, seen) && Extends(labels, labels')
    ensures AllScanned(t, nodes, labels', done) && Scanned(t, labels', now, seen)
  {
    forall u | u in done ensures Scanned(t, labels', u, nodes) {
      assert Scanned(t, labels, u, nodes);
    }
  }

  lemma PushedUnaffected(t: Links, nodes: set<Node>, s: Search, s': Search, done: set<Node>, now: Node, seen: set<Node>,
                         next: Node)
    requires Pushed(t, s, done, now, seen) && next !in s.labels && next in nodes
    requires s'.labels.Keys == s.labels.Keys + {next} && Extends(s.labels, s'.labels) && s'.hops == s.hops
    requires Scanned(t, s.labels, now, seen) && AllScanned(t, nodes, s.labels, done)
    ensures Pushed(t, s', done, now, seen)
  {
    forall v ensures HopsOf(s', v) == HopsOf(s, v) {
    }
    forall u, v | u in done || (u == now && v in seen) ensures Shorter(t, s'.labels, u, v) <==>
        Shorter(t, s.labels, u, v) {
      if u in done {
        assert Scanned(t, s.labels, u, nodes);
      }
    }
  }

  /** Moving past `next`: it is recorded as seen, pushed when `now` is one hop nearer. */
  lemma {:induction false} PushKeeps(sw: set<Node>, t: Links, nodes: set<Node>, payload: nat, h: Node, s: Search,
                                     paths: map<Node, seq<Node>>,
                                     done: set<Node>, now: Node, seen: set<Node>, next: Node)
    requires Midway(sw, t, nodes, payload, h, s, paths, done, now, seen) && next !in seen
    requires Up(t, now, next) ==> next in s.labels && s.labels[next].dis <= s.labels[now].dis + 1
    ensures Midway(sw, t, nodes, payload, h, if Up(t, now, next) then Push(s, now, next)
      else s, paths, done, now, seen + {next})
  {
    var s' := if Up(t, now, next) then Push(s, now, next) else s;
    assert s'.labels == s.labels && s'.q == s.q;
    PushedNext(t, s, s', done, now, seen, next);
  }

  lemma PushedNext(t: Links, s: Search, s': Search, done: set<Node>, now: Node, seen: set<Node>, next: Node)
    requires Pushed(t, s, done, now, seen) && now in s.labels && now !in done && next !in seen
    requires Up(t, now, next) ==> next in s.labels
    requires s' == if Up(t, now, next) then Push(s, now, next) else s
    ensures Pushed(t, s', done, now, seen + {next})
  {
    forall v ensures HopsOf(s', v) == if v == next && Shorter(t, s.labels, now, next) then HopsOf(s, v) + [now]
        else HopsOf(s, v) {
    }
    forall u, v ensures Shorter(t, s'.labels, u, v) <==> Shorter(t, s.labels, u, v) {
    }
    assert now !in HopsOf(s, next);
  }

  method VisitNeighbour(sw: set<Node>, t: Links, ghost nodes: set<Node>, payload: nat, h: Node, s0: Search,
                        ghost paths0: map<Node, seq<Node>>,
                        ghost done: set<Node>, now: Node, ghost seen: set<Node>, next: Node)
    returns (s: Search, ghost paths: map<Node, seq<Node>>)
    requires Midway(sw, t, nodes, payload, h, s0, paths0, done, now, seen) && Wired(t, nodes) && next !in seen
    ensures Midway(sw, t, nodes, payload, h, s, paths, done, now, seen + {next})
    ensures s0.q <= s.q && Extends(s0.labels, s.labels)
  {
    s, paths := s0, paths0;
    if Up(t, now, next) {
      paths := DiscoverKeeps(sw, t, nodes, payload, h, s, paths, done, now, seen, next);
      s := Discover(sw, t, payload, s, now, next);
    }
    PushKeeps(sw, t, nodes, payload, h, s, paths, done, now, seen, next);
    if Up(t, now, next) {
      s := Push(s, now, next);
    }
  }

  /** The loop over the neighbours of one queued node, in any order. */
  method ScanNeighbours(sw: set<Node>, t: Links, ghost nodes: set<Node>, payload: nat, h: Node, s0: Search,
                        ghost paths0: map<Node, seq<Node>>,
                        ghost done: set<Node>, now: Node) returns (s: Search, ghost paths: map<Node, seq<Node>>)
    requires Midway(sw, t, nodes, payload, h, s0, paths0, done, now, {}) && Wired(t, nodes)
    ensures Midway(sw, t, nodes, payload, h, s, paths, done, now, nodes)
    ensures s0.q <= s.q && Extends(s0.labels, s.labels)
  {
    s, paths := s0, paths0;
    var keys := if now in t then t[now].Keys else {};
    var todo := keys;
    ghost var seen: set<Node> := {};
    while todo != {}
      invariant Partition(keys, seen, todo)
      invariant Midway(sw, t, nodes, payload, h, s, paths, done, now, seen)
      invariant s0.q <= s.q && Extends(s0.labels, s.labels)
    {
      var next := AnyOf(todo);
      PartitionStep(keys, seen, todo, next);
      todo := todo - {next};
      s, paths := VisitNeighbour(sw, t, nodes, payload, h, s, paths, done, now, seen, next);
      seen := seen + {next};
    }
    SeenAll(sw, t, nodes, payload, h, s, paths, done, now, seen);
  }

  ghost predicate Partition(keys: set<Node>, seen: set<Node>, todo: set<Node>) {
    todo <= keys && seen == keys - todo
  }

  lemma PartitionStep(keys: set<Node>, seen: set<Node>, todo: set<Node>, next: Node)
    requires Partition(keys, seen, todo) && next in todo
    ensures Partition(keys, seen + {next}, todo - {next}) && next !in seen
  {
  }

  lemma {:induction false} SeenAll(sw: set<Node>, t: Links, nodes: set<Node>, payload: nat, h: Node, s: Search,
                                   paths: map<Node, seq<Node>>, done: set<Node>, now: Node, seen: set<Node>)
    requires Midway(sw, t, nodes, payload, h, s, paths, done, now, seen) && Wired(t, nodes)
    requires forall v :: Up(t, now, v) ==> v in seen
    ensures Midway(sw, t, nodes, payload, h, s, paths, done, now, nodes)
  {
    forall u, v | Shorter(t, s.labels, u, v) && u == now ensures v in seen && v in nodes {
    }
  }

  // ---------------------------------------------------------------------------
  // The whole search

  /** What holds before the `i`-th queued node is expanded. */
  ghost predicate Between(sw: set<Node>, t: Links, nodes: set<Node>, payload: nat, h: Node, s: Search,
                          paths: map<Node, seq<Node>>, i: nat) {
    && i <= |s.q|
    && Labelled(sw, t, payload, h, s.labels, paths)
    && Queued(sw, nodes, h, s.q, s.labels)
    && (i < |s.q| ==> Within(s.labels, s.labels[s.q[i]].dis))
    && AllScanned(t, nodes, s.labels, AsSet(s.q[..i]))
    && Pushed(t, s, AsSet(s.q[..i]), h, {})
  }

  lemma {:induction false} EnterNode(sw: set<Node>, t: Links, nodes: set<Node>, payload: nat, h: Node, s: Search,
                                     paths: map<Node, seq<Node>>, i: nat)
    requires Between(sw, t, nodes, payload, h, s, paths, i) && i < |s.q|
    ensures Midway(sw, t, nodes, payload, h, s, paths, AsSet(s.q[..i]), s.q[i], {})
  {
    assert Pushed(t, s, AsSet(s.q[..i]), s.q[i], {});
  }

  lemma {:induction false} LeaveNode(sw: set<Node>, t: Links, nodes: set<Node>, payload: nat, h: Node, s: Search,
                                     paths: map<Node, seq<Node>>, i: nat)
    requires i < |s.q| && Midway(sw, t, nodes, payload, h, s, paths, AsSet(s.q[..i]), s.q[i], nodes) && Wired(t, nodes)
    ensures Between(sw, t, nodes, payload, h, s, paths, i + 1)
  {
    var done, now := AsSet(s.q[..i]), s.q[i];
    AsSetNext(s.q, i);
    forall v, u ensures u in HopsOf(s, v) <==> Shorter(t, s.labels, u, v) && u in done + {now} {
    }
  }

  /** After the search: distances, next hops and measures are those of the reference notions. */
  ghost predicate Searched(sw: set<Node>, t: Links, payload: nat, h: Node, s: Search) {
    && (forall v {:trigger Settled(sw, t, payload, h, v, s.labels[v])} ::
          v in s.labels ==> Settled(sw, t, payload, h, v, s.labels[v]))
    && (forall v, w :: RouteTo(sw, t, h, v, w) ==> v in s.labels)
    && (forall v {:trigger HopsExact(sw, t, h, v, HopsOf(s, v))} :: HopsExact(sw, t, h, v, HopsOf(s, v)))
  }

  /** Label `l` of `v` holds its distance and the measures of one shortest route. */
  ghost predicate Settled(sw: set<Node>, t: Links, payload: nat, h: Node, v: Node, l: Label) {
    Distance(sw, t, h, v, l.dis) && exists w :: Witness(sw, t, payload, h, v, l, w)
  }

  method SearchFrom(sw: set<Node>, t: Links, ghost nodes: set<Node>, payload: nat, h: Node) returns (s: Search)
    requires h in nodes && Wired(t, nodes)
    ensures Searched(sw, t, payload, h, s)
  {
    s := Search([h], map[h := Label(0, 0, 0, U64 - 1)], map[]);
    ghost var paths: map<Node, seq<Node>> := map[h := [h]];
    var i := 0;
    while i < |s.q|
      invariant Between(sw, t, nodes, payload, h, s, paths, i)
      decreases |nodes| - i
    {
      QueueBounded(sw, nodes, h, s);
      EnterNode(sw, t, nodes, payload, h, s, paths, i);
      ghost var q := s.q;
      s, paths := ScanNeighbours(sw, t, nodes, payload, h, s, paths, AsSet(s.q[..i]), s.q[i]);
      SamePrefix(q, s.q, i);
      LeaveNode(sw, t, nodes, payload, h, s, paths, i);
      i := i + 1;
    }
    SearchEnds(sw, t, nodes, payload, h, s, paths);
  }

  lemma SamePrefix(q: seq<Node>, q': seq<Node>, i: nat)
    requires q <= q' && i < |q|
    ensures q'[..i] == q[..i] && q'[i] == q[i]
  {
  }

  lemma QueueBounded(sw: set<Node>, nodes: set<Node>, h: Node, s: Search)
    requires Queued(sw, nodes, h, s.q, s.labels)
    ensures |s.q| <= |nodes|
  {
    DistinctBounded(s.q, nodes);
  }

  /**
   * What a label means without the formulas that compute it: a shortest route with the summed delays, the summed
   * sending times (both in 64-bit arithmetic) and the least rate of its hops.
   */
  ghost predicate LabelMeans(sw: set<Node>, t: Links, payload: nat, h: Node, v: Node, l: Label, w: seq<Node>) {
    && RouteTo(sw, t, h, v, w) && |w| == l.dis + 1 && Distance(sw, t, h, v, l.dis)
    && l.delay == Sum(Delays(t, w)) % U64
    && l.txDelay == Sum(TxTimes(t, payload, w)) % U64
    && LeastRate(t, w, l.bw)
  }

  ghost function Sum(xs: seq<nat>): nat {
    if xs == [] then 0 else xs[0] + Sum(xs[1..])
  }

  lemma {:induction false} SumLast(xs: seq<nat>)
    requires xs != []
    ensures Sum(xs) == Sum(xs[..|xs| - 1]) + xs[|xs| - 1]
  {
    if |xs| == 1 {
      assert xs[..0] == [] && xs[1..] == [];
    } else {
      SumLast(xs[1..]);
      assert xs[1..][..|xs| - 2] == xs[..|xs| - 1][1..];
    }
  }

  ghost function Delays(t: Links, w: seq<Node>): seq<nat> {
    seq(if |w| == 0 then 0 else |w| - 1, i requires 0 <= i < |w| - 1 => At(t, w[i], w[i + 1]).delay)
  }

  ghost function TxTimes(t: Links, payload: nat, w: seq<Node>): seq<nat> {
    seq(if |w| == 0 then 0 else |w| - 1, i requires 0 <= i < |w| - 1 => TxTime(payload, At(t, w[i], w[i + 1]).bw))
  }

  lemma {:induction false} PathSums(t: Links, payload: nat, w: seq<Node>)
    ensures PathDelay(t, w) == Sum(Delays(t, w)) && PathTxDelay(t, payload, w) == Sum(TxTimes(t, payload, w))
  {
    if |w| > 1 {
      PathSums(t, payload, w[..|w| - 1]);
      DelaysNext(t, w);
      TxTimesNext(t, payload, w);
    }
  }

  lemma DelaysNext(t: Links, w: seq<Node>)
    requires |w| > 1
    ensures Sum(Delays(t, w)) == Sum(Delays(t, w[..|w| - 1])) + At(t, w[|w| - 2], w[|w| - 1]).delay
  {
    assert Delays(t, w)[..|w| - 2] == Delays(t, w[..|w| - 1]);
    SumLast(Delays(t, w));
  }

  lemma TxTimesNext(t: Links, payload: nat, w: seq<Node>)
    requires |w| > 1
    ensures Sum(TxTimes(t, payload, w)) ==
      Sum(TxTimes(t, payload, w[..|w| - 1])) + TxTime(payload, At(t, w[|w| - 2], w[|w| - 1]).bw)
  {
    assert TxTimes(t, payload, w)[..|w| - 2] == TxTimes(t, payload, w[..|w| - 1]);
    SumLast(TxTimes(t, payload, w));
  }

  /** Every label of a search means what it should. */
  lemma LabelsMean(sw: set<Node>, t: Links, payload: nat, h: Node, s: Search, v: Node) returns (w: seq<Node>)
    requires Searched(sw, t, payload, h, s) && v in s.labels
    ensures LabelMeans(sw, t, payload, h, v, s.labels[v], w)
  {
    assert Settled(sw, t, payload, h, v, s.labels[v]);
    w :| Witness(sw, t, payload, h, v, s.labels[v], w);
    PathBwIsLeast(t, w);
    PathSums(t, payload, w);
  }

  /** No route is shorter than a label, because every expanded node was scanned. */
  lemma {:induction false} NoShorterRoute(sw: set<Node>, t: Links, nodes: set<Node>, h: Node, s: Search, v: Node,
                                          w: seq<Node>)
    requires h in s.labels && s.labels[h].dis == 0 && Wired(t, nodes)
    requires forall u <- s.labels :: Expands(sw, h, u) ==> Scanned(t, s.labels, u, nodes)
    requires RouteTo(sw, t, h, v, w)
    ensures v in s.labels && s.labels[v].dis + 1 <= |w|
    decreases |w|
  {
    if |w| > 1 {
      var w' := w[..|w| - 1];
      var u := Last(w');
      assert Route(sw, t, h, w') by {
        assert forall i :: 0 <= i < |w'| - 1 ==> Up(t, w[i], w[i + 1]);
      }
      NoShorterRoute(sw, t, nodes, h, s, u, w');
      assert Up(t, w[|w| - 2], w[|w| - 1]);
      assert Expands(sw, h, u);
    }
  }

  lemma {:induction false} SearchEnds(sw: set<Node>, t: Links, nodes: set<Node>, payload: nat, h: Node, s: Search,
                                      paths: map<Node, seq<Node>>)
    requires Between(sw, t, nodes, payload, h, s, paths, |s.q|) && Wired(t, nodes)
    ensures Searched(sw, t, payload, h, s)
  {
    assert s.q[..|s.q|] == s.q;
    assert forall u <- s.labels :: Expands(sw, h, u) ==> Scanned(t, s.labels, u, nodes);
    forall v, w | RouteTo(sw, t, h, v, w) ensures v in s.labels && s.labels[v].dis + 1 <= |w| {
      NoShorterRoute(sw, t, nodes, h, s, v, w);
    }
    forall v | v in s.labels
      ensures Distance(sw, t, h, v, s.labels[v].dis) && Settled(sw, t, payload, h, v, s.labels[v]) {
      assert Witness(sw, t, payload, h, v, s.labels[v], paths[v]);
    }
    forall v ensures HopsExact(sw, t, h, v, HopsOf(s, v)) {
      HopsAreNearer(sw, t, nodes, payload, h, s, v);
    }
  }

  lemma {:induction false} HopsAreNearer(sw: set<Node>, t: Links, nodes: set<Node>, payload: nat, h: Node, s: Search,
                                         v: Node)
    requires Queued(sw, nodes, h, s.q, s.labels) && Pushed(t, s, AsSet(s.q), h, {})
    requires forall v <- s.labels :: Distance(sw, t, h, v, s.labels[v].dis)
    requires forall v, w :: RouteTo(sw, t, h, v, w) ==> v in s.labels
    ensures HopsExact(sw, t, h, v, HopsOf(s, v))
  {
    forall u ensures u in HopsOf(s, v) <==> NextHopOf(sw, t, h, v, u) {
      if u in HopsOf(s, v) {
        assert Distance(sw, t, h, u, s.labels[u].dis) && Distance(sw, t, h, v, s.labels[u].dis + 1);
      }
      if NextHopOf(sw, t, h, v, u) {
        var d: nat :| Distance(sw, t, h, u, d) && Distance(sw, t, h, v, d + 1);
        var w :| RouteTo(sw, t, h, u, w) && |w| == d + 1;
        var w' :| RouteTo(sw, t, h, v, w') && |w'| == d + 2;
        OneDistance(sw, t, h, u, d, s.labels[u].dis);
        OneDistance(sw, t, h, v, d + 1, s.labels[v].dis);
      }
    }
  }

  lemma OneDistance(sw: set<Node>, t: Links, h: Node, v: Node, d: nat, e: nat)
    requires Distance(sw, t, h, v, d) && Distance(sw, t, h, v, e)
    ensures d == e
  {
  }

  // ---------------------------------------------------------------------------
  // Forwarding along exact next hops

  /** A packet's trace: every step goes to some next hop of the current node. */
  ghost predicate Forwarded(sw: set<Node>, t: Links, h: Node, f: seq<Node>) {
    |f| > 0 && forall i :: 0 <= i < |f| - 1 ==> NextHopOf(sw, t, h, f[i], f[i + 1])
  }

  /**
   * Whatever next hops are chosen, step `i` is `d - i` hops away, inner nodes are switches and step `d` is the host.
   */
  lemma {:induction false} ForwardingReaches(sw: set<Node>, t: Links, h: Node, f: seq<Node>, d: nat, i: nat)
    requires Forwarded(sw, t, h, f) && Distance(sw, t, h, f[0], d) && i < |f|
    ensures i <= d && Distance(sw, t, h, f[i], d - i)
    ensures f[i] == h <==> i == d
    ensures 0 < i < d ==> f[i] in sw
  {
    if i > 0 {
      ForwardingReaches(sw, t, h, f, d, i - 1);
      assert NextHopOf(sw, t, h, f[i - 1], f[i - 1 + 1]);
      var e: nat :| Distance(sw, t, h, f[i], e) && Distance(sw, t, h, f[i - 1], e + 1);
      OneDistance(sw, t, h, f[i - 1], d - (i - 1), e + 1);
    }
    AtDistanceZero(sw, t, h, f[i], d - i);
  }

  lemma AtDistanceZero(sw: set<Node>, t: Links, h: Node, v: Node, d: nat)
    requires Distance(sw, t, h, v, d)
    ensures v == h <==> d == 0
  {
    assert RouteTo(sw, t, h, h, [h]);
  }

  /** A node away from the host always has a next hop. */
  lemma NextHopExists(sw: set<Node>, t: Links, h: Node, v: Node, d: nat) returns (u: Node)
    requires Distance(sw, t, h, v, d) && d > 0
    ensures NextHopOf(sw, t, h, v, u)
  {
    var w :| RouteTo(sw, t, h, v, w) && |w| == d + 1;
    var w' := w[..d];
    u := Last(w');
    assert Up(t, w[d - 1], w[d - 1 + 1]);
    assert Route(sw, t, h, w') by {
      assert forall i :: 0 <= i < |w'| - 1 ==> Up(t, w[i], w[i + 1]);
    }
    forall x | RouteTo(sw, t, h, u, x) ensures |x| >= d {
      if d > 1 {
        ExtendRoute(sw, t, h, x, v);
        assert RouteTo(sw, t, h, v, x + [v]);
      }
    }
    assert Distance(sw, t, h, u, d - 1);
  }

  // ---------------------------------------------------------------------------
  // Link failures

  ghost predicate Symmetric(t: Links) {
    forall u, v :: Up(t, u, v) <==> Up(t, v, u)
  }

  function SetInterface(t: Links, u: Node, v: Node, i: Interface): Links {
    t[u := (if u in t then t[u] else map[])[v := i]]
  }

  /** The link table after taking down a link; looking up a missing link inserts a default entry. */
  function TakenDown(t: Links, a: Node, b: Node): Links {
    var t1 := SetInterface(t, a, b, At(t, a, b).(up := false));
    if !Up(t, a, b) then t1 else SetInterface(t1, b, a, At(t1, b, a).(up := false))
  }

  lemma TakenDownUp(t: Links, a: Node, b: Node)
    requires Symmetric(t)
    ensures forall u, v :: Up(TakenDown(t, a, b), u, v) <==> Up(t, u, v) && !(u == a && v == b) && !(u == b && v == a)
    ensures forall u, v :: Up(TakenDown(t, a, b), u, v) ==> At(TakenDown(t, a, b), u, v) == At(t, u, v)
    ensures !Up(t, a, b) ==> SameLinks(t, TakenDown(t, a, b))
  {
    var t' := TakenDown(t, a, b);
    forall u, v ensures At(t', u, v) ==
      if (u == a && v == b) || (u == b && v == a && Up(t, a, b)) then At(t, u, v).(up := false) else At(t, u, v) {
    }
  }

  lemma TakenDownDiffers(t: Links, a: Node, b: Node)
    requires Symmetric(t) && Up(t, a, b)
    ensures !SameLinks(t, TakenDown(t, a, b))
  {
    TakenDownUp(t, a, b);
    assert At(t, a, b).up && !At(TakenDown(t, a, b), a, b).up;
  }

  function AfterCuts(t: Links, cuts: seq<(Node, Node)>): Links {
    if cuts == [] then t else
      var (a, b) := cuts[|cuts| - 1];
      TakenDown(AfterCuts(t, cuts[..|cuts| - 1]), a, b)
  }

  ghost predicate Below(t': Links, t: Links) {
    forall u, v :: Up(t', u, v) ==> Up(t, u, v)
  }

  /** Over any sequence of failures the up-state stays symmetric and links only go down. */
  lemma {:induction false} CutsKeep(t: Links, nodes: set<Node>, cuts: seq<(Node, Node)>)
    requires Symmetric(t) && Wired(t, nodes)
    ensures Symmetric(AfterCuts(t, cuts)) && Wired(AfterCuts(t, cuts), nodes) && Below(AfterCuts(t, cuts), t)
    ensures forall i :: 0 <= i < |cuts| ==> !Up(AfterCuts(t, cuts), cuts[i].0, cuts[i].1)
  {
    if cuts != [] {
      var rest := cuts[..|cuts| - 1];
      CutsKeep(t, nodes, rest);
      var (a, b) := cuts[|cuts| - 1];
      TakenDownUp(AfterCuts(t, rest), a, b);
      forall i | 0 <= i < |cuts| ensures !Up(AfterCuts(t, cuts), cuts[i].0, cuts[i].1) {
        assert i < |rest| ==> cuts[i] == rest[i];
      }
    }
  }

  /** No distance ever shrinks, and what becomes unreachable stays unreachable. */
  lemma DistancesGrow(sw: set<Node>, t: Links, t': Links, h: Node, v: Node, d': nat)
    requires Below(t', t) && Distance(sw, t', h, v, d')
    ensures forall d: nat :: Distance(sw, t, h, v, d) ==> d <= d'
    ensures exists w :: RouteTo(sw, t, h, v, w)
  {
    var w :| RouteTo(sw, t', h, v, w) && |w| == d' + 1;
    assert RouteTo(sw, t, h, v, w) by {
      forall i | 0 <= i < |w| - 1 ensures Up(t, w[i], w[i + 1]) {
        assert Up(t', w[i], w[i + 1]);
      }
    }
  }

  // ---------------------------------------------------------------------------
  // The global routing state

  /** A table of lists by destination host and node (the source keys by node first). */
  type Lists = map<Node, map<Node, seq<int>>>

  function Row(m: Lists, h: Node): map<Node, seq<int>> {
    if h in m then m[h] else map[]
  }

  function Cell(m: Lists, h: Node, v: Node): seq<int> {
    if v in Row(m, h) then Row(m, h)[v] else []
  }

  function AppendCell(m: Lists, h: Node, v: Node, xs: seq<int>): Lists {
    m[h := Row(m, h)[v := Cell(m, h, v) + xs]]
  }

  lemma AppendTwice(m: Lists, h: Node, v: Node, xs: seq<int>, ys: seq<int>)
    ensures AppendCell(AppendCell(m, h, v, xs), h, v, ys) == AppendCell(m, h, v, xs + ys)
  {
    var m', z := AppendCell(m, h, v, xs), Cell(m, h, v) + (xs + ys);
    assert Cell(m', h, v) + ys == z;
    assert Row(m', h)[v := z] == Row(m, h)[v := z];
    var row := Row(m, h)[v := z];
    assert m'[h := row] == m[h := row];
  }

  lemma AppendedCell(m: Lists, h: Node, v: Node, xs: seq<int>, h': Node, v': Node)
    ensures Cell(AppendCell(m, h, v, xs), h', v') == if h' == h && v' == v then Cell(m, h, v) + xs else Cell(m, h', v')
  {
  }

  function AppendRow(m: Lists, h: Node, row: map<Node, seq<int>>): Lists {
    m[h := map v | v in Row(m, h).Keys + row.Keys :: Cell(m, h, v) + if v in row then row[v] else []]
  }

  /** The interfaces of `v` towards its next hops. */
  function Interfaces(t: Links, v: Node, nexts: seq<Node>): seq<int> {
    if nexts == [] then [] else Interfaces(t, v, nexts[..|nexts| - 1]) + [At(t, v, nexts[|nexts| - 1]).idx]
  }

  ghost predicate HostRouted(sw: set<Node>, t: Links, h: Node, nextHop: Lists) {
    forall v {:trigger HopsExact(sw, t, h, v, Cell(nextHop, h, v))} :: HopsExact(sw, t, h, v, Cell(nextHop, h, v))
  }

  ghost predicate Installed(t: Links, nextHop: Lists, tables: Lists) {
    forall h, v :: Cell(tables, h, v) == Interfaces(t, v, Cell(nextHop, h, v))
  }

  lemma {:induction false} InterfaceAt(t: Links, v: Node, nexts: seq<Node>, k: nat)
    requires k < |nexts|
    ensures |Interfaces(t, v, nexts)| == |nexts| && Interfaces(t, v, nexts)[k] == At(t, v, nexts[k]).idx
  {
    if |nexts| > 1 {
      InterfaceAt(t, v, nexts[..|nexts| - 1], if k < |nexts| - 1 then k else 0);
    }
  }

  /** Every installed entry is the interface of an up link towards a node one hop nearer. */
  lemma InstalledAreUp(sw: set<Node>, t: Links, nextHop: Lists, tables: Lists, v: Node, h: Node, k: nat)
    requires Symmetric(t) && HostRouted(sw, t, h, nextHop) && Installed(t, nextHop, tables)
    requires k < |Cell(tables, h, v)|
    ensures exists u :: Up(t, v, u) && NextHopOf(sw, t, h, v, u) && Cell(tables, h, v)[k] == At(t, v, u).idx
  {
    var nexts := Cell(nextHop, h, v);
    assert HopsExact(sw, t, h, v, nexts);
    InterfaceAt(t, v, nexts, if k < |nexts| then k else 0);
    assert nexts[k] in nexts;
    assert Up(t, nexts[k], v) <==> Up(t, v, nexts[k]);
  }

  // ---------------------------------------------------------------------------
  // Forwarding by the installed tables

  /** In the cabling, interface `i` of `u` is attached to the link to `v`. */
  ghost predicate Leads(cabling: Links, u: Node, i: int, v: Node) {
    Up(cabling, u, v) && At(cabling, u, v).idx == i
  }

  /** The interfaces of a node have different numbers. */
  ghost predicate DistinctInterfaces(cabling: Links) {
    forall u, v, w :: Up(cabling, u, v) && Up(cabling, u, w) && At(cabling, u, v).idx == At(cabling, u, w).idx ==>
        v == w
  }

  /** A packet's trace: every node sends it out of some interface that its table lists for the host. */
  ghost predicate Sent(cabling: Links, tables: Lists, h: Node, f: seq<Node>) {
    |f| > 0 && forall i :: 0 <= i < |f| - 1 ==> SentOn(cabling, tables, h, f[i], f[i + 1])
  }

  ghost predicate SentOn(cabling: Links, tables: Lists, h: Node, u: Node, v: Node) {
    exists k :: 0 <= k < |Cell(tables, h, u)| && Leads(cabling, u, Cell(tables, h, u)[k], v)
  }

  /** After any failures, the links still up have kept their interfaces. */
  lemma {:induction false} CutsKeepInterfaces(t: Links, cuts: seq<(Node, Node)>)
    requires Symmetric(t)
    ensures Symmetric(AfterCuts(t, cuts))
    ensures forall u, v :: Up(AfterCuts(t, cuts), u, v) ==> Up(t, u, v) && At(AfterCuts(t, cuts), u, v) == At(t, u, v)
  {
    if cuts != [] {
      var rest := cuts[..|cuts| - 1];
      CutsKeepInterfaces(t, rest);
      TakenDownUp(AfterCuts(t, rest), cuts[|cuts| - 1].0, cuts[|cuts| - 1].1);
    }
  }

  /** A packet sent on an installed interface arrives at a next hop. */
  lemma SentIsNextHop(sw: set<Node>, cabling: Links, cuts: seq<(Node, Node)>, nextHop: Lists, tables: Lists, h: Node,
                      u: Node, v: Node)
    requires Symmetric(cabling) && DistinctInterfaces(cabling)
    requires HostRouted(sw, AfterCuts(cabling, cuts), h, nextHop)
      && Installed(AfterCuts(cabling, cuts), nextHop, tables)
    requires SentOn(cabling, tables, h, u, v)
    ensures NextHopOf(sw, AfterCuts(cabling, cuts), h, u, v)
  {
    var t := AfterCuts(cabling, cuts);
    CutsKeepInterfaces(cabling, cuts);
    var k: nat :| k < |Cell(tables, h, u)| && Leads(cabling, u, Cell(tables, h, u)[k], v);
    InstalledAreUp(sw, t, nextHop, tables, u, h, k);
    var w :| Up(t, u, w) && NextHopOf(sw, t, h, u, w) && Cell(tables, h, u)[k] == At(t, u, w).idx;
    assert Up(cabling, u, w) && At(cabling, u, w).idx == At(cabling, u, v).idx;
  }

  /**
   * After any link failures, a packet that follows whatever interfaces the rebuilt tables list reaches the host in
   * exactly the distance, through switches only.
   */
  lemma {:induction false} TablesReach(sw: set<Node>, cabling: Links, cuts: seq<(Node, Node)>, nextHop: Lists,
                                       tables: Lists,
                                       h: Node, f: seq<Node>, d: nat, i: nat)
    requires Symmetric(cabling) && DistinctInterfaces(cabling)
    requires HostRouted(sw, AfterCuts(cabling, cuts), h, nextHop)
      && Installed(AfterCuts(cabling, cuts), nextHop, tables)
    requires Sent(cabling, tables, h, f) && Distance(sw, AfterCuts(cabling, cuts), h, f[0], d) && i < |f|
    ensures i <= d && Distance(sw, AfterCuts(cabling, cuts), h, f[i], d - i)
    ensures f[i] == h <==> i == d
    ensures 0 < i < d ==> f[i] in sw
  {
    var t := AfterCuts(cabling, cuts);
    forall j | 0 <= j < |f| - 1 ensures NextHopOf(sw, t, h, f[j], f[j + 1]) {
      SentIsNextHop(sw, cabling, cuts, nextHop, tables, h, f[j], f[j + 1]);
    }
    assert Forwarded(sw, t, h, f);
    ForwardingReaches(sw, t, h, f, d, i);
  }

  /** And a reachable node away from the host always lists an interface that leads on. */
  lemma TablesLeadOn(sw: set<Node>, cabling: Links, cuts: seq<(Node, Node)>, nextHop: Lists, tables: Lists, h: Node,
                     u: Node, d: nat) returns (v: Node)
    requires Symmetric(cabling)
    requires HostRouted(sw, AfterCuts(cabling, cuts), h, nextHop)
      && Installed(AfterCuts(cabling, cuts), nextHop, tables)
    requires Distance(sw, AfterCuts(cabling, cuts), h, u, d) && d > 0
    ensures SentOn(cabling, tables, h, u, v)
  {
    var t := AfterCuts(cabling, cuts);
    CutsKeepInterfaces(cabling, cuts);
    v := NextHopExists(sw, t, h, u, d);
    var nexts := Cell(nextHop, h, u);
    assert HopsExact(sw, t, h, u, nexts);
    var k: nat :| k < |nexts| && nexts[k] == v;
    InterfaceAt(t, u, nexts, k);
    assert Up(t, v, u) <==> Up(t, u, v);
    assert Leads(cabling, u, Cell(tables, h, u)[k], v);
  }

  lemma AppendedRow(m: Lists, h: Node, s: Search, v: Node, h': Node)
    ensures Cell(AppendRow(m, h, s.hops), h', v) == Cell(m, h', v) + if h' == h then HopsOf(s, v) else []
  {
  }

  /** The first `i` nodes have been treated; nothing is recorded for the others. */
  ghost predicate RoutedUpTo(sw: set<Node>, t: Links, nodes: seq<Node>, i: nat, nextHop: Lists) {
    && (forall j {:trigger HostRouted(sw, t, nodes[j], nextHop)} ::
          0 <= j < i && j < |nodes| && nodes[j] !in sw ==> HostRouted(sw, t, nodes[j], nextHop))
    && (forall j, v :: 0 <= i <= j < |nodes| ==> Cell(nextHop, nodes[j], v) == [])
  }

  lemma RoutedNext(sw: set<Node>, t: Links, nodes: seq<Node>, payload: nat, i: nat, s: Search, before: Lists,
                   after: Lists)
    requires Distinct(nodes) && i < |nodes| && RoutedUpTo(sw, t, nodes, i, before)
    requires Searched(sw, t, payload, nodes[i], s) && after == AppendRow(before, nodes[i], s.hops)
    ensures RoutedUpTo(sw, t, nodes, i + 1, after)
  {
    var h := nodes[i];
    forall j | 0 <= j < i + 1 && nodes[j] !in sw ensures HostRouted(sw, t, nodes[j], after) {
      if j < i {
        OtherRows(before, h, s, nodes[j]);
        StillRouted(sw, t, nodes[j], before, after);
      } else {
        OwnRow(before, h, s);
        NowRouted(sw, t, payload, h, s, after);
      }
    }
    forall j, v | i + 1 <= j < |nodes| ensures Cell(after, nodes[j], v) == [] {
      OtherRows(before, h, s, nodes[j]);
    }
  }

  lemma OtherRows(before: Lists, h: Node, s: Search, h': Node)
    requires h' != h
    ensures forall v :: Cell(AppendRow(before, h, s.hops), h', v) == Cell(before, h', v)
  {
    forall v ensures Cell(AppendRow(before, h, s.hops), h', v) == Cell(before, h', v) {
      AppendedRow(before, h, s, v, h');
    }
  }

  lemma OwnRow(before: Lists, h: Node, s: Search)
    requires forall v :: Cell(before, h, v) == []
    ensures forall v :: Cell(AppendRow(before, h, s.hops), h, v) == HopsOf(s, v)
  {
    forall v ensures Cell(AppendRow(before, h, s.hops), h, v) == HopsOf(s, v) {
      AppendedRow(before, h, s, v, h);
    }
  }

  lemma StillRouted(sw: set<Node>, t: Links, h: Node, before: Lists, after: Lists)
    requires HostRouted(sw, t, h, before) && forall v :: Cell(after, h, v) == Cell(before, h, v)
    ensures HostRouted(sw, t, h, after)
  {
    forall v ensures HopsExact(sw, t, h, v, Cell(after, h, v)) {
      assert HopsExact(sw, t, h, v, Cell(before, h, v));
    }
  }

  lemma NowRouted(sw: set<Node>, t: Links, payload: nat, h: Node, s: Search, after: Lists)
    requires Searched(sw, t, payload, h, s) && forall v :: Cell(after, h, v) == HopsOf(s, v)
    ensures HostRouted(sw, t, h, after)
  {
    forall v ensures HopsExact(sw, t, h, v, Cell(after, h, v)) {
      assert HopsExact(sw, t, h, v, HopsOf(s, v));
    }
  }

  ghost predicate SameLinks(t: Links, t': Links) {
    forall u, v :: At(t, u, v) == At(t', u, v)
  }

  /** Link tables that read the same give the same routes and interfaces. */
  lemma SameRoutes(sw: set<Node>, t: Links, t': Links, h: Node, nextHop: Lists)
    requires SameLinks(t, t') && HostRouted(sw, t, h, nextHop)
    ensures HostRouted(sw, t', h, nextHop)
  {
    forall v, d: nat ensures Distance(sw, t, h, v, d) <==> Distance(sw, t', h, v, d) {
      SameDistance(sw, t, t', h, v, d);
    }
    forall v ensures HopsExact(sw, t', h, v, Cell(nextHop, h, v)) {
      assert HopsExact(sw, t, h, v, Cell(nextHop, h, v));
      forall u ensures NextHopOf(sw, t, h, v, u) <==> NextHopOf(sw, t', h, v, u) {
      }
    }
  }

  lemma SameDistance(sw: set<Node>, t: Links, t': Links, h: Node, v: Node, d: nat)
    requires SameLinks(t, t')
    ensures Distance(sw, t, h, v, d) <==> Distance(sw, t', h, v, d)
  {
    forall w ensures RouteTo(sw, t, h, v, w) <==> RouteTo(sw, t', h, v, w) {
    }
  }

  lemma {:induction false} SameInterfaces(t: Links, t': Links, v: Node, nexts: seq<Node>)
    requires SameLinks(t, t')
    ensures Interfaces(t, v, nexts) == Interfaces(t', v, nexts)
  {
    if nexts != [] {
      SameInterfaces(t, t', v, nexts[..|nexts| - 1]);
    }
  }

  // ---------------------------------------------------------------------------
  // The pair measures over failures: cleared for pairs still connected, stale for the others

  /** The measures recorded for the routes of one host. */
  function PairOf(pair: map<Node, Labels>, h: Node): Labels {
    if h in pair then pair[h] else map[]
  }

  ghost predicate Reached(sw: set<Node>, t: Links, h: Node, v: Node) {
    exists w :: RouteTo(sw, t, h, v, w)
  }

  /** A new search overwrites the measures of the nodes it reaches and leaves the others. */
  ghost predicate CellUpdated(sw: set<Node>, t: Links, payload: nat, h: Node, v: Node, before: Labels, after: Labels) {
    if Reached(sw, t, h, v) then v in after && Settled(sw, t, payload, h, v, after[v])
    else (v in after <==> v in before) && (v in after ==> after[v] == before[v])
  }

  ghost predicate RowUpdated(sw: set<Node>, t: Links, payload: nat, h: Node, before: Labels, after: Labels) {
    forall v {:trigger CellUpdated(sw, t, payload, h, v, before, after)} ::
      CellUpdated(sw, t, payload, h, v, before, after)
  }

  lemma SearchUpdates(sw: set<Node>, t: Links, payload: nat, h: Node, s: Search, before: Labels)
    requires Searched(sw, t, payload, h, s)
    ensures RowUpdated(sw, t, payload, h, before, before + s.labels)
  {
    forall v ensures CellUpdated(sw, t, payload, h, v, before, before + s.labels) {
      if v in s.labels {
        assert Settled(sw, t, payload, h, v, s.labels[v]);
        var w :| Witness(sw, t, payload, h, v, s.labels[v], w);
      }
    }
  }

  /** The rows of the first `i` nodes are updated, those of the others are as before. */
  ghost predicate PairsUpdated(sw: set<Node>, t: Links, payload: nat, nodes: seq<Node>, i: nat,
                               before: map<Node, Labels>, after: map<Node, Labels>) {
    && (forall j {:trigger nodes[j]} :: 0 <= j < i && j < |nodes| && nodes[j] !in sw ==>
          RowUpdated(sw, t, payload, nodes[j], PairOf(before, nodes[j]), PairOf(after, nodes[j])))
    && (forall j {:trigger nodes[j]} :: i <= j < |nodes| ==> PairOf(after, nodes[j]) == PairOf(before, nodes[j]))
  }

  lemma PairsNext(sw: set<Node>, t: Links, payload: nat, nodes: seq<Node>, i: nat, s: Search,
                  before: map<Node, Labels>, mid: map<Node, Labels>)
    requires Distinct(nodes) && i < |nodes| && PairsUpdated(sw, t, payload, nodes, i, before, mid)
    requires Searched(sw, t, payload, nodes[i], s)
    ensures PairsUpdated(sw, t, payload, nodes, i + 1, before, mid[nodes[i] := PairOf(mid, nodes[i]) + s.labels])
  {
    SearchUpdates(sw, t, payload, nodes[i], s, PairOf(mid, nodes[i]));
    var after := mid[nodes[i] := PairOf(mid, nodes[i]) + s.labels];
    forall j | 0 <= j < |nodes| && j != i ensures PairOf(after, nodes[j]) == PairOf(mid, nodes[j]) {
    }
  }

  lemma PairsSkip(sw: set<Node>, t: Links, payload: nat, nodes: seq<Node>, i: nat, before: map<Node, Labels>,
                  after: map<Node, Labels>)
    requires i < |nodes| && nodes[i] in sw && PairsUpdated(sw, t, payload, nodes, i, before, after)
    ensures PairsUpdated(sw, t, payload, nodes, i + 1, before, after)
  {
  }

  /** Failure `i` is the one that cut `v` off from `h`. */
  ghost predicate CutOff(sw: set<Node>, t0: Links, cuts: seq<(Node, Node)>, h: Node, v: Node, i: nat) {
    && i < |cuts|
    && Reached(sw, AfterCuts(t0, cuts[..i]), h, v)
    && !Reached(sw, AfterCuts(t0, cuts[..i + 1]), h, v)
  }

  /**
   * After the failures `cuts`: a pair still connected has the measures of a current shortest route; a recorded one that
   * is not has those of a shortest route just before it was cut off.
   */
  ghost predicate CellFits(sw: set<Node>, payload: nat, t0: Links, cuts: seq<(Node, Node)>, h: Node, v: Node,
                           row: Labels) {
    if Reached(sw, AfterCuts(t0, cuts), h, v) then
      v in row && Settled(sw, AfterCuts(t0, cuts), payload, h, v, row[v])
    else v in row ==>
      exists i: nat :: CutOff(sw, t0, cuts, h, v, i) && Settled(sw, AfterCuts(t0, cuts[..i]), payload, h, v, row[v])
  }

  ghost predicate RowFits(sw: set<Node>, payload: nat, t0: Links, cuts: seq<(Node, Node)>, h: Node, row: Labels) {
    forall v {:trigger CellFits(sw, payload, t0, cuts, h, v, row)} :: CellFits(sw, payload, t0, cuts, h, v, row)
  }

  ghost predicate PairsFit(sw: set<Node>, payload: nat, nodes: seq<Node>, t0: Links, cuts: seq<(Node, Node)>,
                           pair: map<Node, Labels>) {
    forall j {:trigger nodes[j]} :: 0 <= j < |nodes| && nodes[j] !in sw ==>
      RowFits(sw, payload, t0, cuts, nodes[j], PairOf(pair, nodes[j]))
  }

  lemma FirstFits(sw: set<Node>, payload: nat, nodes: seq<Node>, t0: Links, pair: map<Node, Labels>)
    requires PairsUpdated(sw, t0, payload, nodes, |nodes|, map[], pair)
    ensures PairsFit(sw, payload, nodes, t0, [], pair)
  {
    forall j | 0 <= j < |nodes| && nodes[j] !in sw
      ensures RowFits(sw, payload, t0, [], nodes[j], PairOf(pair, nodes[j]))
    {
      forall v ensures CellFits(sw, payload, t0, [], nodes[j], v, PairOf(pair, nodes[j])) {
        assert CellUpdated(sw, t0, payload, nodes[j], v, map[], PairOf(pair, nodes[j]));
      }
    }
  }

  lemma CutsPrefix(t0: Links, cuts: seq<(Node, Node)>, cut: (Node, Node), i: nat)
    requires i <= |cuts|
    ensures (cuts + [cut])[..i] == cuts[..i] && (cuts + [cut])[..|cuts|] == cuts && cuts[..|cuts|] == cuts
    ensures AfterCuts(t0, cuts + [cut]) == TakenDown(AfterCuts(t0, cuts), cut.0, cut.1)
  {
  }

  /** The measures of a pair that is not reached after one more failure. */
  lemma StaleNext(sw: set<Node>, payload: nat, t0: Links, cuts: seq<(Node, Node)>, cut: (Node, Node), h: Node, v: Node,
                  row: Labels)
    requires CellFits(sw, payload, t0, cuts, h, v, row) && !Reached(sw, AfterCuts(t0, cuts + [cut]), h, v)
    ensures CellFits(sw, payload, t0, cuts + [cut], h, v, row)
  {
    if v in row {
      if Reached(sw, AfterCuts(t0, cuts), h, v) {
        CutOffNow(sw, t0, cuts, cut, h, v);
      } else {
        var i: nat :| CutOff(sw, t0, cuts, h, v, i) && Settled(sw, AfterCuts(t0, cuts[..i]), payload, h, v, row[v]);
        CutOffStays(sw, t0, cuts, cut, h, v, i);
      }
    }
  }

  lemma CutOffNow(sw: set<Node>, t0: Links, cuts: seq<(Node, Node)>, cut: (Node, Node), h: Node, v: Node)
    requires Reached(sw, AfterCuts(t0, cuts), h, v) && !Reached(sw, AfterCuts(t0, cuts + [cut]), h, v)
    ensures CutOff(sw, t0, cuts + [cut], h, v, |cuts|) && (cuts + [cut])[..|cuts|] == cuts
  {
    assert (cuts + [cut])[..|cuts|] == cuts;
    assert (cuts + [cut])[..|cuts| + 1] == cuts + [cut];
  }

  lemma CutOffStays(sw: set<Node>, t0: Links, cuts: seq<(Node, Node)>, cut: (Node, Node), h: Node, v: Node, i: nat)
    requires CutOff(sw, t0, cuts, h, v, i)
    ensures CutOff(sw, t0, cuts + [cut], h, v, i) && (cuts + [cut])[..i] == cuts[..i]
  {
    assert (cuts + [cut])[..i] == cuts[..i];
    assert (cuts + [cut])[..i + 1] == cuts[..i + 1];
  }

  /** After a failure that was followed by new searches. */
  lemma UpdateFits(sw: set<Node>, payload: nat, t0: Links, cuts: seq<(Node, Node)>, cut: (Node, Node), h: Node,
                   before: Labels, after: Labels)
    requires RowFits(sw, payload, t0, cuts, h, before)
    requires RowUpdated(sw, AfterCuts(t0, cuts + [cut]), payload, h, before, after)
    ensures RowFits(sw, payload, t0, cuts + [cut], h, after)
  {
    forall v ensures CellFits(sw, payload, t0, cuts + [cut], h, v, after) {
      assert CellUpdated(sw, AfterCuts(t0, cuts + [cut]), payload, h, v, before, after);
      if !Reached(sw, AfterCuts(t0, cuts + [cut]), h, v) {
        assert CellFits(sw, payload, t0, cuts, h, v, before);
        StaleNext(sw, payload, t0, cuts, cut, h, v, before);
      }
    }
  }

  lemma {:induction false} SamePath(t: Links, t': Links, payload: nat, w: seq<Node>)
    requires SameLinks(t, t')
    ensures PathDelay(t, w) == PathDelay(t', w) && PathTxDelay(t, payload, w) == PathTxDelay(t', payload, w)
    ensures PathBw(t, w) == PathBw(t', w)
  {
    if |w| > 1 {
      SamePath(t, t', payload, w[..|w| - 1]);
    }
  }

  lemma SameSettled(sw: set<Node>, t: Links, t': Links, payload: nat, h: Node, v: Node, l: Label)
    requires SameLinks(t, t') && Settled(sw, t, payload, h, v, l)
    ensures Settled(sw, t', payload, h, v, l)
  {
    SameDistance(sw, t, t', h, v, l.dis);
    var w :| Witness(sw, t, payload, h, v, l, w);
    SamePath(t, t', payload, w);
    assert Witness(sw, t', payload, h, v, l, w);
  }

  lemma SameReached(sw: set<Node>, t: Links, t': Links, h: Node, v: Node)
    requires SameLinks(t, t')
    ensures Reached(sw, t, h, v) <==> Reached(sw, t', h, v)
  {
    forall w ensures RouteTo(sw, t, h, v, w) <==> RouteTo(sw, t', h, v, w) {
    }
  }

  /** After a failure of a link that was down already. */
  lemma SkipFits(sw: set<Node>, payload: nat, t0: Links, cuts: seq<(Node, Node)>, cut: (Node, Node), h: Node,
                 row: Labels)
    requires RowFits(sw, payload, t0, cuts, h, row) && SameLinks(AfterCuts(t0, cuts), AfterCuts(t0, cuts + [cut]))
    ensures RowFits(sw, payload, t0, cuts + [cut], h, row)
  {
    var t, t' := AfterCuts(t0, cuts), AfterCuts(t0, cuts + [cut]);
    forall v ensures CellFits(sw, payload, t0, cuts + [cut], h, v, row) {
      assert CellFits(sw, payload, t0, cuts, h, v, row);
      SameReached(sw, t, t', h, v);
      if Reached(sw, t', h, v) {
        SameSettled(sw, t, t', payload, h, v, row[v]);
      } else {
        StaleNext(sw, payload, t0, cuts, cut, h, v, row);
      }
    }
  }

  /** What one failure did to the recorded measures. */
  ghost predicate PairsMoved(sw: set<Node>, payload: nat, nodes: seq<Node>, t: Links, t': Links,
                             before: map<Node, Labels>, after: map<Node, Labels>) {
    if SameLinks(t, t') then after == before else PairsUpdated(sw, t', payload, nodes, |nodes|, before, after)
  }

  lemma MovedFits(sw: set<Node>, payload: nat, nodes: seq<Node>, t0: Links, cuts: seq<(Node, Node)>, cut: (Node, Node),
                  before: map<Node, Labels>, after: map<Node, Labels>)
    requires PairsFit(sw, payload, nodes, t0, cuts, before)
    requires PairsMoved(sw, payload, nodes, AfterCuts(t0, cuts), AfterCuts(t0, cuts + [cut]), before, after)
    ensures PairsFit(sw, payload, nodes, t0, cuts + [cut], after)
  {
    forall j | 0 <= j < |nodes| && nodes[j] !in sw
      ensures RowFits(sw, payload, t0, cuts + [cut], nodes[j], PairOf(after, nodes[j]))
    {
      assert RowFits(sw, payload, t0, cuts, nodes[j], PairOf(before, nodes[j]));
      if SameLinks(AfterCuts(t0, cuts), AfterCuts(t0, cuts + [cut])) {
        SkipFits(sw, payload, t0, cuts, cut, nodes[j], PairOf(before, nodes[j]));
      } else {
        UpdateFits(sw, payload, t0, cuts, cut, nodes[j], PairOf(before, nodes[j]), PairOf(after, nodes[j]));
      }
    }
  }

  class Network {
    const switches: set<Node>
    const nodes: seq<Node>
    const payload: nat
    var nbr2if: Links
    var nextHop: Lists
    var pair: map<Node, Labels>
    var tables: Lists
    ghost var cabling: Links
    ghost var past: seq<(Node, Node)>

    ghost predicate Valid()
      reads this
    {
      Distinct(nodes) && Wired(nbr2if, AsSet(nodes)) && Symmetric(nbr2if)
    }

    /** The setup: compute and install the routes of the initial topology. */
    constructor (switches: set<Node>, nodes: seq<Node>, payload: nat, links: Links)
      requires Distinct(nodes) && Wired(links, AsSet(nodes)) && Symmetric(links)
      ensures this.switches == switches && this.nodes == nodes && this.payload == payload && nbr2if == links
      ensures cabling == links && past == [] && Valid() && Routed() && Measured()
    {
      this.switches, this.nodes, this.payload := switches, nodes, payload;
      nbr2if, nextHop, pair, tables := links, map[], map[], map[];
      cabling, past := links, [];
      new;
      CalculateRoutes();
      FirstFits(switches, payload, nodes, links, pair);
      FillTables();
    }

    /** The routing tables are exact for the links that are up now. */
    ghost predicate Routed()
      reads this
    {
      RoutedUpTo(switches, nbr2if, nodes, |nodes|, nextHop) && Installed(nbr2if, nextHop, tables)
    }

    /** The pair measures fit the failures `past` of the links in `cabling`. */
    ghost predicate Measured()
      reads this
    {
      nbr2if == AfterCuts(cabling, past) && PairsFit(switches, payload, nodes, cabling, past, pair)
    }

    /**
     * Appends the next hops towards `host` found by the search, and overwrites `pairDelay`, `pairTxDelay` and
     * `pairBw` (one record per pair) for the nodes that were reached.
     */
    method CalculateRoute(host: Node) returns (found: Search)
      requires Valid() && host in nodes
      modifies this`nextHop, this`pair
      ensures Searched(switches, nbr2if, payload, host, found)
      ensures nextHop == AppendRow(old(nextHop), host, found.hops)
      ensures pair == old(pair)[host := PairOf(old(pair), host) + found.labels]
    {
      found := SearchFrom(switches, nbr2if, AsSet(nodes), payload, host);
      nextHop := AppendRow(nextHop, host, found.hops);
      pair := pair[host := PairOf(pair, host) + found.labels];
    }

    method CalculateRoutes()
      requires Valid()
      modifies this`nextHop, this`pair
      ensures old(nextHop) == map[] ==> RoutedUpTo(switches, nbr2if, nodes, |nodes|, nextHop)
      ensures PairsUpdated(switches, nbr2if, payload, nodes, |nodes|, old(pair), pair)
    {
      ghost var cleared := nextHop == map[];
      for i := 0 to |nodes|
        invariant cleared ==> RoutedUpTo(switches, nbr2if, nodes, i, nextHop)
        invariant PairsUpdated(switches, nbr2if, payload, nodes, i, old(pair), pair)
      {
        RouteNode(i, cleared, old(pair));
      }
    }

    /** The loop body: one search if the node is a host. */
    method RouteNode(i: nat, ghost cleared: bool, ghost first: map<Node, Labels>)
      requires Valid() && i < |nodes| && (cleared ==> RoutedUpTo(switches, nbr2if, nodes, i, nextHop))
      requires PairsUpdated(switches, nbr2if, payload, nodes, i, first, pair)
      modifies this`nextHop, this`pair
      ensures cleared ==> RoutedUpTo(switches, nbr2if, nodes, i + 1, nextHop)
      ensures PairsUpdated(switches, nbr2if, payload, nodes, i + 1, first, pair)
    {
      if nodes[i] in switches {
        PairsSkip(switches, nbr2if, payload, nodes, i, first, pair);
        return;
      }
      ghost var before, mid := nextHop, pair;
      var found := CalculateRoute(nodes[i]);
      PairsNext(switches, nbr2if, payload, nodes, i, found, first, mid);
      if cleared {
        RoutedNext(switches, nbr2if, nodes, payload, i, found, before, nextHop);
      }
    }

    /** The entries of one (node, destination) pair. */
    method SetEntries(dst: Node, node: Node, nexts: seq<Node>)
      modifies this`tables
      ensures tables == AppendCell(old(tables), dst, node, Interfaces(nbr2if, node, nexts))
    {
      tables := AppendCell(tables, dst, node, []);
      for k := 0 to |nexts|
        invariant tables == AppendCell(old(tables), dst, node, Interfaces(nbr2if, node, nexts[..k]))
      {
        assert nexts[..k + 1][..k] == nexts[..k];
        AppendTwice(old(tables), dst, node, Interfaces(nbr2if, node, nexts[..k]), [At(nbr2if, node, nexts[k]).idx]);
        tables := AppendCell(tables, dst, node, [At(nbr2if, node, nexts[k]).idx]);
      }
      assert nexts[..|nexts|] == nexts;
    }

    /** The entries of one destination. */
    method SetRow(dst: Node)
      requires dst in nextHop
      modifies this`tables
      ensures forall v ::
        Cell(tables, dst, v) == old(Cell(tables, dst, v)) + Interfaces(nbr2if, v, Cell(nextHop, dst, v))
      ensures forall h, v :: h != dst ==> Cell(tables, h, v) == old(Cell(tables, h, v))
    {
      var todo := nextHop[dst].Keys;
      while todo != {}
        invariant todo <= nextHop[dst].Keys
        invariant forall h, v :: h != dst || v in todo ==> Cell(tables, h, v) == old(Cell(tables, h, v))
        invariant forall v :: v !in todo ==>
          Cell(tables, dst, v) == old(Cell(tables, dst, v)) + Interfaces(nbr2if, v, Cell(nextHop, dst, v))
      {
        var node := AnyOf(todo);
        ghost var before := tables;
        SetEntries(dst, node, nextHop[dst][node]);
        forall h, v ensures Cell(tables, h, v) ==
          if h == dst && v == node then Cell(before, h, v) + Interfaces(nbr2if, v, Cell(nextHop, h, v))
              else Cell(before, h, v) {
          AppendedCell(before, dst, node, Interfaces(nbr2if, node, nextHop[dst][node]), h, v);
        }
        todo := todo - {node};
      }
    }

    /** Appends to each table the interfaces towards the recorded next hops. */
    method SetRoutingEntries()
      modifies this`tables
      ensures forall h, v :: Cell(tables, h, v) == old(Cell(tables, h, v)) + Interfaces(nbr2if, v, Cell(nextHop, h, v))
    {
      var dsts := nextHop.Keys;
      while dsts != {}
        invariant dsts <= nextHop.Keys
        invariant forall h, v :: h in dsts ==> Cell(tables, h, v) == old(Cell(tables, h, v))
        invariant forall h, v :: h !in dsts ==>
          Cell(tables, h, v) == old(Cell(tables, h, v)) + Interfaces(nbr2if, v, Cell(nextHop, h, v))
      {
        var dst := AnyOf(dsts);
        SetRow(dst);
        dsts := dsts - {dst};
      }
    }

    /** Takes the link down and rebuilds every table for what is left; the measures of pairs cut off stay. */
    method TakeDownLink(a: Node, b: Node)
      requires Valid() && Routed() && Measured()
      modifies this`nbr2if, this`nextHop, this`pair, this`tables, this`past
      ensures nbr2if == TakenDown(old(nbr2if), a, b) && past == old(past) + [(a, b)]
      ensures Valid() && Routed() && Measured()
      ensures PairsMoved(switches, payload, nodes, old(nbr2if), nbr2if, old(pair), pair)
    {
      ghost var cuts, before := past, pair;
      CutsPrefix(cabling, cuts, (a, b), |cuts|);
      Rebuild(a, b);
      past := past + [(a, b)];
      MovedFits(switches, payload, nodes, cabling, cuts, (a, b), before, pair);
    }

    /** The body of `TakeDownLink`. */
    method Rebuild(a: Node, b: Node)
      requires Valid() && Routed()
      modifies this`nbr2if, this`nextHop, this`pair, this`tables
      ensures nbr2if == TakenDown(old(nbr2if), a, b)
      ensures Valid() && Routed()
      ensures PairsMoved(switches, payload, nodes, old(nbr2if), nbr2if, old(pair), pair)
    {
      var t := nbr2if;
      TakenDownUp(t, a, b);
      nbr2if := TakenDown(nbr2if, a, b);
      if !Up(t, a, b) {
        StillInstalled(switches, nodes, t, nbr2if, nextHop, tables);
        return;
      }
      TakenDownDiffers(t, a, b);
      nextHop := map[];
      CalculateRoutes();
      tables := map[];
      FillTables();
    }

    /** From cleared tables, the entries installed are those of the recorded next hops. */
    method FillTables()
      requires tables == map[]
      modifies this`tables
      ensures Installed(nbr2if, nextHop, tables)
    {
      SetRoutingEntries();
    }

    /** What every run of link failures keeps. */
    method TakeDownLinks(cuts: seq<(Node, Node)>)
      requires Valid() && Routed() && Measured()
      modifies this`nbr2if, this`nextHop, this`pair, this`tables, this`past
      ensures nbr2if == AfterCuts(old(nbr2if), cuts) && past == old(past) + cuts
      ensures Valid() && Routed() && Measured()
    {
      for i := 0 to |cuts|
        invariant nbr2if == AfterCuts(old(nbr2if), cuts[..i]) && past == old(past) + cuts[..i]
        invariant Valid() && Routed() && Measured()
      {
        assert cuts[..i + 1] == cuts[..i] + [cuts[i]];
        CutsPrefix(old(nbr2if), cuts[..i], cuts[i], i);
        TakeDownLink(cuts[i].0, cuts[i].1);
      }
      assert cuts[..|cuts|] == cuts;
    }
  }

  lemma StillInstalled(sw: set<Node>, nodes: seq<Node>, t: Links, t': Links, nextHop: Lists, tables: Lists)
    requires SameLinks(t, t') && RoutedUpTo(sw, t, nodes, |nodes|, nextHop) && Installed(t, nextHop, tables)
    ensures RoutedUpTo(sw, t', nodes, |nodes|, nextHop) && Installed(t', nextHop, tables)
  {
    forall j | 0 <= j < |nodes| && nodes[j] !in sw ensures HostRouted(sw, t', nodes[j], nextHop) {
      assert HostRouted(sw, t, nodes[j], nextHop);
      SameRoutes(sw, t, t', nodes[j], nextHop);
    }
    forall h, v ensures Cell(tables, h, v) == Interfaces(t', v, Cell(nextHop, h, v)) {
      SameInterfaces(t, t', v, Cell(nextHop, h, v));
    }
  }
}
