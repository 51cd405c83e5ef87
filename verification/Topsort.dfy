/** Kahn's topological sort of (parent, child) pairs, as one list and level by level. */
module Topsort {
  import opened Collections

  /** Element labels; the algorithms only compare them. */
  type Node = int

  type Pairs = seq<(Node, Node)>

  ghost function Elements(pairs: Pairs): set<Node> {
    if pairs == [] then {} else
      Elements(pairs[..|pairs| - 1]) + {pairs[|pairs| - 1].0, pairs[|pairs| - 1].1}
  }

  // ---------------------------------------------------------------------------
  // The reference notions: closed walks, dependency order, chains of ancestors

  ghost predicate Parent(pairs: Pairs, p: Node, c: Node) {
    (p, c) in pairs
  }

  ghost predicate Walk(pairs: Pairs, w: seq<Node>) {
    |w| > 0 && forall i :: 0 <= i < |w| - 1 ==> Parent(pairs, w[i], w[i + 1])
  }

  ghost predicate ClosedWalk(pairs: Pairs, w: seq<Node>) {
    Walk(pairs, w) && Parent(pairs, w[|w| - 1], w[0])
  }

  ghost predicate HasCycle(pairs: Pairs) {
    exists w :: ClosedWalk(pairs, w)
  }

  /** Each element of `s` comes after all its parents. */
  ghost predicate Ordered(pairs: Pairs, s: seq<Node>) {
    forall k :: 0 <= k < |s| ==> ParentsWithin(pairs, s[..k], s[k])
  }

  ghost predicate ParentsWithin(pairs: Pairs, before: seq<Node>, x: Node) {
    forall p :: Parent(pairs, p, x) ==> p in before
  }

  /** `x` ends a chain of `k` pairs. */
  ghost predicate HasChain(pairs: Pairs, x: Node, k: nat)
    decreases k
  {
    if k == 0 then true else exists p :: Parent(pairs, p, x) && HasChain(pairs, p, k - 1)
  }

  // ---------------------------------------------------------------------------
  // Counting

  /** Number of pairs that give `x` a parent outside `done`, duplicates included. */
  ghost function NumParents(pairs: Pairs, done: set<Node>, x: Node): nat {
    if pairs == [] then 0 else
      var rest, (p, c) := pairs[..|pairs| - 1], pairs[|pairs| - 1];
      NumParents(rest, done, x) + if c == x && p !in done then 1 else 0
  }

  ghost function Children(pairs: Pairs, p: Node): seq<Node> {
    if pairs == [] then [] else
      var rest, (q, c) := pairs[..|pairs| - 1], pairs[|pairs| - 1];
      Children(rest, p) + if q == p then [c] else []
  }

  lemma LastPair(pairs: Pairs, p: Node, c: Node)
    requires pairs != []
    ensures Parent(pairs, p, c) <==> Parent(pairs[..|pairs| - 1], p, c) || pairs[|pairs| - 1] == (p, c)
  {
    assert pairs == pairs[..|pairs| - 1] + [pairs[|pairs| - 1]];
  }

  lemma {:induction false} NoParents(pairs: Pairs, done: set<Node>, x: Node)
    ensures NumParents(pairs, done, x) == 0 <==> forall p :: Parent(pairs, p, x) ==> p in done
  {
    if pairs != [] {
      NoParents(pairs[..|pairs| - 1], done, x);
      forall p ensures Parent(pairs, p, x) <==> Parent(pairs[..|pairs| - 1], p, x) || pairs[|pairs| - 1] == (p, x) {
        LastPair(pairs, p, x);
      }
      assert Parent(pairs, pairs[|pairs| - 1].0, pairs[|pairs| - 1].1);
    }
  }

  lemma {:induction false} ParentDone(pairs: Pairs, done: set<Node>, p: Node, x: Node)
    requires p !in done
    ensures NumParents(pairs, done, x) == NumParents(pairs, done + {p}, x) + multiset(Children(pairs, p))[x]
  {
    if pairs != [] {
      ParentDone(pairs[..|pairs| - 1], done, p, x);
    }
  }

  lemma {:induction false} ChildrenArePairs(pairs: Pairs, p: Node, c: Node)
    ensures c in Children(pairs, p) <==> Parent(pairs, p, c)
  {
    if pairs != [] {
      ChildrenArePairs(pairs[..|pairs| - 1], p, c);
      LastPair(pairs, p, c);
    }
  }

  // ---------------------------------------------------------------------------
  // Cycles

  /** When every element outside `done` has a parent outside `done`, walking from parent to parent closes. */
  lemma {:induction false} TrappedCycle(pairs: Pairs, done: set<Node>, w: seq<Node>)
    requires Walk(pairs, w) && Distinct(w) && forall i :: 0 <= i < |w| ==> w[i] in Elements(pairs) - done
    requires forall x <- Elements(pairs) - done :: NumParents(pairs, done, x) > 0
    ensures HasCycle(pairs)
    decreases |Elements(pairs)| - |w|
  {
    assert w[0] in Elements(pairs) - done;
    NoParents(pairs, done, w[0]);
    var p :| Parent(pairs, p, w[0]) && p !in done;
    PairEnds(pairs, p, w[0]);
    if p in w {
      var m :| 0 <= m < |w| && w[m] == p;
      assert ClosedWalk(pairs, w[..m + 1]);
    } else {
      WalkFrom(pairs, p, w);
      DistinctBounded([p] + w, Elements(pairs));
      TrappedCycle(pairs, done, [p] + w);
    }
  }

  lemma WalkFrom(pairs: Pairs, p: Node, w: seq<Node>)
    requires Walk(pairs, w) && Parent(pairs, p, w[0])
    ensures Walk(pairs, [p] + w)
  {
    var longer := [p] + w;
    forall i | 0 <= i < |longer| - 1 ensures Parent(pairs, longer[i], longer[i + 1]) {
      assert i > 0 ==> longer[i] == w[i - 1];
    }
  }

  lemma OrderedHasNoCycle(pairs: Pairs, s: seq<Node>)
    requires Ordered(pairs, s) && forall x :: x in Elements(pairs) ==> x in s
    ensures !HasCycle(pairs)
  {
    if w :| ClosedWalk(pairs, w) {
      PairEnds(pairs, w[|w| - 1], w[0]);
      var k :| 0 <= k < |s| && s[k] == w[0];
      EarlierAndEarlier(pairs, s, w, k);
    }
  }

  lemma {:induction false} PairEnds(pairs: Pairs, p: Node, c: Node)
    requires Parent(pairs, p, c)
    ensures p in Elements(pairs) && c in Elements(pairs)
  {
    LastPair(pairs, p, c);
    if pairs[|pairs| - 1] != (p, c) {
      PairEnds(pairs[..|pairs| - 1], p, c);
    }
  }

  /** Walking backwards along a closed walk inside an ordered list would never stop. */
  lemma {:induction false} EarlierAndEarlier(pairs: Pairs, s: seq<Node>, w: seq<Node>, k: nat)
    requires Ordered(pairs, s) && ClosedWalk(pairs, w) && k < |s| && s[k] == w[0]
    ensures false
    decreases k
  {
    var j := BackAlong(pairs, s, w, |w| - 1, k);
    if j < k {
      EarlierAndEarlier(pairs, s, w, j);
    }
  }

  lemma {:induction false} BackAlong(pairs: Pairs, s: seq<Node>, w: seq<Node>, m: nat, k: nat) returns (j: nat)
    requires Ordered(pairs, s) && Walk(pairs, w) && m < |w| && k < |s| && Parent(pairs, w[m], s[k])
    ensures j < k && s[j] == w[0]
    decreases m
  {
    assert ParentsWithin(pairs, s[..k], s[k]);
    assert w[m] in s[..k];
    var i: nat :| i < k && s[i] == w[m];
    if m == 0 {
      j := i;
    } else {
      j := BackAlong(pairs, s, w, m - 1, i);
    }
  }

  // ---------------------------------------------------------------------------
  // The parts the two algorithms share

  /** The dictionaries `num_parents` and `children`. */
  ghost predicate Counted(pairs: Pairs, done: set<Node>, numParents: map<Node, nat>, children: map<Node, seq<Node>>) {
    NumbersFor(pairs, done, numParents) && KidsFor(pairs, done, children)
  }

  ghost predicate NumbersFor(pairs: Pairs, done: set<Node>, numParents: map<Node, nat>) {
    && numParents.Keys == Elements(pairs) - done
    && forall x <- numParents :: numParents[x] == NumParents(pairs, done, x)
  }

  ghost predicate KidsFor(pairs: Pairs, done: set<Node>, children: map<Node, seq<Node>>) {
    && (forall p :: p in children <==> p !in done && Children(pairs, p) != [])
    && (forall p <- children :: children[p] == Children(pairs, p))
  }

  method Count(pairs: Pairs) returns (numParents: map<Node, nat>, children: map<Node, seq<Node>>)
    ensures Counted(pairs, {}, numParents, children)
  {
    numParents, children := map[], map[];
    ghost var seen: Pairs := [];
    for i := 0 to |pairs|
      invariant seen == pairs[..i]
      invariant Counted(seen, {}, numParents, children)
    {
      var (parent, child) := pairs[i];
      numParents, children := CountPair(seen, numParents, children, parent, child);
      seen := seen + [(parent, child)];
    }
    assert seen == pairs;
  }

  method CountPair(ghost seen: Pairs, numParents: map<Node, nat>, children: map<Node, seq<Node>>, parent: Node,
                   child: Node)
    returns (numParents': map<Node, nat>, children': map<Node, seq<Node>>)
    requires Counted(seen, {}, numParents, children)
    ensures Counted(seen + [(parent, child)], {}, numParents', children')
  {
    CountStep(seen, numParents, children, parent, child);
    numParents' := Touch(Touch(numParents, parent), child);
    numParents' := numParents'[child := numParents'[child] + 1];
    children' := children[parent := Get(children, parent) + [child]];
  }

  /** Make `x` a key with no parents unless it is one already. */
  function Touch(numParents: map<Node, nat>, x: Node): map<Node, nat> {
    if x in numParents then numParents else numParents[x := 0]
  }

  function Get(children: map<Node, seq<Node>>, p: Node): seq<Node> {
    if p in children then children[p] else []
  }

  lemma {:induction false} CountStep(pairs: Pairs, numParents: map<Node, nat>, children: map<Node, seq<Node>>, p: Node,
                                     c: Node)
    requires Counted(pairs, {}, numParents, children)
    ensures var withC := Touch(Touch(numParents, p), c);
            Counted(pairs + [(p, c)], {}, withC[c := withC[c] + 1], children[p := Get(children, p) + [c]])
  {
    var more := pairs + [(p, c)];
    assert more[..|pairs|] == pairs && more[|pairs|] == (p, c);
    var withC := Touch(Touch(numParents, p), c);
    forall x | x in withC ensures withC[x] == NumParents(pairs, {}, x) {
      if x !in numParents {
        StrangerHasNoParents(pairs, x);
      }
    }
    NumbersStep(pairs, more, numParents, withC, p, c);
    KidsStep(pairs, more, children, p, c);
  }

  lemma {:induction false} NumbersStep(pairs: Pairs, more: Pairs, numParents: map<Node, nat>, withC: map<Node, nat>,
                                       p: Node, c: Node)
    requires |more| > 0 && more[..|more| - 1] == pairs && more[|more| - 1] == (p, c)
    requires numParents.Keys == Elements(pairs) && withC.Keys == numParents.Keys + {p, c}
    requires forall x <- withC :: withC[x] == NumParents(pairs, {}, x)
    ensures NumbersFor(more, {}, withC[c := withC[c] + 1])
  {
  }

  lemma {:induction false} KidsStep(pairs: Pairs, more: Pairs, children: map<Node, seq<Node>>, p: Node, c: Node)
    requires |more| > 0 && more[..|more| - 1] == pairs && more[|more| - 1] == (p, c)
    requires KidsFor(pairs, {}, children)
    ensures KidsFor(more, {}, children[p := Get(children, p) + [c]])
  {
  }

  lemma {:induction false} StrangerHasNoParents(pairs: Pairs, x: Node)
    requires x !in Elements(pairs)
    ensures NumParents(pairs, {}, x) == 0
  {
    NoParents(pairs, {}, x);
    forall p | Parent(pairs, p, x) ensures false {
      PairEnds(pairs, p, x);
    }
  }

  /** The keys without parents, in the dictionary's own (unspecified) order. */
  method KeysWithoutParents(numParents: map<Node, nat>) returns (s: seq<Node>)
    ensures Distinct(s)
    ensures forall x :: x in s <==> x in numParents && numParents[x] == 0
  {
    s := [];
    var todo := numParents.Keys;
    while todo != {}
      invariant todo <= numParents.Keys
      invariant Distinct(s)
      invariant forall x :: x in s <==> x in numParents - todo && numParents[x] == 0
    {
      var x := AnyOf(todo);
      todo := todo - {x};
      if numParents[x] == 0 {
        s := s + [x];
      }
    }
  }

  /** The loop over one parent's children; `zeroed` lists the children left without parents. */
  method Decrement(before: map<Node, nat>, kids: seq<Node>) returns (numParents: map<Node, nat>, zeroed: seq<Node>)
    requires forall x <- kids :: x in before && multiset(kids)[x] <= before[x]
    ensures numParents.Keys == before.Keys
    ensures forall x <- before :: numParents[x] + multiset(kids)[x] == before[x]
    ensures Distinct(zeroed)
    ensures forall x :: x in zeroed <==> x in kids && numParents[x] == 0
  {
    numParents, zeroed := before, [];
    for j := 0 to |kids|
      invariant Decremented(before, kids[..j], numParents, zeroed)
    {
      var child := kids[j];
      DecrementNext(before, kids, j, numParents, zeroed);
      numParents := numParents[child := numParents[child] - 1];
      if numParents[child] == 0 {
        zeroed := zeroed + [child];
      }
    }
    assert kids[..|kids|] == kids;
  }

  /** The children `kids` have been counted off; `zeroed` are those left without parents. */
  ghost predicate Decremented(before: map<Node, nat>, kids: seq<Node>, numParents: map<Node, nat>, zeroed: seq<Node>) {
    && numParents.Keys == before.Keys
    && (forall x <- before :: numParents[x] + multiset(kids)[x] == before[x])
    && Distinct(zeroed)
    && (forall x <- zeroed :: x in kids && x in numParents && numParents[x] == 0)
    && (forall x <- kids :: x in numParents && (numParents[x] == 0 ==> x in zeroed))
  }

  lemma DecrementNext(before: map<Node, nat>, kids: seq<Node>, j: nat, numParents: map<Node, nat>, zeroed: seq<Node>)
    requires forall x <- kids :: x in before && multiset(kids)[x] <= before[x]
    requires j < |kids| && Decremented(before, kids[..j], numParents, zeroed)
    ensures kids[j] in numParents && numParents[kids[j]] > 0 && kids[j] !in zeroed
    ensures var now := numParents[kids[j] := numParents[kids[j]] - 1];
      Decremented(before, kids[..j + 1], now, if now[kids[j]] == 0 then zeroed + [kids[j]] else zeroed)
  {
    SplitAt(kids, j);
    assert kids[j] in kids;
  }

  lemma SplitAt(kids: seq<Node>, j: nat)
    requires j < |kids|
    ensures multiset(kids[..j])[kids[j]] < multiset(kids)[kids[j]]
    ensures multiset(kids[..j + 1]) == multiset(kids[..j]) + multiset{kids[j]}
    ensures forall x :: x in kids[..j + 1] <==> x in kids[..j] || x == kids[j]
  {
    assert kids[..j + 1] == kids[..j] + [kids[j]];
    assert kids == kids[..j] + [kids[j]] + kids[j + 1..];
  }

  lemma KidsCounted(pairs: Pairs, done: set<Node>, p: Node, x: Node)
    requires p !in done
    ensures multiset(Children(pairs, p))[x] <= NumParents(pairs, done, x)
  {
    ParentDone(pairs, done, p, x);
  }

  /** Taking `p` out of the dictionaries after decrementing its children. */
  lemma {:induction false} CountedAfter(pairs: Pairs, done: set<Node>, numParents: map<Node, nat>,
                                        children: map<Node, seq<Node>>,
                                        p: Node, after: map<Node, nat>)
    requires Counted(pairs, done, numParents, children) && p in numParents
    requires after.Keys == numParents.Keys - {p}
    requires forall x <- after :: after[x] + multiset(Children(pairs, p))[x] == numParents[x]
    ensures Counted(pairs, done + {p}, after, children - {p})
  {
    forall x | x in after ensures after[x] == NumParents(pairs, done + {p}, x) {
      ParentDone(pairs, done, p, x);
    }
  }

  // ---------------------------------------------------------------------------
  // topsort

  datatype Result =
    | Sorted(answer: seq<Node>)
    | CycleError(answer: seq<Node>, numParents: map<Node, nat>, children: map<Node, seq<Node>>)

  /** `answer` so far: distinct elements, each after all its parents. */
  ghost predicate OrderedElements(pairs: Pairs, answer: seq<Node>) {
    Distinct(answer) && Ordered(pairs, answer) && forall x <- answer :: x in Elements(pairs)
  }

  /** The unprocessed rest of `answer` is what has no parents left. */
  ghost predicate Pending(rest: seq<Node>, numParents: map<Node, nat>) {
    forall x :: x in rest <==> x in numParents && numParents[x] == 0
  }

  lemma {:induction false} KidIsPending(pairs: Pairs, answer: seq<Node>, i: nat, numParents: map<Node, nat>, c: Node)
    requires i < |answer| && OrderedElements(pairs, answer)
    requires NumbersFor(pairs, AsSet(answer[..i]), numParents) && Pending(answer[i..], numParents)
    requires c in Children(pairs, answer[i])
    ensures c in numParents && c !in answer
  {
    var p := answer[i];
    assert p in answer[i..];
    ChildrenArePairs(pairs, p, c);
    PairEnds(pairs, p, c);
    if c in answer {
      var k :| 0 <= k < |answer| && answer[k] == c;
      assert ParentsWithin(pairs, answer[..k], answer[k]);
      var j :| 0 <= j < k && answer[j] == p;
      assert j == i && c in answer[i..];
      NoParents(pairs, AsSet(answer[..i]), c);
      assert false;
    }
  }

  lemma {:induction false} SortStep(pairs: Pairs, answer: seq<Node>, i: nat, numParents: map<Node, nat>,
                                    children: map<Node, seq<Node>>,
                                    after: map<Node, nat>, zeroed: seq<Node>)
    requires i < |answer| && OrderedElements(pairs, answer) && answer[i] in numParents
    requires Counted(pairs, AsSet(answer[..i]), numParents, children)
    requires Pending(answer[i..], numParents)
    requires after.Keys == numParents.Keys - {answer[i]}
    requires forall x <- after :: after[x] + multiset(Children(pairs, answer[i]))[x] == numParents[x]
    requires forall c <- Children(pairs, answer[i]) :: c in after && c !in answer
    requires Distinct(zeroed) && forall x :: x in zeroed <==> x in Children(pairs, answer[i]) && after[x] == 0
    ensures OrderedElements(pairs, answer + zeroed)
    ensures Counted(pairs, AsSet((answer + zeroed)[..i + 1]), after, children - {answer[i]})
    ensures Pending((answer + zeroed)[i + 1..], after)
  {
    SortStepCounts(pairs, answer, i, numParents, children, after);
    SortStepOrder(pairs, answer, i + 1, after, children - {answer[i]}, zeroed);
    PendingAfter(answer, i, Children(pairs, answer[i]), numParents, after, zeroed);
    SamePrefix(answer, zeroed, i + 1);
  }

  lemma SamePrefix(answer: seq<Node>, zeroed: seq<Node>, n: nat)
    requires n <= |answer|
    ensures (answer + zeroed)[..n] == answer[..n]
  {
  }

  lemma {:induction false} SortStepCounts(pairs: Pairs, answer: seq<Node>, i: nat, numParents: map<Node, nat>,
                                          children: map<Node, seq<Node>>,
                                          after: map<Node, nat>)
    requires i < |answer| && Counted(pairs, AsSet(answer[..i]), numParents, children) && answer[i] in numParents
    requires after.Keys == numParents.Keys - {answer[i]}
    requires forall x <- after :: after[x] + multiset(Children(pairs, answer[i]))[x] == numParents[x]
    ensures Counted(pairs, AsSet(answer[..i + 1]), after, children - {answer[i]})
  {
    CountedAfter(pairs, AsSet(answer[..i]), numParents, children, answer[i], after);
    AsSetNext(answer, i);
  }

  lemma {:induction false} SortStepOrder(pairs: Pairs, answer: seq<Node>, i: nat, numParents: map<Node, nat>,
                                         children: map<Node, seq<Node>>,
                                         zeroed: seq<Node>)
    requires i <= |answer| && Counted(pairs, AsSet(answer[..i]), numParents, children)
    requires OrderedElements(pairs, answer)
    requires Distinct(zeroed) && forall x <- zeroed :: x in numParents && numParents[x] == 0 && x !in answer
    ensures OrderedElements(pairs, answer + zeroed)
  {
    forall x | x in zeroed ensures ParentsWithin(pairs, answer[..i], x) {
      ZeroIsOrdered(pairs, AsSet(answer[..i]), numParents, children, answer[..i], x);
    }
    DistinctAppend(answer, zeroed);
    OrderedAppend(pairs, answer, i, zeroed);
  }

  lemma {:induction false} ZeroIsOrdered(pairs: Pairs, done: set<Node>, numParents: map<Node, nat>,
                                         children: map<Node, seq<Node>>, before: seq<Node>, x: Node)
    requires Counted(pairs, done, numParents, children) && x in numParents && numParents[x] == 0
      && done == AsSet(before)
    ensures ParentsWithin(pairs, before, x)
  {
    NoParents(pairs, done, x);
  }

  lemma DistinctAppend(a: seq<Node>, b: seq<Node>)
    requires Distinct(a) && Distinct(b) && forall x <- b :: x !in a
    ensures Distinct(a + b)
  {
    forall i, j | 0 <= i < j < |a + b| ensures (a + b)[i] != (a + b)[j] {
      if i < |a| <= j {
        assert (a + b)[j] in b;
      }
    }
  }

  lemma OrderedAppend(pairs: Pairs, answer: seq<Node>, i: nat, zeroed: seq<Node>)
    requires Ordered(pairs, answer) && i <= |answer|
    requires forall x <- zeroed :: ParentsWithin(pairs, answer[..i], x)
    ensures Ordered(pairs, answer + zeroed)
  {
    var longer := answer + zeroed;
    forall k | 0 <= k < |longer| ensures ParentsWithin(pairs, longer[..k], longer[k]) {
      if k < |answer| {
        assert longer[..k] == answer[..k];
        assert ParentsWithin(pairs, answer[..k], answer[k]);
      } else {
        assert longer[k] in zeroed;
        assert longer[..k] == answer[..i] + longer[i..k];
      }
    }
  }

  lemma PendingAfter(answer: seq<Node>, i: nat, kids: seq<Node>, numParents: map<Node, nat>, after: map<Node, nat>,
                     zeroed: seq<Node>)
    requires i < |answer| && Distinct(answer) && after.Keys == numParents.Keys - {answer[i]}
    requires Pending(answer[i..], numParents)
    requires forall x <- after :: after[x] + multiset(kids)[x] == numParents[x]
    requires forall c <- kids :: c in after
    requires forall x :: x in zeroed <==> x in kids && after[x] == 0
    ensures Pending((answer + zeroed)[i + 1..], after)
  {
    assert (answer + zeroed)[i + 1..] == answer[i + 1..] + zeroed;
    assert answer[i..] == [answer[i]] + answer[i + 1..];
    forall x ensures x in answer[i + 1..] + zeroed <==> x in after && after[x] == 0 {
      if x in after && after[x] == 0 && x !in kids {
        assert x in answer[i..];
      }
    }
  }

  /** One pass of the main loop: take `answer[i]` out and append the children it leaves without parents. */
  method Process(pairs: Pairs, answer: seq<Node>, i: nat, numParents: map<Node, nat>, children: map<Node, seq<Node>>)
    returns (numParents': map<Node, nat>, children': map<Node, seq<Node>>, zeroed: seq<Node>)
    requires i < |answer| && OrderedElements(pairs, answer)
    requires Counted(pairs, AsSet(answer[..i]), numParents, children)
    requires Pending(answer[i..], numParents)
    ensures OrderedElements(pairs, answer + zeroed)
    ensures Counted(pairs, AsSet((answer + zeroed)[..i + 1]), numParents', children')
    ensures Pending((answer + zeroed)[i + 1..], numParents')
    ensures answer[i] in numParents && numParents'.Keys == numParents.Keys - {answer[i]}
  {
    var parent := answer[i];
    ghost var kids := Children(pairs, parent);
    assert parent in answer[i..];
    forall c | c in kids ensures c in numParents && c !in answer && multiset(kids)[c] <= numParents[c] {
      KidIsPending(pairs, answer, i, numParents, c);
      KidsCounted(pairs, AsSet(answer[..i]), parent, c);
    }
    numParents', zeroed := numParents - {parent}, [];
    if parent in children {
      numParents', zeroed := Decrement(numParents', children[parent]);
    }
    children' := children - {parent};
    SortStep(pairs, answer, i, numParents, children, numParents', zeroed);
  }

  /**
   * The sorted list holds every element once with all parents before each child, and is returned exactly
   * when the pair relation has no cycle.
   */
  method Sort(pairs: Pairs) returns (r: Result)
    ensures r.Sorted? ==>
      && !HasCycle(pairs)
      && Distinct(r.answer)
      && (forall x :: x in r.answer <==> x in Elements(pairs))
      && Ordered(pairs, r.answer)
    ensures r.CycleError? ==>
      && HasCycle(pairs)
      && Distinct(r.answer)
      && Ordered(pairs, r.answer)
      && r.numParents.Keys != {}
      && Counted(pairs, AsSet(r.answer), r.numParents, r.children)
  {
    var numParents, children := Count(pairs);
    var answer := KeysWithoutParents(numParents);
    SortStart(pairs, answer, numParents, children);
    var i := 0;
    while i < |answer|
      invariant i <= |answer| && OrderedElements(pairs, answer)
      invariant Counted(pairs, AsSet(answer[..i]), numParents, children)
      invariant Pending(answer[i..], numParents)
      decreases numParents.Keys
    {
      var zeroed;
      numParents, children, zeroed := Process(pairs, answer, i, numParents, children);
      answer := answer + zeroed;
      i := i + 1;
    }
    assert answer[..i] == answer;
    if numParents.Keys != {} {
      LeftoversCycle(pairs, AsSet(answer), numParents, children);
      return CycleError(answer, numParents, children);
    }
    EverythingSorted(pairs, answer, numParents, children);
    return Sorted(answer);
  }

  lemma {:induction false} SortStart(pairs: Pairs, answer: seq<Node>, numParents: map<Node, nat>,
                                     children: map<Node, seq<Node>>)
    requires Counted(pairs, {}, numParents, children) && Distinct(answer)
    requires forall x :: x in answer <==> x in numParents && numParents[x] == 0
    ensures OrderedElements(pairs, answer) && Counted(pairs, AsSet(answer[..0]), numParents, children)
      && Pending(answer[0..], numParents)
  {
    assert answer[0..] == answer && AsSet(answer[..0]) == {};
    forall k | 0 <= k < |answer| ensures ParentsWithin(pairs, answer[..k], answer[k]) {
      assert answer[k] in answer;
      NoParents(pairs, {}, answer[k]);
    }
  }

  lemma {:induction false} EverythingSorted(pairs: Pairs, answer: seq<Node>, numParents: map<Node, nat>,
                                            children: map<Node, seq<Node>>)
    requires OrderedElements(pairs, answer) && Counted(pairs, AsSet(answer), numParents, children)
      && numParents.Keys == {}
    ensures !HasCycle(pairs) && forall x :: x in answer <==> x in Elements(pairs)
  {
    forall x | x in Elements(pairs) ensures x in answer {
      assert x !in numParents.Keys;
    }
    OrderedHasNoCycle(pairs, answer);
  }

  /** When every remaining element still has a parent, the pairs have a cycle. */
  lemma {:induction false} LeftoversCycle(pairs: Pairs, done: set<Node>, numParents: map<Node, nat>,
                                          children: map<Node, seq<Node>>)
    requires Counted(pairs, done, numParents, children)
    requires numParents.Keys != {} && forall x <- numParents :: numParents[x] != 0
    ensures HasCycle(pairs)
  {
    var x := Member(numParents.Keys);
    TrappedCycle(pairs, done, [x]);
  }

  // ---------------------------------------------------------------------------
  // topsort_levels

  /** Level `k` holds exactly the elements whose longest chain of ancestors has `k` pairs. */
  ghost predicate AtLevel(pairs: Pairs, x: Node, k: nat) {
    x in Elements(pairs) && HasChain(pairs, x, k) && !HasChain(pairs, x, k + 1)
  }

  ghost predicate LevelExact(pairs: Pairs, level: seq<Node>, k: nat) {
    level != [] && Distinct(level) && forall x :: x in level <==> AtLevel(pairs, x, k)
  }

  ghost predicate LevelsExact(pairs: Pairs, levels: seq<seq<Node>>) {
    forall k :: 0 <= k < |levels| ==> LevelExact(pairs, levels[k], k)
  }

  lemma {:induction false} ShorterChain(pairs: Pairs, x: Node, k: nat)
    requires HasChain(pairs, x, k + 1)
    ensures HasChain(pairs, x, k)
    decreases k
  {
    if k > 0 {
      var p :| Parent(pairs, p, x) && HasChain(pairs, p, k);
      ShorterChain(pairs, p, k - 1);
    }
  }

  lemma {:induction false} CycleChains(pairs: Pairs, w: seq<Node>, i: nat, k: nat)
    requires ClosedWalk(pairs, w) && i < |w|
    ensures HasChain(pairs, w[i], k)
    decreases k
  {
    if k > 0 {
      var j := if i == 0 then |w| - 1 else i - 1;
      assert Parent(pairs, w[j], w[i]) by {
        assert i > 0 ==> Parent(pairs, w[i - 1], w[i - 1 + 1]);
      }
      CycleChains(pairs, w, j, k - 1);
    }
  }

  /** After `k` levels the removed elements are those with no chain of `k` pairs. */
  ghost predicate Removed(pairs: Pairs, done: set<Node>, k: nat) {
    done <= Elements(pairs) && forall x <- Elements(pairs) :: x in done <==> !HasChain(pairs, x, k)
  }

  lemma {:induction false} RemovedIsClosed(pairs: Pairs, done: set<Node>, k: nat, p: Node, x: Node)
    requires Removed(pairs, done, k) && x in done && Parent(pairs, p, x)
    ensures p in done
  {
    PairEnds(pairs, p, x);
    if p !in done {
      if k > 0 {
        ShorterChain(pairs, p, k - 1);
      }
      assert false;
    }
  }

  /** The remaining elements without parents are the ones of the next level. */
  lemma {:induction false} NextLevel(pairs: Pairs, done: set<Node>, k: nat, x: Node)
    requires Removed(pairs, done, k)
    ensures AtLevel(pairs, x, k) <==> x in Elements(pairs) - done && NumParents(pairs, done, x) == 0
    ensures x in Elements(pairs) ==> (!HasChain(pairs, x, k + 1) <==> x in done || AtLevel(pairs, x, k))
  {
    if x in Elements(pairs) {
      if HasChain(pairs, x, k + 1) {
        ShorterChain(pairs, x, k);
      }
      NoParents(pairs, done, x);
      forall p | Parent(pairs, p, x) ensures p in done <==> !HasChain(pairs, p, k) {
        PairEnds(pairs, p, x);
      }
    }
  }

  /** The loop over one level: take its elements out, decrementing their children. */
  method RemoveLevel(pairs: Pairs, ghost done: set<Node>, ghost k: nat, level: seq<Node>,
                     numParents: map<Node, nat>, children: map<Node, seq<Node>>)
    returns (numParents': map<Node, nat>, children': map<Node, seq<Node>>)
    requires Removed(pairs, done, k) && Counted(pairs, done, numParents, children)
    requires Distinct(level) && forall x <- level :: x in numParents && numParents[x] == 0
    ensures Counted(pairs, done + AsSet(level), numParents', children')
    ensures numParents'.Keys == numParents.Keys - AsSet(level)
  {
    numParents', children' := numParents, children;
    assert done + AsSet(level[..0]) == done && level[..|level|] == level;
    for j := 0 to |level|
      invariant Counted(pairs, done + AsSet(level[..j]), numParents', children')
      invariant numParents'.Keys == numParents.Keys - AsSet(level[..j])
    {
      LevelStep(done, level, j, numParents.Keys);
      LevelKids(pairs, done, k, numParents, children, level, j);
      numParents', children' := RemoveParent(pairs, done + AsSet(level[..j]), level[j], numParents', children');
    }
  }

  /** Taking out one more element of the level. */
  lemma LevelStep(done: set<Node>, level: seq<Node>, j: nat, keys: set<Node>)
    requires j < |level| && Distinct(level)
    ensures done + AsSet(level[..j]) + {level[j]} == done + AsSet(level[..j + 1])
    ensures keys - AsSet(level[..j]) - {level[j]} == keys - AsSet(level[..j + 1])
    ensures level[j] !in AsSet(level[..j])
  {
    AsSetNext(level, j);
  }

  lemma LevelKids(pairs: Pairs, done: set<Node>, k: nat, numParents: map<Node, nat>, children: map<Node, seq<Node>>,
                  level: seq<Node>, j: nat)
    requires Removed(pairs, done, k) && Counted(pairs, done, numParents, children) && j < |level|
    requires forall x <- level :: x in numParents && numParents[x] == 0
    ensures level[j] in numParents
    ensures forall c <- Children(pairs, level[j]) :: c !in done + AsSet(level[..j]) && c != level[j]
  {
    assert level[j] in level;
    forall c | c in Children(pairs, level[j]) ensures c !in done && c !in level {
      LevelKid(pairs, done, k, numParents, children, level, level[j], c);
    }
  }

  lemma {:induction false} LevelKid(pairs: Pairs, done: set<Node>, k: nat, numParents: map<Node, nat>,
                                    children: map<Node, seq<Node>>,
                                    level: seq<Node>, p: Node, c: Node)
    requires Removed(pairs, done, k) && Counted(pairs, done, numParents, children)
    requires forall x <- level :: x in numParents && numParents[x] == 0
    requires p in level && c in Children(pairs, p)
    ensures c !in done && c !in level
  {
    ChildrenArePairs(pairs, p, c);
    if c in done {
      RemovedIsClosed(pairs, done, k, p, c);
    } else if c in level {
      NoParents(pairs, done, c);
    }
  }

  method RemoveParent(pairs: Pairs, ghost done: set<Node>, p: Node, numParents: map<Node, nat>,
                      children: map<Node, seq<Node>>)
    returns (numParents': map<Node, nat>, children': map<Node, seq<Node>>)
    requires Counted(pairs, done, numParents, children) && p in numParents
    requires forall c <- Children(pairs, p) :: c !in done && c != p
    ensures Counted(pairs, done + {p}, numParents', children')
    ensures numParents'.Keys == numParents.Keys - {p}
  {
    forall c | c in Children(pairs, p) ensures c in numParents && multiset(Children(pairs, p))[c] <= numParents[c] {
      ChildrenArePairs(pairs, p, c);
      PairEnds(pairs, p, c);
      KidsCounted(pairs, done, p, c);
    }
    numParents' := numParents - {p};
    if p in children {
      var zeroed;
      numParents', zeroed := Decrement(numParents', children[p]);
    }
    CountedAfter(pairs, done, numParents, children, p, numParents');
    children' := children - {p};
  }

  /**
   * The yielded levels, and whether the generator then raises `CycleError`: element `x` is in level `k`
   * exactly when its longest chain of ancestors has `k` pairs; the elements in no level are those with
   * arbitrarily long chains, and they exist exactly when there is a cycle.
   */
  method Levels(pairs: Pairs) returns (levels: seq<seq<Node>>, cycleError: bool)
    ensures LevelsExact(pairs, levels)
    ensures forall x, k: nat :: k >= |levels| ==> !AtLevel(pairs, x, k)
    ensures cycleError <==> HasCycle(pairs)
    ensures !cycleError <==> forall x <- Elements(pairs) :: InLevels(levels, x)
  {
    var numParents, children := Count(pairs);
    levels := [];
    ghost var done: set<Node> := {};
    var level := KeysWithoutParents(numParents);
    while level != []
      invariant LevelInv(pairs, done, levels, numParents, children)
      invariant Distinct(level) && Pending(level, numParents)
      decreases numParents.Keys
    {
      LevelInvNext(pairs, done, levels, level, numParents, children);
      numParents, children := RemoveLevel(pairs, done, |levels|, level, numParents, children);
      levels := levels + [level];
      done := done + AsSet(level);
      level := KeysWithoutParents(numParents);
    }
    cycleError := numParents.Keys != {};
    LevelsEnd(pairs, done, levels, numParents, children);
  }

  ghost predicate LevelInv(pairs: Pairs, done: set<Node>, levels: seq<seq<Node>>, numParents: map<Node, nat>,
                           children: map<Node, seq<Node>>) {
    && Counted(pairs, done, numParents, children)
    && LevelsSoFar(pairs, done, levels)
  }

  ghost predicate LevelsSoFar(pairs: Pairs, done: set<Node>, levels: seq<seq<Node>>) {
    Removed(pairs, done, |levels|) && LevelsExact(pairs, levels) && forall x <- done :: InLevels(levels, x)
  }

  lemma {:induction false} LevelInvNext(pairs: Pairs, done: set<Node>, levels: seq<seq<Node>>, level: seq<Node>,
                                        numParents: map<Node, nat>, children: map<Node, seq<Node>>)
    requires LevelInv(pairs, done, levels, numParents, children)
    requires level != [] && Distinct(level) && Pending(level, numParents)
    ensures LevelsSoFar(pairs, done + AsSet(level), levels + [level])
    ensures level[0] in AsSet(level) * numParents.Keys
  {
    NextRemoved(pairs, done, |levels|, level, numParents, children);
    Covered(pairs, done, levels, level);
    assert level[0] in level;
  }

  ghost predicate InLevels(levels: seq<seq<Node>>, x: Node) {
    exists k :: 0 <= k < |levels| && x in levels[k]
  }

  lemma Covered(pairs: Pairs, done: set<Node>, levels: seq<seq<Node>>, level: seq<Node>)
    requires forall x <- done :: InLevels(levels, x)
    requires LevelsExact(pairs, levels) && LevelExact(pairs, level, |levels|)
    ensures LevelsExact(pairs, levels + [level])
    ensures forall x <- done + AsSet(level) :: InLevels(levels + [level], x)
  {
    var more := levels + [level];
    forall x | x in done + AsSet(level) ensures InLevels(more, x) {
      if x in done {
        var k :| 0 <= k < |levels| && x in levels[k];
        assert x in more[k];
      } else {
        assert x in more[|levels|];
      }
    }
  }

  lemma {:induction false} NextRemoved(pairs: Pairs, done: set<Node>, k: nat, level: seq<Node>,
                                       numParents: map<Node, nat>, children: map<Node, seq<Node>>)
    requires Removed(pairs, done, k) && Counted(pairs, done, numParents, children)
    requires level != [] && Distinct(level) && Pending(level, numParents)
    ensures LevelExact(pairs, level, k) && Removed(pairs, done + AsSet(level), k + 1)
  {
    forall x ensures x in level <==> AtLevel(pairs, x, k) {
      NextLevel(pairs, done, k, x);
    }
    forall x | x in done + AsSet(level) ensures x in Elements(pairs) {
      assert x in done || x in numParents;
    }
    forall x | x in Elements(pairs) ensures x in done + AsSet(level) <==> !HasChain(pairs, x, k + 1) {
      NextLevel(pairs, done, k, x);
    }
  }

  lemma {:induction false} LevelsEnd(pairs: Pairs, done: set<Node>, levels: seq<seq<Node>>, numParents: map<Node, nat>,
                                     children: map<Node, seq<Node>>)
    requires LevelInv(pairs, done, levels, numParents, children) && Pending([], numParents)
    ensures forall x, k: nat :: k >= |levels| ==> !AtLevel(pairs, x, k)
    ensures numParents.Keys != {} <==> HasCycle(pairs)
    ensures numParents.Keys == {} <==> forall x <- Elements(pairs) :: InLevels(levels, x)
  {
    var n := |levels|;
    forall x, k: nat | k >= n ensures !AtLevel(pairs, x, k) {
      NoneDeeper(pairs, done, n, numParents, children, x, k);
    }
    if numParents.Keys != {} {
      LeftoversCycle(pairs, done, numParents, children);
      var x := Member(numParents.Keys);
      forall k | 0 <= k < n ensures x !in levels[k] {
        assert LevelExact(pairs, levels[k], k);
        LongChain(pairs, x, k + 1, n);
      }
      assert x in Elements(pairs) && !InLevels(levels, x);
    } else {
      forall x | x in Elements(pairs) ensures x in done {
        assert x !in numParents.Keys;
      }
      if w :| ClosedWalk(pairs, w) {
        PairEnds(pairs, w[|w| - 1], w[0]);
        CycleChains(pairs, w, 0, n);
        assert false;
      }
    }
  }

  lemma {:induction false} LongChain(pairs: Pairs, x: Node, j: nat, k: nat)
    requires HasChain(pairs, x, k) && j <= k
    ensures HasChain(pairs, x, j)
  {
    if j < k {
      ShorterChain(pairs, x, k - 1);
      LongChain(pairs, x, j, k - 1);
    }
  }

  /** With no parentless element left, what remains has chains of every length. */
  lemma {:induction false} NoneDeeper(pairs: Pairs, done: set<Node>, n: nat, numParents: map<Node, nat>,
                                      children: map<Node, seq<Node>>, x: Node, k: nat)
    requires Removed(pairs, done, n) && Counted(pairs, done, numParents, children) && Pending([], numParents)
    requires k >= n
    ensures !AtLevel(pairs, x, k)
    ensures x in numParents ==> HasChain(pairs, x, k + 1)
    decreases k
  {
    if x in numParents {
      NoParents(pairs, done, x);
      var p :| Parent(pairs, p, x) && p !in done;
      PairEnds(pairs, p, x);
      if k > n {
        NoneDeeper(pairs, done, n, numParents, children, p, k - 1);
      }
      assert HasChain(pairs, p, k);
    } else if AtLevel(pairs, x, k) {
      LongChain(pairs, x, n, k);
    }
  }
}
