/** Optional values, lists without repetition, and choosing from finite sets in an unspecified order. */
module Collections {

  datatype Option<T> = None | Some(value: T)

  lemma Member<T>(s: set<T>) returns (x: T)
    requires s != {}
    ensures x in s
  {
    x :| x in s;
  }

  method AnyOf<T(==)>(s: set<T>) returns (x: T)
    requires s != {}
    ensures x in s
  {
    x :| x in s;
  }

  ghost predicate Distinct<T>(s: seq<T>) {
    forall i, j :: 0 <= i < j < |s| ==> s[i] != s[j]
  }

  lemma {:induction false} DistinctBounded<T>(p: seq<T>, s: set<T>)
    requires Distinct(p) && forall i :: 0 <= i < |p| ==> p[i] in s
    ensures |p| <= |s|
  {
    if |p| > 0 {
      DistinctBounded(p[..|p| - 1], s - {p[|p| - 1]});
    }
  }

  ghost function AsSet<T>(s: seq<T>): set<T> {
    set x | x in s
  }

  lemma AsSetNext<T>(s: seq<T>, i: nat)
    requires i < |s|
    ensures AsSet(s[..i + 1]) == AsSet(s[..i]) + {s[i]}
  {
    assert s[..i + 1] == s[..i] + [s[i]];
  }
}
