/** The three array combinators the application is written with:
    `Array.prototype.filter`, `Array.prototype.map` with a conditional
    replacement, and `Array.prototype.find`. */
module Seqs {
  import opened Wrappers

  /** `s.filter(keep)`: the elements of `s` that satisfy `keep`, in order. */
  function Filter<T>(keep: T -> bool, s: seq<T>): (r: seq<T>)
    ensures |r| <= |s|
    ensures forall i :: 0 <= i < |r| ==> r[i] in s && keep(r[i])
    ensures forall i :: 0 <= i < |s| && keep(s[i]) ==> s[i] in r
  {
    if s == [] then []
    else (if keep(s[0]) then [s[0]] else []) + Filter(keep, s[1..])
  }

  /** Filtering distributes over concatenation: together with the singleton
      case (the definition) this pins `Filter` down as the order-preserving
      subsequence of kept elements. */
  lemma {:induction false} FilterAppend<T>(keep: T -> bool, a: seq<T>, b: seq<T>)
    ensures Filter(keep, a + b) == Filter(keep, a) + Filter(keep, b)
  {
    if a == [] {
      assert a + b == b;
    } else {
      assert (a + b)[1..] == a[1..] + b;
      FilterAppend(keep, a[1..], b);
    }
  }

  /** Every element is kept by exactly one of `keep` and its complement
      `drop`, so the two filters split the sequence. */
  lemma {:induction false} FilterPartition<T>(keep: T -> bool, drop: T -> bool, s: seq<T>)
    requires forall i :: 0 <= i < |s| ==> drop(s[i]) == !keep(s[i])
    ensures |Filter(keep, s)| + |Filter(drop, s)| == |s|
  {
    if s != [] {
      FilterPartition(keep, drop, s[1..]);
    }
  }

  /** `s.map(x => matches(x) ? change(x) : x)`: every element that matches is
      replaced by its changed copy, every other element is kept as it is. */
  function UpdateWhere<T>(s: seq<T>, matches: T -> bool, change: T -> T): (r: seq<T>)
    ensures |r| == |s|
    ensures forall i :: 0 <= i < |s| ==> r[i] == if matches(s[i]) then change(s[i]) else s[i]
  {
    if s == [] then []
    else [if matches(s[0]) then change(s[0]) else s[0]] + UpdateWhere(s[1..], matches, change)
  }

  /** `s.find(p)`: the first element satisfying `p`, or nothing. */
  function Find<T>(p: T -> bool, s: seq<T>): (r: Option<T>)
    ensures r.None? <==> forall i :: 0 <= i < |s| ==> !p(s[i])
    ensures r.Some? ==> exists i :: 0 <= i < |s| && s[i] == r.value && p(s[i]) &&
                                    forall j :: 0 <= j < i ==> !p(s[j])
  {
    if s == [] then None
    else if p(s[0]) then Some(s[0])
    else
      var r := Find(p, s[1..]);
      assert r.Some? ==> exists i :: 1 <= i < |s| && s[i] == r.value && p(s[i]) &&
                                     forall j :: 0 <= j < i ==> !p(s[j]) by {
        if r.Some? {
          var k :| 0 <= k < |s[1..]| && s[1..][k] == r.value && p(s[1..][k]) &&
                   forall j :: 0 <= j < k ==> !p(s[1..][j]);
          assert forall j :: 1 <= j < k + 1 ==> !p(s[j]) by {
            forall j | 1 <= j < k + 1 ensures !p(s[j]) { assert s[j] == s[1..][j - 1]; }
          }
        }
      }
      r
  }

  /** Finding by the same predicate that selected the updated elements yields
      the first old match, updated, provided an update keeps an element
      matching. */
  lemma {:induction false} FindUpdated<T>(p: T -> bool, s: seq<T>, change: T -> T)
    requires forall x :: p(x) ==> p(change(x))
    ensures Find(p, UpdateWhere(s, p, change)) ==
            if Find(p, s).Some? then Some(change(Find(p, s).value)) else None
  {
    if s != [] {
      FindUpdated(p, s[1..], change);
      assert UpdateWhere(s, p, change)[1..] == UpdateWhere(s[1..], p, change);
    }
  }
}
