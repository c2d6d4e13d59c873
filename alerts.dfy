/**
  The alert record that the dashboard's components pass around, and the two
  JavaScript array operations they apply to alert lists: `filter` and `some`.
 */
module Alerts {

  datatype Option<+T> = None | Some(value: T)

  /** One alert, as the JavaScript object literals of the dashboard write it.
      Fields that a literal does not set are `None`; in particular `category`
      stands for the `type` field, and `time` for a pre-rendered age label.
      `severity` is free text: the components compare it with "high",
      "medium" and "low" and never reject any other value.
      `timestamp` is the creation instant in milliseconds since the epoch. */
  datatype Alert = Alert(
    id: string,
    title: string,
    message: string,
    severity: string,
    category: Option<string>,
    time: Option<string>,
    timestamp: int)

  const High: string := "high"
  const Medium: string := "medium"
  const Low: string := "low"

  /** One of the three severities that the header counts. */
  predicate IsKnownSeverity(severity: string) {
    severity == High || severity == Medium || severity == Low
  }

  /** `alert => alert.severity === severity` */
  function HasSeverity(severity: string): Alert -> bool {
    (a: Alert) => a.severity == severity
  }

  /** `alert => alert.id !== id` */
  function HasOtherId(id: string): Alert -> bool {
    (a: Alert) => a.id != id
  }

  /** The alerts that none of the header's three severity filters keep. */
  function HasUnknownSeverity(): Alert -> bool {
    (a: Alert) => !IsKnownSeverity(a.severity)
  }

  /** Identifiers are pairwise distinct. */
  ghost predicate DistinctIds(alerts: seq<Alert>) {
    forall i, j :: 0 <= i < j < |alerts| ==> alerts[i].id != alerts[j].id
  }

  // ---------------------------------------------------------------------
  // Array.prototype.filter

  /** The elements of `s` that `keep` accepts, in their order in `s`. */
  function Filter<T(!new)>(s: seq<T>, keep: T -> bool): (r: seq<T>)
    ensures |r| <= |s|
    ensures forall x :: x in r ==> x in s && keep(x)
  {
    if s == [] then []
    else
      assert s == [s[0]] + s[1..];
      (if keep(s[0]) then [s[0]] else []) + Filter(s[1..], keep)
  }

  /** A filter keeps every copy of each accepted element and no copy of a
      rejected one. */
  lemma {:induction false} FilterMultiset<T(!new)>(s: seq<T>, keep: T -> bool, x: T)
    ensures multiset(Filter(s, keep))[x] == if keep(x) then multiset(s)[x] else 0
  {
    if s != [] {
      FilterMultiset(s[1..], keep, x);
      assert s == [s[0]] + s[1..];
    }
  }

  /** Filtering distributes over concatenation: the kept elements keep their
      relative order. */
  lemma {:induction false} FilterConcat<T(!new)>(a: seq<T>, b: seq<T>, keep: T -> bool)
    ensures Filter(a + b, keep) == Filter(a, keep) + Filter(b, keep)
  {
    if a == [] {
      assert a + b == b;
    } else {
      assert (a + b)[0] == a[0];
      assert (a + b)[1..] == a[1..] + b;
      FilterConcat(a[1..], b, keep);
    }
  }

  /** A filter removes nothing exactly when every element is kept. */
  lemma {:induction false} FilterKeepsAll<T(!new)>(s: seq<T>, keep: T -> bool)
    ensures Filter(s, keep) == s <==> forall i :: 0 <= i < |s| ==> keep(s[i])
  {
    if s != [] {
      FilterKeepsAll(s[1..], keep);
      if !keep(s[0]) {
        assert |Filter(s, keep)| < |s|;
      }
    }
  }

  /** A filter's result is empty exactly when no element is kept. */
  lemma {:induction false} FilterEmpty<T(!new)>(s: seq<T>, keep: T -> bool)
    ensures Filter(s, keep) == [] <==> forall i :: 0 <= i < |s| ==> !keep(s[i])
  {
    if s != [] {
      FilterEmpty(s[1..], keep);
      assert forall i :: 1 <= i < |s| ==> s[i] == s[1..][i - 1];
    }
  }

  /** Filtering twice with the same test is filtering once. */
  lemma {:induction false} FilterIdempotent<T(!new)>(s: seq<T>, keep: T -> bool)
    ensures Filter(Filter(s, keep), keep) == Filter(s, keep)
  {
    var r := Filter(s, keep);
    forall i | 0 <= i < |r| ensures keep(r[i]) {
      assert r[i] in r;
    }
    FilterKeepsAll(r, keep);
  }

  /** The filter of a one-element sequence. */
  lemma FilterSingleton<T(!new)>(x: T, keep: T -> bool)
    ensures Filter([x], keep) == if keep(x) then [x] else []
  {
    assert [x][1..] == [];
  }

  /** Two filters commute. */
  lemma {:induction false} FilterCommutes<T(!new)>(s: seq<T>, p: T -> bool, q: T -> bool)
    ensures Filter(Filter(s, p), q) == Filter(Filter(s, q), p)
  {
    if s != [] {
      var x, rest := s[0], s[1..];
      FilterCommutes(rest, p, q);
      var both := if p(x) && q(x) then [x] else [];
      var hp := if p(x) then [x] else [];
      var hq := if q(x) then [x] else [];
      assert Filter(s, p) == hp + Filter(rest, p);
      assert Filter(s, q) == hq + Filter(rest, q);
      FilterConcat(hp, Filter(rest, p), q);
      FilterConcat(hq, Filter(rest, q), p);
      FilterSingleton(x, p);
      FilterSingleton(x, q);
      assert Filter(hp, q) == both;
      assert Filter(hq, p) == both;
    }
  }

  /** How many elements a filter keeps depends only on the multiset of
      elements, not on their order. */
  lemma FilterPermutation<T(!new)>(a: seq<T>, b: seq<T>, keep: T -> bool)
    requires multiset(a) == multiset(b)
    ensures multiset(Filter(a, keep)) == multiset(Filter(b, keep))
    ensures |Filter(a, keep)| == |Filter(b, keep)|
  {
    var fa, fb := Filter(a, keep), Filter(b, keep);
    forall x ensures multiset(fa)[x] == multiset(fb)[x] {
      FilterMultiset(a, keep, x);
      FilterMultiset(b, keep, x);
    }
    assert multiset(fa) == multiset(fb);
    assert |fa| == |multiset(fa)| == |multiset(fb)| == |fb|;
  }

  /** The positions of `s` whose element `keep` accepts. */
  ghost function KeptIndices<T>(s: seq<T>, keep: T -> bool): set<int> {
    set i | 0 <= i < |s| && keep(s[i])
  }

  /** The length of a filter's result is the number of positions it keeps:
      a reference definition of `filter(...).length` that does not recurse. */
  lemma {:induction false} FilterLength<T(!new)>(s: seq<T>, keep: T -> bool)
    ensures |Filter(s, keep)| == |KeptIndices(s, keep)|
  {
    if s != [] {
      var n := |s| - 1;
      var front, last := s[..n], s[n];
      assert s == front + [last];
      FilterLength(front, keep);
      FilterConcat(front, [last], keep);
      FilterSingleton(last, keep);
      var before := KeptIndices(front, keep);
      var after := if keep(last) then before + {n} else before;
      forall i ensures i in KeptIndices(s, keep) <==> i in after {
        if 0 <= i < n {
          assert s[i] == front[i];
        }
      }
      assert KeptIndices(s, keep) == after;
      assert n !in before;
    }
  }

  // ---------------------------------------------------------------------
  // Array.prototype.some

  /** Whether `p` accepts some element of `s`. */
  function Any<T>(s: seq<T>, p: T -> bool): (b: bool)
    ensures b <==> exists i :: 0 <= i < |s| && p(s[i])
  {
    if s == [] then false
    else
      assert forall i :: 1 <= i < |s| ==> s[i] == s[1..][i - 1];
      p(s[0]) || Any(s[1..], p)
  }
}
