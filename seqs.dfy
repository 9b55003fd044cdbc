/**
 * Sequence operations behind two Python idioms the scraper uses: the list
 * comprehension that keeps the elements passing a test, and the nested
 * comprehension `[item for sublist in xss for item in sublist]`.
 */
module Seqs {

  /** `[item for sublist in xss for item in sublist]`. */
  function Flatten<T>(xss: seq<seq<T>>): seq<T>
  {
    if xss == [] then [] else Flatten(xss[..|xss| - 1]) + xss[|xss| - 1]
  }

  /** The total number of elements of the inner sequences. */
  function TotalLength<T>(xss: seq<seq<T>>): nat
  {
    if xss == [] then 0 else TotalLength(xss[..|xss| - 1]) + |xss[|xss| - 1]|
  }

  /** `[x for x in s if p(x)]`. */
  function Filter<T>(p: T -> bool, s: seq<T>): (r: seq<T>)
    ensures |r| <= |s|
    ensures forall x :: x in r ==> x in s && p(x)
  {
    if s == [] then []
    else Filter(p, s[..|s| - 1]) + (if p(s[|s| - 1]) then [s[|s| - 1]] else [])
  }

  /** `[f(x) for x in s if p(x)]`, where `f` is defined wherever `p` holds. */
  function FilterMap<T(!new), U>(p: T -> bool, f: T --> U, s: seq<T>): seq<U>
    requires forall x :: p(x) ==> f.requires(x)
  {
    if s == [] then []
    else FilterMap(p, f, s[..|s| - 1]) + (if p(s[|s| - 1]) then [f(s[|s| - 1])] else [])
  }

  /** The indices of `s` whose element passes `p`, in increasing order. */
  ghost function Positions<T>(p: T -> bool, s: seq<T>): seq<nat>
  {
    if s == [] then []
    else Positions(p, s[..|s| - 1]) + (if p(s[|s| - 1]) then [|s| - 1] else [])
  }

  ghost predicate StrictlyIncreasing(ix: seq<nat>) {
    forall k, l :: 0 <= k < l < |ix| ==> ix[k] < ix[l]
  }

  /**
   * `Positions` lists exactly the indices whose element passes the test,
   * each once and in order.
   */
  lemma {:induction false} PositionsExact<T>(p: T -> bool, s: seq<T>)
    ensures StrictlyIncreasing(Positions(p, s))
    ensures forall k :: 0 <= k < |Positions(p, s)| ==> Positions(p, s)[k] < |s|
    ensures forall i :: 0 <= i < |s| ==> (i in Positions(p, s) <==> p(s[i]))
  {
    if s != [] {
      var s' := s[..|s| - 1];
      PositionsExact(p, s');
      assert forall i :: 0 <= i < |s'| ==> s'[i] == s[i];
    }
  }

  /**
   * The filtered list is the input read at the passing positions: it keeps
   * the passing elements, all of them, in their original order.
   */
  lemma {:induction false} FilterAtPositions<T>(p: T -> bool, s: seq<T>)
    ensures |Filter(p, s)| == |Positions(p, s)|
    ensures forall k :: 0 <= k < |Filter(p, s)| ==> Positions(p, s)[k] < |s| && Filter(p, s)[k] == s[Positions(p, s)[k]]
  {
    if s != [] {
      var s' := s[..|s| - 1];
      FilterAtPositions(p, s');
      PositionsExact(p, s');
    }
  }

  /** Mapping after filtering keeps one result per passing element. */
  lemma {:induction false} FilterMapLength<T(!new), U>(p: T -> bool, f: T --> U, s: seq<T>)
    requires forall x :: p(x) ==> f.requires(x)
    ensures |FilterMap(p, f, s)| == |Filter(p, s)|
  {
    if s != [] {
      FilterMapLength(p, f, s[..|s| - 1]);
    }
  }

  /**
   * Entry `k` of the mapped list is `f` of the element at the `k`-th
   * passing position.
   */
  lemma {:induction false} FilterMapAtPositions<T(!new), U>(p: T -> bool, f: T --> U, s: seq<T>)
    requires forall x :: p(x) ==> f.requires(x)
    ensures |FilterMap(p, f, s)| == |Positions(p, s)|
    ensures forall k :: 0 <= k < |FilterMap(p, f, s)| ==>
      Positions(p, s)[k] < |s| && p(s[Positions(p, s)[k]]) && FilterMap(p, f, s)[k] == f(s[Positions(p, s)[k]])
  {
    if s != [] {
      var s' := s[..|s| - 1];
      FilterMapAtPositions(p, f, s');
      PositionsExact(p, s');
    }
  }

  lemma {:induction false} FlattenAppend<T>(a: seq<seq<T>>, b: seq<seq<T>>)
    ensures Flatten(a + b) == Flatten(a) + Flatten(b)
    decreases |b|
  {
    if b == [] {
      assert a + b == a;
    } else {
      var b' := b[..|b| - 1];
      assert Flatten(a + b) == Flatten(a + b') + b[|b| - 1] by {
        assert (a + b)[..|a + b| - 1] == a + b';
      }
      FlattenAppend(a, b');
    }
  }

  /** The flattened list is as long as all inner lists together. */
  lemma {:induction false} FlattenLength<T>(xss: seq<seq<T>>)
    ensures |Flatten(xss)| == TotalLength(xss)
  {
    if xss != [] {
      FlattenLength(xss[..|xss| - 1]);
    }
  }

  /** An element is in the flattened list iff it is in one of the inner lists. */
  lemma {:induction false} FlattenMembership<T>(xss: seq<seq<T>>, x: T)
    ensures x in Flatten(xss) <==> exists i :: 0 <= i < |xss| && x in xss[i]
  {
    if xss != [] {
      var xss' := xss[..|xss| - 1];
      FlattenMembership(xss', x);
      if x in Flatten(xss) && x !in xss[|xss| - 1] {
        var i :| 0 <= i < |xss'| && x in xss'[i];
        assert xss[i] == xss'[i];
      }
      if exists i :: 0 <= i < |xss| && x in xss[i] {
        var i :| 0 <= i < |xss| && x in xss[i];
        if i < |xss| - 1 {
          assert xss'[i] == xss[i];
        }
      }
    }
  }

  /** The prefix of length `k + 1` extends the prefix of length `k` by `items[k]`. */
  lemma PrefixNext<T>(items: seq<T>, k: int)
    requires 0 <= k < |items|
    ensures items[..k + 1] == items[..k] + [items[k]]
  {
  }

  /** Flattening one more inner list of `xss` appends that list. */
  lemma FlattenPrefixNext<T>(xss: seq<seq<T>>, i: int)
    requires 0 <= i < |xss|
    ensures Flatten(xss[..i + 1]) == Flatten(xss[..i]) + xss[i]
  {
    assert xss[..i + 1][..i] == xss[..i];
  }
}
