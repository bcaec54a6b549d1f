/** The array operations the port killer uses, `Array.prototype.map` and
    `Array.prototype.filter`, and the push-if-present loop shape, over
    sequences. */
module Seqs {
  import opened Wrappers

  /** `s.map(f)`. */
  function Map<T, U>(s: seq<T>, f: T -> U): (r: seq<U>)
    ensures |r| == |s|
    ensures forall i :: 0 <= i < |s| ==> r[i] == f(s[i])
  {
    seq(|s|, i requires 0 <= i < |s| => f(s[i]))
  }

  /** Mapping commutes with concatenation. */
  lemma MapConcat<T, U>(a: seq<T>, b: seq<T>, f: T -> U)
    ensures Map(a + b, f) == Map(a, f) + Map(b, f)
  {
  }

  /** `s.filter(f)`: the elements of `s` that pass `f`, in their order. */
  function Filter<T>(s: seq<T>, f: T -> bool): (r: seq<T>)
    ensures |r| <= |s|
  {
    if s == [] then []
    else Filter(s[..|s| - 1], f) + (if f(s[|s| - 1]) then [s[|s| - 1]] else [])
  }

  /** A filter keeps exactly the elements that pass. */
  lemma {:induction false} FilterMembers<T>(s: seq<T>, f: T -> bool)
    ensures forall i :: 0 <= i < |Filter(s, f)| ==> Filter(s, f)[i] in s && f(Filter(s, f)[i])
    ensures forall i :: 0 <= i < |s| && f(s[i]) ==> s[i] in Filter(s, f)
  {
    if s != [] {
      var init, last := s[..|s| - 1], s[|s| - 1];
      assert s == init + [last];
      FilterMembers(init, f);
      var r := Filter(s, f);
      assert r == Filter(init, f) + (if f(last) then [last] else []);
      forall i | 0 <= i < |r| ensures r[i] in s && f(r[i]) {
        if i < |Filter(init, f)| {
          assert r[i] == Filter(init, f)[i];
        }
      }
      forall i | 0 <= i < |s| && f(s[i]) ensures s[i] in r {
        if i < |init| {
          assert s[i] == init[i];
        }
      }
    }
  }

  /** The elements `f` maps to `Some`, unwrapped, in their order: a loop that
      pushes `f(x).value` whenever `f(x)` is present. */
  function FilterMap<T, U>(s: seq<T>, f: T -> Option<U>): (r: seq<U>)
    ensures |r| <= |s|
  {
    if s == [] then []
    else
      var last := s[|s| - 1];
      FilterMap(s[..|s| - 1], f) + (if f(last).Some? then [f(last).value] else [])
  }

  /** A single element contributes its value when it is present. */
  lemma FilterMapSingleton<T, U>(x: T, f: T -> Option<U>)
    ensures FilterMap([x], f) == if f(x).Some? then [f(x).value] else []
  {
    assert [x][..0] == [];
  }

  /** One more element contributes its value when it is present. */
  lemma FilterMapSnoc<T, U>(s: seq<T>, x: T, f: T -> Option<U>)
    ensures FilterMap(s + [x], f) == FilterMap(s, f) + (if f(x).Some? then [f(x).value] else [])
  {
    assert (s + [x])[..|s|] == s;
  }

  /** Filtering commutes with concatenation: it keeps the relative order of
      what it keeps. */
  lemma {:induction false} FilterConcat<T>(a: seq<T>, b: seq<T>, f: T -> bool)
    ensures Filter(a + b, f) == Filter(a, f) + Filter(b, f)
  {
    if b == [] {
      assert a + b == a;
    } else {
      var b' := b[..|b| - 1];
      assert (a + b)[..|a + b| - 1] == a + b';
      assert (a + b)[|a + b| - 1] == b[|b| - 1];
      FilterConcat(a, b', f);
    }
  }

  /** Filtering a single element keeps it exactly when it passes. */
  lemma FilterSingleton<T>(x: T, f: T -> bool)
    ensures Filter([x], f) == if f(x) then [x] else []
  {
    assert [x][..0] == [];
  }

  /** Two complementary filters split a sequence: every element goes to
      exactly one side, duplicates included. */
  lemma {:induction false} FilterPartition<T>(s: seq<T>, f: T -> bool, g: T -> bool)
    requires forall x :: g(x) == !f(x)
    ensures multiset(Filter(s, f)) + multiset(Filter(s, g)) == multiset(s)
    ensures |Filter(s, f)| + |Filter(s, g)| == |s|
  {
    if s != [] {
      var init, last := s[..|s| - 1], s[|s| - 1];
      assert s == init + [last];
      FilterPartition(init, f, g);
    }
  }

  /** The push-if-present loop commutes with concatenation. */
  lemma {:induction false} FilterMapConcat<T, U>(a: seq<T>, b: seq<T>, f: T -> Option<U>)
    ensures FilterMap(a + b, f) == FilterMap(a, f) + FilterMap(b, f)
  {
    if b == [] {
      assert a + b == a;
    } else {
      var b' := b[..|b| - 1];
      assert (a + b)[..|a + b| - 1] == a + b';
      assert (a + b)[|a + b| - 1] == b[|b| - 1];
      FilterMapConcat(a, b', f);
    }
  }

  /** Every value the loop pushes comes from some element of the input. */
  lemma {:induction false} FilterMapOrigin<T, U>(s: seq<T>, f: T -> Option<U>, y: U)
    requires y in FilterMap(s, f)
    ensures exists i :: 0 <= i < |s| && f(s[i]) == Some(y)
  {
    var init, last := s[..|s| - 1], s[|s| - 1];
    if y in FilterMap(init, f) {
      FilterMapOrigin(init, f, y);
      var i :| 0 <= i < |init| && f(init[i]) == Some(y);
      assert s[i] == init[i];
    } else {
      assert f(s[|s| - 1]) == Some(y);
    }
  }

  /** Every element whose image is present contributes its value. */
  lemma {:induction false} FilterMapComplete<T, U>(s: seq<T>, f: T -> Option<U>, i: nat)
    requires i < |s| && f(s[i]).Some?
    ensures f(s[i]).value in FilterMap(s, f)
  {
    if i < |s| - 1 {
      var init := s[..|s| - 1];
      assert init[i] == s[i];
      FilterMapComplete(init, f, i);
    }
  }
}
