/** The array operations the handlers are built from: `filter`, a `map` that
    rewrites only the elements matching a test, and "the last element matching a test"
    (what a `let` assigned inside a `map` callback ends up holding). */
module SeqUtils {
  import opened Options

  /** `s.filter(keep)`. */
  function Filter<T>(s: seq<T>, keep: T -> bool): (r: seq<T>)
    ensures |r| <= |s|
    ensures forall i :: 0 <= i < |r| ==> keep(r[i])
  {
    if s == [] then []
    else
      var init, last := s[..|s| - 1], s[|s| - 1];
      assert s == init + [last];
      Filter(init, keep) + (if keep(last) then [last] else [])
  }

  /** A filter keeps only elements of the list, and keeps every element that passes. */
  lemma {:induction false} FilterMembers<T>(s: seq<T>, keep: T -> bool)
    ensures forall i :: 0 <= i < |Filter(s, keep)| ==> Filter(s, keep)[i] in s
    ensures forall i :: 0 <= i < |s| && keep(s[i]) ==> s[i] in Filter(s, keep)
  {
    if s != [] {
      var init, last := s[..|s| - 1], s[|s| - 1];
      FilterMembers(init, keep);
      assert s == init + [last];
      assert forall i :: 0 <= i < |init| ==> init[i] == s[i];
    }
  }

  /** Filtering a concatenation filters each part: the kept elements stay in their order. */
  lemma {:induction false} FilterConcat<T>(a: seq<T>, b: seq<T>, keep: T -> bool)
    ensures Filter(a + b, keep) == Filter(a, keep) + Filter(b, keep)
  {
    if b == [] {
      assert a + b == a;
    } else {
      var init, last := b[..|b| - 1], b[|b| - 1];
      assert (a + b)[..|a + b| - 1] == a + init;
      FilterConcat(a, init, keep);
    }
  }

  /** A filter that every element passes changes nothing. */
  lemma {:induction false} FilterKeepsAll<T>(s: seq<T>, keep: T -> bool)
    requires forall i :: 0 <= i < |s| ==> keep(s[i])
    ensures Filter(s, keep) == s
  {
    if s != [] {
      var init := s[..|s| - 1];
      FilterKeepsAll(init, keep);
      assert s == init + [s[|s| - 1]];
    }
  }

  /** A filter that no element passes leaves nothing. */
  lemma FilterDropsAll<T>(s: seq<T>, keep: T -> bool)
    requires forall i :: 0 <= i < |s| ==> !keep(s[i])
    ensures Filter(s, keep) == []
  {
  }

  /** Splitting by a test and by its negation loses and duplicates nothing. */
  lemma {:induction false} FilterSplits<T>(s: seq<T>, keep: T -> bool, drop: T -> bool)
    requires forall x :: keep(x) == !drop(x)
    ensures multiset(Filter(s, keep)) + multiset(Filter(s, drop)) == multiset(s)
    ensures |Filter(s, keep)| + |Filter(s, drop)| == |s|
  {
    if s != [] {
      var init, last := s[..|s| - 1], s[|s| - 1];
      FilterSplits(init, keep, drop);
      assert s == init + [last];
      assert multiset(s) == multiset(init) + multiset{last};
      if keep(last) {
        assert Filter(s, keep) == Filter(init, keep) + [last];
        assert Filter(s, drop) == Filter(init, drop);
      } else {
        assert Filter(s, keep) == Filter(init, keep);
        assert Filter(s, drop) == Filter(init, drop) + [last];
      }
    }
  }

  /** `s.map(x => test(x) ? f(x) : x)`. */
  function MapIf<T>(s: seq<T>, test: T -> bool, f: T -> T): (r: seq<T>)
    ensures |r| == |s|
    ensures forall i :: 0 <= i < |s| ==> r[i] == if test(s[i]) then f(s[i]) else s[i]
  {
    if s == [] then []
    else
      var init, last := s[..|s| - 1], s[|s| - 1];
      MapIf(init, test, f) + [if test(last) then f(last) else last]
  }

  /** The last element of `s` that passes `test`, if any. */
  function LastWhere<T>(s: seq<T>, test: T -> bool): (r: Option<T>)
    ensures r.None? <==> forall i :: 0 <= i < |s| ==> !test(s[i])
    ensures r.Some? ==> r.value in s && test(r.value)
  {
    if s == [] then None
    else
      var init, last := s[..|s| - 1], s[|s| - 1];
      assert forall i :: 0 <= i < |init| ==> s[i] == init[i];
      if test(last) then Some(last) else LastWhere(init, test)
  }

  /** The element found is the last one that passes: no element after it passes. */
  lemma {:induction false} LastWhereIsLast<T>(s: seq<T>, test: T -> bool)
    ensures LastWhere(s, test).Some? ==>
              exists k :: 0 <= k < |s| && s[k] == LastWhere(s, test).value
                          && forall j :: k < j < |s| ==> !test(s[j])
  {
    if s != [] {
      var n := |s| - 1;
      var init := s[..n];
      var r := LastWhere(s, test);
      if test(s[n]) {
        assert r == Some(s[n]);
        assert s[n] == r.value;
      } else {
        assert r == LastWhere(init, test);
        LastWhereIsLast(init, test);
        if r.Some? {
          var k :| 0 <= k < n && init[k] == r.value && forall j :: k < j < n ==> !test(init[j]);
          assert forall j :: k < j < |s| ==> !test(s[j]) by {
            assert forall j :: k < j < n ==> s[j] == init[j];
          }
          assert 0 <= k < |s| && s[k] == r.value;
        }
      }
    }
  }
}
