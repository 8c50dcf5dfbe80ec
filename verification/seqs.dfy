/** The array operations the stores and the router use: `filter`, `findIndex`
    and `some`, each with a contract saying what it computes. */
module Seqs {
  import opened JsValues

  /** `Array.prototype.filter`: the elements that satisfy `keep`, in their order. */
  function Filter<T>(s: seq<T>, keep: T -> bool): (r: seq<T>)
    ensures |r| <= |s|
    ensures forall i :: 0 <= i < |r| ==> keep(r[i]) && r[i] in s
  {
    if s == [] then []
    else (if keep(s[0]) then [s[0]] else []) + Filter(s[1..], keep)
  }

  /** Filtering keeps every qualifying element as often as it occurs, and
      nothing else. */
  lemma {:induction false} FilterCounts<T(!new)>(s: seq<T>, keep: T -> bool)
    ensures forall x :: multiset(Filter(s, keep))[x] == if keep(x) then multiset(s)[x] else 0
  {
    if s != [] {
      assert s == [s[0]] + s[1..];
      FilterCounts(s[1..], keep);
    }
  }

  /** Filtering a concatenation filters each part: the kept elements stay in order. */
  lemma {:induction false} FilterConcat<T>(a: seq<T>, b: seq<T>, keep: T -> bool)
    ensures Filter(a + b, keep) == Filter(a, keep) + Filter(b, keep)
  {
    if a == [] {
      assert a + b == b;
    } else {
      assert (a + b)[1..] == a[1..] + b;
      FilterConcat(a[1..], b, keep);
    }
  }

  /** The first element a filter keeps is the first qualifying element of its
      input. */
  lemma {:induction false} FilterHead<T>(s: seq<T>, keep: T -> bool)
    ensures |Filter(s, keep)| > 0 ==>
      exists i :: 0 <= i < |s| && s[i] == Filter(s, keep)[0] && forall j :: 0 <= j < i ==> !keep(s[j])
  {
    if s == [] {
    } else if keep(s[0]) {
      assert s[0] == Filter(s, keep)[0];
    } else if |Filter(s[1..], keep)| > 0 {
      assert Filter(s, keep) == Filter(s[1..], keep);
      FilterHead(s[1..], keep);
      var i :| 0 <= i < |s[1..]| && s[1..][i] == Filter(s[1..], keep)[0] && forall j :: 0 <= j < i ==> !keep(s[1..][j]);
      assert forall j :: 0 <= j < i + 1 ==> !keep(s[j]) by {
        forall j | 0 <= j < i + 1 ensures !keep(s[j]) {
          if j > 0 { assert s[j] == s[1..][j - 1]; }
        }
      }
      assert s[i + 1] == Filter(s, keep)[0];
    }
  }

  /** Filtering keeps the sequence as it is when every element is kept. */
  lemma {:induction false} FilterKeepsAll<T>(s: seq<T>, keep: T -> bool)
    requires forall i :: 0 <= i < |s| ==> keep(s[i])
    ensures Filter(s, keep) == s
  {
    if s != [] {
      FilterKeepsAll(s[1..], keep);
    }
  }

  /** Filtering drops everything when no element is kept. */
  lemma {:induction false} FilterDropsAll<T>(s: seq<T>, keep: T -> bool)
    requires forall i :: 0 <= i < |s| ==> !keep(s[i])
    ensures Filter(s, keep) == []
  {
    if s != [] {
      FilterDropsAll(s[1..], keep);
    }
  }

  /** Filtering keeps just the one element that qualifies. */
  lemma FilterSingle<T>(s: seq<T>, i: nat, keep: T -> bool)
    requires i < |s| && keep(s[i])
    requires forall j :: 0 <= j < |s| && j != i ==> !keep(s[j])
    ensures Filter(s, keep) == [s[i]]
  {
    var before, after := s[..i], s[i + 1..];
    assert s == before + ([s[i]] + after);
    FilterDropsAll(before, keep);
    FilterKeepsAll([s[i]], keep);
    FilterDropsAll(after, keep);
    FilterConcat([s[i]], after, keep);
    assert Filter([s[i]] + after, keep) == [s[i]];
    FilterConcat(before, [s[i]] + after, keep);
  }

  /** `Array.prototype.findIndex`, with `None` for its `-1`. */
  function FindIndex<T>(s: seq<T>, found: T -> bool): (r: Option<nat>)
    ensures r.Some? ==> r.value < |s| && found(s[r.value])
    ensures r.Some? ==> forall j :: 0 <= j < r.value ==> !found(s[j])
    ensures r.None? ==> forall j :: 0 <= j < |s| ==> !found(s[j])
  {
    if s == [] then None
    else if found(s[0]) then Some(0)
    else
      match FindIndex(s[1..], found)
      case None => None
      case Some(i) => Some(i + 1)
  }

  /** `Array.prototype.some`, evaluated left to right as the engine does. */
  function Any<T>(s: seq<T>, p: T -> bool): (b: bool)
    ensures b <==> exists i :: 0 <= i < |s| && p(s[i])
  {
    if s == [] then false
    else p(s[0]) || Any(s[1..], p)
  }
}
