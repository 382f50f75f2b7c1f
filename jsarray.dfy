/** The JavaScript array operations the storefront relies on, as pure
    functions: `find`, `filter` and the stable `sort` of a copy. */
module JsArray {
  import opened Wrappers

  /** The index `find` stops at: the first element satisfying `p`. */
  function FindIndex<T>(s: seq<T>, p: T -> bool): (r: Option<nat>)
    ensures r.Some? ==> r.value < |s| && p(s[r.value])
    ensures r.Some? ==> forall j :: 0 <= j < r.value ==> !p(s[j])
    ensures r.None? ==> forall j :: 0 <= j < |s| ==> !p(s[j])
  {
    if |s| == 0 then None
    else if p(s[0]) then Some(0)
    else match FindIndex(s[1..], p)
      case None => None
      case Some(k) => Some(k + 1)
  }

  /** `s.find(p)`: the first element satisfying `p`, or undefined. */
  function Find<T>(s: seq<T>, p: T -> bool): (r: Option<T>)
    ensures r.Some? ==> exists i :: 0 <= i < |s| && s[i] == r.value && p(s[i]) &&
                                    forall j :: 0 <= j < i ==> !p(s[j])
    ensures r.None? <==> forall j :: 0 <= j < |s| ==> !p(s[j])
  {
    match FindIndex(s, p)
    case Some(i) => Some(s[i])
    case None => None
  }

  /** `a` can be obtained from `b` by deleting elements. */
  ghost predicate IsSubsequence<T>(a: seq<T>, b: seq<T>)
    decreases |b|
  {
    a == [] ||
    (b != [] && ((a[0] == b[0] && IsSubsequence(a[1..], b[1..])) || IsSubsequence(a, b[1..])))
  }

  /** `s.filter(p)`: the elements satisfying `p`, in their original order. */
  function Filter<T(==)>(s: seq<T>, p: T -> bool): (r: seq<T>)
    ensures |r| <= |s|
    ensures IsSubsequence(r, s)
    ensures forall i :: 0 <= i < |r| ==> p(r[i])
    ensures forall i :: 0 <= i < |s| && p(s[i]) ==> s[i] in r
    ensures multiset(r) <= multiset(s)
    ensures forall i :: 0 <= i < |s| && p(s[i]) ==> multiset(r)[s[i]] == multiset(s)[s[i]]
  {
    if s == [] then []
    else
      assert s == [s[0]] + s[1..];
      if p(s[0]) then [s[0]] + Filter(s[1..], p)
      else Filter(s[1..], p)
  }

  /** A filter that rejects nothing returns its input. */
  lemma {:induction false} FilterKeepsAll<T>(s: seq<T>, p: T -> bool)
    requires forall i :: 0 <= i < |s| ==> p(s[i])
    ensures Filter(s, p) == s
  {
    if s != [] {
      FilterKeepsAll(s[1..], p);
    }
  }

  /** Inserting `x` in front of `t` at the first element it does not sort
      after (a negative or zero comparison keeps `x` in front) */
  function Insert<T>(x: T, t: seq<T>, cmp: (T, T) -> int): (r: seq<T>)
    ensures |r| == |t| + 1
    ensures multiset(r) == multiset(t) + multiset{x}
    ensures forall k :: 0 <= k < |r| ==> r[k] == x || r[k] in t
  {
    if t == [] then [x]
    else if cmp(x, t[0]) <= 0 then [x] + t
    else
      assert t == [t[0]] + t[1..];
      [t[0]] + Insert(x, t[1..], cmp)
  }

  /** `[...s].sort(cmp)`: a stable sort of a copy of `s`. Inserting each
      element before every later element it does not sort after keeps
      elements that compare equal in their original order. */
  function Sort<T>(s: seq<T>, cmp: (T, T) -> int): (r: seq<T>)
    ensures |r| == |s|
    ensures multiset(r) == multiset(s)
  {
    if s == [] then []
    else
      assert s == [s[0]] + s[1..];
      Insert(s[0], Sort(s[1..], cmp), cmp)
  }

  /** No element sorts after a later one. */
  ghost predicate Ordered<T>(s: seq<T>, cmp: (T, T) -> int) {
    forall i, j :: 0 <= i < j < |s| ==> cmp(s[i], s[j]) <= 0
  }

  /** What `sort` asks of a comparator for its result to be ordered: any
      two elements are comparable and "not after" is transitive. */
  ghost predicate Consistent<T(!new)>(cmp: (T, T) -> int) {
    Total(cmp) && Transitive(cmp)
  }

  ghost predicate Total<T(!new)>(cmp: (T, T) -> int) {
    forall a, b :: cmp(a, b) <= 0 || cmp(b, a) <= 0
  }

  ghost predicate Transitive<T(!new)>(cmp: (T, T) -> int) {
    forall a, b, c :: cmp(a, b) <= 0 && cmp(b, c) <= 0 ==> cmp(a, c) <= 0
  }

  lemma {:induction false} InsertOrdered<T(!new)>(x: T, t: seq<T>, cmp: (T, T) -> int)
    requires Consistent(cmp)
    requires Ordered(t, cmp)
    ensures Ordered(Insert(x, t, cmp), cmp)
    decreases |t|, 1
  {
    if t == [] {
    } else if cmp(x, t[0]) <= 0 {
      InsertInFront(x, t, cmp);
    } else {
      InsertBehind(x, t, cmp);
    }
  }

  lemma InsertInFront<T(!new)>(x: T, t: seq<T>, cmp: (T, T) -> int)
    requires Transitive(cmp)
    requires Ordered(t, cmp)
    requires t != [] && cmp(x, t[0]) <= 0
    ensures Ordered([x] + t, cmp)
  {
    forall k | 0 <= k < |t|
      ensures cmp(x, t[k]) <= 0
    {
      if k > 0 {
        assert cmp(t[0], t[k]) <= 0;
      }
    }
    PrependOrdered(x, t, cmp);
  }

  lemma {:induction false} InsertBehind<T(!new)>(x: T, t: seq<T>, cmp: (T, T) -> int)
    requires Consistent(cmp)
    requires Ordered(t, cmp)
    requires t != [] && cmp(x, t[0]) > 0
    ensures Ordered(Insert(x, t, cmp), cmp)
    decreases |t|, 0
  {
    var rest := Insert(x, t[1..], cmp);
    OrderedTail(t, cmp);
    InsertOrdered(x, t[1..], cmp);
    HeadBeforeInserted(x, t, cmp);
    PrependOrdered(t[0], rest, cmp);
  }

  lemma OrderedTail<T>(t: seq<T>, cmp: (T, T) -> int)
    requires Ordered(t, cmp) && t != []
    ensures Ordered(t[1..], cmp)
  {
    forall i, j | 0 <= i < j < |t[1..]|
      ensures cmp(t[1..][i], t[1..][j]) <= 0
    {
      assert t[1..][i] == t[i + 1] && t[1..][j] == t[j + 1];
    }
  }

  lemma HeadBeforeInserted<T(!new)>(x: T, t: seq<T>, cmp: (T, T) -> int)
    requires Total(cmp)
    requires Ordered(t, cmp)
    requires t != [] && cmp(x, t[0]) > 0
    ensures forall k :: 0 <= k < |Insert(x, t[1..], cmp)| ==> cmp(t[0], Insert(x, t[1..], cmp)[k]) <= 0
  {
    var rest := Insert(x, t[1..], cmp);
    assert cmp(t[0], x) <= 0;
    forall k | 0 <= k < |rest|
      ensures cmp(t[0], rest[k]) <= 0
    {
      if rest[k] != x {
        var m :| 0 <= m < |t[1..]| && t[1..][m] == rest[k];
        assert t[m + 1] == rest[k];
      }
    }
  }

  lemma PrependOrdered<T>(y: T, r: seq<T>, cmp: (T, T) -> int)
    requires Ordered(r, cmp)
    requires forall k :: 0 <= k < |r| ==> cmp(y, r[k]) <= 0
    ensures Ordered([y] + r, cmp)
  {
    var q := [y] + r;
    forall i, j | 0 <= i < j < |q|
      ensures cmp(q[i], q[j]) <= 0
    {
      assert q[j] == r[j - 1];
      if i > 0 {
        assert q[i] == r[i - 1];
      }
    }
  }

  /** The sorted copy is ordered by the comparator. */
  lemma {:induction false} SortOrdered<T(!new)>(s: seq<T>, cmp: (T, T) -> int)
    requires Consistent(cmp)
    ensures Ordered(Sort(s, cmp), cmp)
  {
    if s != [] {
      SortOrdered(s[1..], cmp);
      InsertOrdered(s[0], Sort(s[1..], cmp), cmp);
    }
  }

  /** With a comparator that never puts an element after another, the
      sorted copy is the input in its original order. */
  lemma {:induction false} SortKeepsOrderOnTies<T>(s: seq<T>, cmp: (T, T) -> int)
    requires forall a, b :: cmp(a, b) <= 0
    ensures Sort(s, cmp) == s
  {
    if s != [] {
      SortKeepsOrderOnTies(s[1..], cmp);
      assert s == [s[0]] + s[1..];
    }
  }
}
