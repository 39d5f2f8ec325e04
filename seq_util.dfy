/** Sequence helpers shared by the vector manipulations of the core: the "erase the first match and
    stop" loops and the "return the first element that matches" searches. */
module SeqUtil {

  datatype Option<T> = None | Some(value: T)

  /** Index of the first element satisfying `f`. */
  function FirstWhere<T>(s: seq<T>, f: T -> bool): (r: Option<nat>)
    ensures r.Some? ==> r.value < |s| && f(s[r.value]) && forall j :: 0 <= j < r.value ==> !f(s[j])
    ensures r.None? ==> forall j :: 0 <= j < |s| ==> !f(s[j])
  {
    if s == [] then None
    else if f(s[0]) then Some(0)
    else match FirstWhere(s[1..], f)
      case None => None
      case Some(i) => Some(i + 1)
  }

  /** A search loop that stops at `i` found the first match. */
  lemma FirstWhereAt<T>(s: seq<T>, f: T -> bool, i: nat)
    requires i < |s| && f(s[i]) && forall j :: 0 <= j < i ==> !f(s[j])
    ensures FirstWhere(s, f) == Some(i)
  {
  }

  /** A search loop that ran off the end found nothing. */
  lemma FirstWhereNone<T>(s: seq<T>, f: T -> bool)
    requires forall j :: 0 <= j < |s| ==> !f(s[j])
    ensures FirstWhere(s, f) == None
  {
  }

  /** Index of the first occurrence of `x`. */
  function IndexOf<T(==)>(s: seq<T>, x: T): (r: Option<nat>)
    ensures r.Some? ==> r.value < |s| && s[r.value] == x && x !in s[..r.value]
    ensures r.None? <==> x !in s
  {
    if s == [] then None
    else if s[0] == x then Some(0)
    else match IndexOf(s[1..], x)
      case None => None
      case Some(i) => assert s[..i + 1] == [s[0]] + s[1..][..i]; Some(i + 1)
  }

  /** An erase loop that stops at `i` found the first occurrence. */
  lemma IndexOfAt<T>(s: seq<T>, x: T, i: nat)
    requires i < |s| && s[i] == x && x !in s[..i]
    ensures IndexOf(s, x) == Some(i)
    ensures RemoveFirst(s, x) == s[..i] + s[i + 1..]
  {
  }

  /** Erasing an element that was just appended, and occurs nowhere else, restores the vector. */
  lemma RemoveAppended<T>(s: seq<T>, x: T)
    requires x !in s
    ensures RemoveFirst(s + [x], x) == s
  {
    IndexOfAt(s + [x], x, |s|);
    assert (s + [x])[..|s|] == s;
  }

  /** The vector after erasing the first occurrence of `x` (unchanged when there is none). */
  function RemoveFirst<T(==)>(s: seq<T>, x: T): seq<T>
  {
    match IndexOf(s, x)
    case None => s
    case Some(i) => s[..i] + s[i + 1..]
  }

  /** Number of occurrences of `x`. */
  function Count<T(==)>(s: seq<T>, x: T): nat
  {
    if s == [] then 0 else (if s[0] == x then 1 else 0) + Count(s[1..], x)
  }

  lemma {:induction false} CountAppend<T>(a: seq<T>, b: seq<T>, x: T)
    ensures Count(a + b, x) == Count(a, x) + Count(b, x)
  {
    if a == [] {
      assert a + b == b;
    } else {
      assert (a + b)[1..] == a[1..] + b;
      CountAppend(a[1..], b, x);
    }
  }

  lemma {:induction false} CountZero<T>(s: seq<T>, x: T)
    ensures Count(s, x) == 0 <==> x !in s
  {
    if s != [] {
      CountZero(s[1..], x);
    }
  }

  /** Erasing the first occurrence: one element fewer, one occurrence of `x` fewer, every other
      element's count unchanged, and the rest in their original order. */
  lemma RemoveFirstFacts<T>(s: seq<T>, x: T, y: T)
    ensures x !in s ==> RemoveFirst(s, x) == s
    ensures x in s ==> |RemoveFirst(s, x)| == |s| - 1
    ensures x in s ==> Count(RemoveFirst(s, x), x) == Count(s, x) - 1
    ensures y != x ==> Count(RemoveFirst(s, x), y) == Count(s, y)
    ensures multiset(RemoveFirst(s, x)) <= multiset(s)
  {
    match IndexOf(s, x)
    case None =>
    case Some(i) =>
      CountAround(s, i, x);
      CountAround(s, i, y);
      MultisetAround(s, i);
  }

  /** Counting around position `i`: before it, at it and after it; and without it. */
  lemma CountAround<T>(s: seq<T>, i: nat, y: T)
    requires i < |s|
    ensures Count(s, y) == Count(s[..i], y) + (if s[i] == y then 1 else 0) + Count(s[i + 1..], y)
    ensures Count(s[..i] + s[i + 1..], y) == Count(s[..i], y) + Count(s[i + 1..], y)
  {
    var a, b := s[..i], s[i + 1..];
    assert s == (a + [s[i]]) + b;
    CountAppend(a + [s[i]], b, y);
    CountAppend(a, [s[i]], y);
    CountAppend(a, b, y);
    assert [s[i]][1..] == [];
  }

  lemma MultisetAround<T>(s: seq<T>, i: nat)
    requires i < |s|
    ensures multiset(s[..i] + s[i + 1..]) <= multiset(s)
  {
    var a, b := s[..i], s[i + 1..];
    assert s == a + [s[i]] + b;
    assert multiset(s) == multiset(a) + multiset{s[i]} + multiset(b);
  }

  /** When `x` occurs only once, erasing it leaves no occurrence. */
  lemma RemoveOnly<T>(s: seq<T>, x: T)
    requires Count(s, x) == 1
    ensures x !in RemoveFirst(s, x)
  {
    CountZero(s, x);
    RemoveFirstFacts(s, x, x);
    CountZero(RemoveFirst(s, x), x);
  }

  /** The elements of a sequence of sequences, one after the other (what a loop pushing every
      inner element into one vector builds). */
  function Flatten<T>(ss: seq<seq<T>>): seq<T>
  {
    if ss == [] then [] else Flatten(ss[..|ss| - 1]) + ss[|ss| - 1]
  }

  /** Sum of the inner lengths. */
  function TotalLength<T>(ss: seq<seq<T>>): nat
  {
    if ss == [] then 0 else TotalLength(ss[..|ss| - 1]) + |ss[|ss| - 1]|
  }

  lemma {:induction false} FlattenLength<T>(ss: seq<seq<T>>)
    ensures |Flatten(ss)| == TotalLength(ss)
  {
    if ss != [] {
      FlattenLength(ss[..|ss| - 1]);
    }
  }

  /** Flattening distributes over concatenation. */
  lemma {:induction false} FlattenAppend<T>(a: seq<seq<T>>, b: seq<seq<T>>)
    ensures Flatten(a + b) == Flatten(a) + Flatten(b)
  {
    if b == [] {
      assert a + b == a;
    } else {
      var init, last := b[..|b| - 1], b[|b| - 1];
      assert (a + b)[..|a + b| - 1] == a + init;
      assert (a + b)[|a + b| - 1] == last;
      FlattenAppend(a, init);
      assert Flatten(a + b) == (Flatten(a) + Flatten(init)) + last;
      assert (Flatten(a) + Flatten(init)) + last == Flatten(a) + (Flatten(init) + last);
    }
  }

  /** An element of the flattened sequence comes from one of the inner sequences, and back. */
  lemma {:induction false} FlattenMember<T>(ss: seq<seq<T>>, x: T)
    ensures x in Flatten(ss) <==> exists i :: 0 <= i < |ss| && x in ss[i]
  {
    if ss != [] {
      FlattenMember(ss[..|ss| - 1], x);
      if x in Flatten(ss[..|ss| - 1]) {
        var i :| 0 <= i < |ss| - 1 && x in ss[..|ss| - 1][i];
        assert x in ss[i];
      }
      if exists i :: 0 <= i < |ss| && x in ss[i] {
        var i :| 0 <= i < |ss| && x in ss[i];
        if i < |ss| - 1 {
          assert x in ss[..|ss| - 1][i];
        }
      }
    }
  }

  /** When every inner sequence has length k, the flattened one has k times as many elements. */
  lemma {:induction false} FlattenUniform<T>(ss: seq<seq<T>>, k: nat)
    requires forall i :: 0 <= i < |ss| ==> |ss[i]| == k
    ensures |Flatten(ss)| == k * |ss|
  {
    if ss != [] {
      var n := |ss| - 1;
      FlattenUniform(ss[..n], k);
      assert |Flatten(ss)| == |Flatten(ss[..n])| + k;
      assert k * (n + 1) == k * n + k;
    }
  }
}
