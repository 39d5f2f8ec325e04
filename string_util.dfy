/** The string helpers of project/src/Utility/StringUtil.cpp (`String::Equals`, `Contains`, `Split`,
    `Join`). `String::Format` is printf-style and is not part of this model. */
module StringUtil {
  import opened SeqUtil

  /** `tolower` in the "C" locale: only 'A'..'Z' change. */
  function ToLower(c: char): (r: char)
    ensures 'A' <= c <= 'Z' ==> 'a' <= r <= 'z' && r as int - c as int == 32
    ensures !('A' <= c <= 'Z') ==> r == c
  {
    if 'A' <= c <= 'Z' then (c as int + 32) as char else c
  }

  /** The per-character test inside `Equals`' loop. */
  predicate CharEquals(a: char, b: char, caseSensitive: bool)
  {
    if caseSensitive then a == b else ToLower(a) == ToLower(b)
  }

  /** What `Equals` decides: same length and every position matches. */
  predicate EqualsSpec(s1: string, s2: string, caseSensitive: bool)
  {
    |s1| == |s2| && forall i :: 0 <= i < |s1| ==> CharEquals(s1[i], s2[i], caseSensitive)
  }

  /** `String::Equals`: a length check, then a loop that returns false at the first mismatch. */
  method Equals(str1: string, str2: string, caseSensitive: bool) returns (r: bool)
    ensures r == EqualsSpec(str1, str2, caseSensitive)
    ensures |str1| != |str2| ==> !r
    ensures caseSensitive ==> (r <==> str1 == str2)
  {
    if |str1| != |str2| {
      return false;
    }
    var size := if |str1| > |str2| then |str2| else |str1|;
    var i := 0;
    while i < size
      invariant 0 <= i <= size == |str1|
      invariant forall k :: 0 <= k < i ==> CharEquals(str1[k], str2[k], caseSensitive)
    {
      if (!caseSensitive && ToLower(str1[i]) != ToLower(str2[i])) || (caseSensitive && str1[i] != str2[i]) {
        return false;
      }
      i := i + 1;
    }
    return true;
  }

  /** Case-insensitive equality is implied by exact equality, and is an equivalence. */
  lemma {:induction false} CaseInsensitiveIsWeaker(s1: string, s2: string, s3: string)
    ensures EqualsSpec(s1, s2, true) ==> EqualsSpec(s1, s2, false)
    ensures EqualsSpec(s1, s2, false) ==> EqualsSpec(s2, s1, false)
    ensures EqualsSpec(s1, s2, false) && EqualsSpec(s2, s3, false) ==> EqualsSpec(s1, s3, false)
  {
  }

  /** The whole string passed through `tolower`, character by character. */
  function Lowered(s: string): (r: string)
    ensures |r| == |s| && forall i :: 0 <= i < |s| ==> r[i] == ToLower(s[i])
  {
    seq(|s|, i requires 0 <= i < |s| => ToLower(s[i]))
  }

  /** Case-insensitive `Equals` is plain equality of the lowered strings. */
  lemma FoldedIsLoweredEquality(s1: string, s2: string)
    ensures EqualsSpec(s1, s2, false) <==> Lowered(s1) == Lowered(s2)
  {
    var l1, l2 := Lowered(s1), Lowered(s2);
    if EqualsSpec(s1, s2, false) {
      assert forall i :: 0 <= i < |l1| ==> l1[i] == l2[i];
    }
    if l1 == l2 {
      forall i | 0 <= i < |s1|
        ensures CharEquals(s1[i], s2[i], false)
      {
        assert l1[i] == l2[i];
      }
    }
  }

  // ---------------------------------------------------------------- Contains

  /** The C string seen through `c_str()`: everything before the first NUL. */
  function CStr(s: string): (r: string)
    ensures |r| <= |s| && r == s[..|r|]
    ensures '\0' !in r
    ensures |r| < |s| ==> s[|r|] == '\0'
  {
    if s == [] || s[0] == '\0' then [] else [s[0]] + CStr(s[1..])
  }

  predicate OccursAt(t: string, f: string, i: int)
  {
    0 <= i && i + |f| <= |t| && t[i..i + |f|] == f
  }

  ghost predicate IsSubstring(f: string, t: string)
  {
    exists i :: OccursAt(t, f, i)
  }

  /** `String::Contains`: `strstr` on the two C strings. */
  function Contains(target: string, find: string): (r: bool)
    ensures r <==> IsSubstring(CStr(find), CStr(target))
  {
    FindFrom(CStr(target), CStr(find), 0).Some?
  }

  /** For strings without NUL characters `Contains` is plain substring containment, and the empty
      needle is always found. */
  lemma ContainsIsSubstring(target: string, find: string)
    requires '\0' !in target && '\0' !in find
    ensures Contains(target, find) <==> IsSubstring(find, target)
    ensures Contains(target, "")
  {
    NoNulIsOwnCStr(target);
    NoNulIsOwnCStr(find);
    assert OccursAt(CStr(target), "", 0);
  }

  lemma {:induction false} NoNulIsOwnCStr(s: string)
    requires '\0' !in s
    ensures CStr(s) == s
  {
    if s != [] {
      NoNulIsOwnCStr(s[1..]);
    }
  }

  /** A C string ends at its first NUL, whatever follows. */
  lemma {:induction false} CStrBeforeNul(s: string, rest: string)
    requires '\0' !in s
    ensures CStr(s + ['\0'] + rest) == s
  {
    var whole := s + ['\0'] + rest;
    if s == [] {
      assert whole[0] == '\0';
    } else {
      CStrBeforeNul(s[1..], rest);
      assert whole[1..] == s[1..] + ['\0'] + rest;
    }
  }

  /** `strstr` stops at the first NUL: for every target, text after its first NUL is never
      searched. */
  lemma ContainsStopsAtNul(s: string, rest: string, find: string)
    requires '\0' !in s
    ensures Contains(s + ['\0'] + rest, find) == Contains(s, find)
  {
    CStrBeforeNul(s, rest);
    NoNulIsOwnCStr(s);
  }

  // ---------------------------------------------------------------- find

  /** `std::string::find` starting at `from`: the leftmost occurrence at or after `from`. */
  function FindFrom(s: string, d: string, from: nat): (r: Option<nat>)
    ensures r.Some? ==> from <= r.value && OccursAt(s, d, r.value)
    ensures r.Some? ==> forall j :: from <= j < r.value ==> !OccursAt(s, d, j)
    ensures r.None? ==> forall j :: from <= j ==> !OccursAt(s, d, j)
    decreases |s| - from
  {
    if from + |d| > |s| then None
    else if s[from..from + |d|] == d then Some(from)
    else FindFrom(s, d, from + 1)
  }

  function Find(s: string, d: string): (r: Option<nat>)
    ensures r.Some? ==> OccursAt(s, d, r.value) && forall j :: 0 <= j < r.value ==> !OccursAt(s, d, j)
    ensures r.None? ==> !IsSubstring(d, s)
  {
    FindFrom(s, d, 0)
  }

  // ---------------------------------------------------------------- Split / Join

  /** The pieces `Split` produces: cut at the leftmost occurrence, drop the delimiter, repeat. */
  function SplitSpec(s: string, d: string): seq<string>
    requires d != ""
    decreases |s|
  {
    match Find(s, d)
    case None => [s]
    case Some(i) => [s[..i]] + SplitSpec(s[i + |d|..], d)
  }

  /** `String::Split`: a loop that moves the text before each leftmost delimiter into the output and
      erases it together with the delimiter. An empty delimiter would make the loop run forever. */
  method Split(str: string, delimiter: string) returns (output: seq<string>)
    requires delimiter != ""
    ensures output == SplitSpec(str, delimiter)
  {
    var input := str;
    output := [];
    var i := Find(input, delimiter);
    while i.Some?
      invariant output + SplitSpec(input, delimiter) == SplitSpec(str, delimiter)
      invariant i == Find(input, delimiter)
      decreases |input|
    {
      output := output + [input[..i.value]];
      input := input[i.value + |delimiter|..];
      i := Find(input, delimiter);
    }
    output := output + [input];
  }

  /** What `Join` produces, built from the back as its loop builds it from the front. */
  function JoinSpec(v: seq<string>, d: string): string
  {
    if |v| == 0 then ""
    else if |v| == 1 then v[0]
    else JoinSpec(v[..|v| - 1], d) + d + v[|v| - 1]
  }

  /** `String::Join`: append each element, and the delimiter after every element but the last. */
  method Join(v: seq<string>, delimiter: string) returns (result: string)
    ensures result == JoinSpec(v, delimiter)
  {
    result := "";
    var i := 0;
    while i < |v|
      invariant 0 <= i <= |v|
      invariant result == if i == 0 then "" else JoinSpec(v[..i], delimiter) + (if i < |v| then delimiter else "")
    {
      assert v[..i + 1][..i] == v[..i];
      result := result + v[i];
      if i != |v| - 1 {
        result := result + delimiter;
      }
      i := i + 1;
    }
    assert v[..|v|] == v;
  }

  /** Joining from the front: the first element, the delimiter, then the rest. */
  lemma {:induction false} JoinCons(a: string, rest: seq<string>, d: string)
    requires rest != []
    ensures JoinSpec([a] + rest, d) == a + d + JoinSpec(rest, d)
    decreases |rest|
  {
    if |rest| == 1 {
      assert [a] + rest == [a, rest[0]];
    } else {
      var v := [a] + rest;
      assert v[..|v| - 1] == [a] + rest[..|rest| - 1];
      JoinCons(a, rest[..|rest| - 1], d);
    }
  }

  /** Join of the empty list is "", of one element is that element, and the delimiter sits
      between consecutive elements (never after the last). */
  lemma JoinShape(v: seq<string>, d: string)
    ensures JoinSpec([], d) == ""
    ensures |v| == 1 ==> JoinSpec(v, d) == v[0]
    ensures |v| >= 2 ==> JoinSpec(v, d) == v[0] + d + JoinSpec(v[1..], d)
  {
    if |v| >= 2 {
      JoinCons(v[0], v[1..], d);
      assert [v[0]] + v[1..] == v;
    }
  }

  lemma {:induction false} SplitNonEmpty(s: string, d: string)
    requires d != ""
    ensures |SplitSpec(s, d)| >= 1
  {
  }

  /** Round trip: joining the pieces with the same delimiter gives back the original string. */
  lemma {:induction false} JoinSplit(s: string, d: string)
    requires d != ""
    ensures JoinSpec(SplitSpec(s, d), d) == s
    decreases |s|
  {
    var r := Find(s, d);
    if r.Some? {
      var i := r.value;
      var rest := s[i + |d|..];
      var pieces := SplitSpec(rest, d);
      assert SplitSpec(s, d) == [s[..i]] + pieces;
      JoinSplit(rest, d);
      SplitNonEmpty(rest, d);
      JoinCons(s[..i], pieces, d);
      Reassemble(s, d, i);
    }
  }

  /** Cutting a string around an occurrence and gluing the parts back gives the string. */
  lemma Reassemble(s: string, d: string, i: nat)
    requires OccursAt(s, d, i)
    ensures s[..i] + d + s[i + |d|..] == s
  {
    assert s[i..i + |d|] == d;
    assert s[..i] + s[i..i + |d|] == s[..i + |d|];
    assert s[..i + |d|] + s[i + |d|..] == s;
  }

  /** No piece contains the delimiter. */
  lemma {:induction false} SplitPiecesFree(s: string, d: string)
    requires d != ""
    ensures forall k :: 0 <= k < |SplitSpec(s, d)| ==> !IsSubstring(d, SplitSpec(s, d)[k])
    decreases |s|
  {
    var r := Find(s, d);
    if r.Some? {
      var i := r.value;
      var rest := s[i + |d|..];
      var pieces := SplitSpec(rest, d);
      assert SplitSpec(s, d) == [s[..i]] + pieces;
      SplitPiecesFree(rest, d);
      PrefixFree(s, d, i);
    }
  }

  /** The text before the leftmost occurrence does not contain the delimiter. */
  lemma PrefixFree(s: string, d: string, i: nat)
    requires d != "" && i <= |s|
    requires forall j :: 0 <= j < i ==> !OccursAt(s, d, j)
    ensures !IsSubstring(d, s[..i])
  {
    if IsSubstring(d, s[..i]) {
      var j :| OccursAt(s[..i], d, j);
      assert s[..i][j..j + |d|] == s[j..j + |d|];
      assert OccursAt(s, d, j);
    }
  }

  /** A left-to-right scan that counts non-overlapping occurrences, skipping past each one found. */
  function CountFrom(s: string, d: string, i: nat): nat
    requires d != ""
    decreases |s| - i
  {
    if i + |d| > |s| then 0
    else if OccursAt(s, d, i) then 1 + CountFrom(s, d, i + |d|)
    else CountFrom(s, d, i + 1)
  }

  lemma {:induction false} CountSkips(s: string, d: string, i: nat, k: nat)
    requires d != "" && i <= k
    requires forall j :: i <= j < k ==> !OccursAt(s, d, j)
    requires k + |d| <= |s| || forall j :: k <= j ==> !OccursAt(s, d, j)
    ensures CountFrom(s, d, i) == CountFrom(s, d, k)
    decreases k - i
  {
    if i < k && i + |d| <= |s| {
      CountSkips(s, d, i + 1, k);
    } else if i < k {
      CountZero(s, d, k);
    }
  }

  lemma {:induction false} CountZero(s: string, d: string, i: nat)
    requires d != "" && i + |d| > |s|
    ensures CountFrom(s, d, i) == 0
  {
  }

  lemma {:induction false} CountNone(s: string, d: string, i: nat)
    requires d != ""
    requires forall j :: i <= j ==> !OccursAt(s, d, j)
    ensures CountFrom(s, d, i) == 0
    decreases |s| - i
  {
    if i + |d| <= |s| {
      assert !OccursAt(s, d, i);
      CountNone(s, d, i + 1);
    }
  }

  lemma {:induction false} CountShift(s: string, d: string, m: nat, i: nat)
    requires d != "" && m <= |s|
    ensures CountFrom(s, d, m + i) == CountFrom(s[m..], d, i)
    decreases |s| - (m + i)
  {
    var t := s[m..];
    if m + i + |d| <= |s| {
      assert s[m + i..m + i + |d|] == t[i..i + |d|];
      assert OccursAt(s, d, m + i) == OccursAt(t, d, i);
      if OccursAt(s, d, m + i) {
        CountShift(s, d, m, i + |d|);
      } else {
        CountShift(s, d, m, i + 1);
      }
    }
  }

  /** `Split` returns one more piece than there are leftmost non-overlapping delimiter occurrences. */
  lemma {:induction false} SplitCount(s: string, d: string)
    requires d != ""
    ensures |SplitSpec(s, d)| == 1 + CountFrom(s, d, 0)
    decreases |s|
  {
    var r := Find(s, d);
    if r.None? {
      CountNone(s, d, 0);
    } else {
      var i := r.value;
      var rest := s[i + |d|..];
      assert |SplitSpec(s, d)| == 1 + |SplitSpec(rest, d)|;
      CountFirst(s, d, i);
      SplitCount(rest, d);
    }
  }

  /** The count from the start is one for the leftmost occurrence plus the count after it. */
  lemma CountFirst(s: string, d: string, i: nat)
    requires d != "" && OccursAt(s, d, i)
    requires forall j :: 0 <= j < i ==> !OccursAt(s, d, j)
    ensures CountFrom(s, d, 0) == 1 + CountFrom(s[i + |d|..], d, 0)
  {
    CountSkips(s, d, 0, i);
    CountAt(s, d, i);
    CountSuffix(s, d, i + |d|);
  }

  lemma CountSuffix(s: string, d: string, m: nat)
    requires d != "" && m <= |s|
    ensures CountFrom(s, d, m) == CountFrom(s[m..], d, 0)
  {
    CountShift(s, d, m, 0);
  }

  lemma CountAt(s: string, d: string, i: nat)
    requires d != "" && OccursAt(s, d, i)
    ensures CountFrom(s, d, i) == 1 + CountFrom(s, d, i + |d|)
  {
  }

  /** A string without the delimiter splits into itself alone. */
  lemma SplitWithoutDelimiter(s: string, d: string)
    requires d != "" && !IsSubstring(d, s)
    ensures SplitSpec(s, d) == [s]
  {
  }
}
