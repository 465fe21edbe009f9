/** Shared vocabulary of the model: optional values and error results, the
    string operations JavaScript code in the application relies on
    (`toLowerCase`, `includes`, `trim`, `split`, `join`), de-duplication
    that keeps first occurrences, the default string order used by
    `Array.prototype.sort` and a stable insertion sort by an integer key. */
module Common {

  datatype Option<T> = None | Some(value: T)

  /** An operation that either yields a value or throws an error with a message. */
  datatype Result<T> = Ok(value: T) | Err(msg: string)

  // ---------------------------------------------------------------------------
  // Characters and case
  // ---------------------------------------------------------------------------

  /** ASCII lower-casing of one character (the model's `toLowerCase`). */
  function Lower(c: char): char
  {
    if 'A' <= c <= 'Z' then (c as int + 32) as char else c
  }

  /** ASCII upper-casing of one character (the model's `toUpperCase`). */
  function Upper(c: char): char
  {
    if 'a' <= c <= 'z' then (c as int - 32) as char else c
  }

  function ToLower(s: string): (r: string)
    ensures |r| == |s|
    ensures forall i :: 0 <= i < |s| ==> r[i] == Lower(s[i])
  {
    seq(|s|, i requires 0 <= i < |s| => Lower(s[i]))
  }

  function ToUpper(s: string): (r: string)
    ensures |r| == |s|
    ensures forall i :: 0 <= i < |s| ==> r[i] == Upper(s[i])
  {
    seq(|s|, i requires 0 <= i < |s| => Upper(s[i]))
  }

  /** Two strings are equal ignoring (ASCII) case. */
  predicate EqualsIgnoreCase(a: string, b: string)
  {
    ToLower(a) == ToLower(b)
  }

  // ---------------------------------------------------------------------------
  // Substrings (`String.prototype.includes`)
  // ---------------------------------------------------------------------------

  predicate IsPrefix(p: string, s: string)
  {
    |p| <= |s| && s[..|p|] == p
  }

  /** `s.includes(p)`: p occurs in s at some position. */
  predicate Contains(s: string, p: string)
  {
    IsPrefix(p, s) || (s != [] && Contains(s[1..], p))
  }

  /** Case-insensitive `includes` as the source writes it:
      `s.toLowerCase().includes(q.toLowerCase())`. */
  predicate ContainsIgnoreCase(s: string, q: string)
  {
    Contains(ToLower(s), ToLower(q))
  }

  /** An exact occurrence is also a case-insensitive one. */
  lemma {:induction false} ContainsIgnoringCase(s: string, p: string)
    requires Contains(s, p)
    ensures ContainsIgnoreCase(s, p)
  {
    if IsPrefix(p, s) {
      assert ToLower(s)[..|p|] == ToLower(p);
    } else {
      ContainsIgnoringCase(s[1..], p);
      assert ToLower(s)[1..] == ToLower(s[1..]);
    }
  }

  // ---------------------------------------------------------------------------
  // Whitespace and trimming
  // ---------------------------------------------------------------------------

  predicate IsSpace(c: char)
  {
    c == ' ' || c == '\t' || c == '\n' || c == '\r' || c == '\U{B}' || c == '\U{C}'
  }

  function TrimStart(s: string): (r: string)
    ensures |r| <= |s| && r == s[|s| - |r|..]
    ensures r == [] || !IsSpace(r[0])
    ensures forall i :: 0 <= i < |s| - |r| ==> IsSpace(s[i])
  {
    if s != [] && IsSpace(s[0]) then TrimStart(s[1..]) else s
  }

  function TrimEnd(s: string): (r: string)
    ensures |r| <= |s| && r == s[..|r|]
    ensures r == [] || !IsSpace(r[|r| - 1])
    ensures forall i :: |r| <= i < |s| ==> IsSpace(s[i])
  {
    if s != [] && IsSpace(s[|s| - 1]) then TrimEnd(s[..|s| - 1]) else s
  }

  /** `s.trim()`: leading and trailing white space removed. */
  function Trim(s: string): (r: string)
    ensures |r| <= |s|
    ensures r == [] || (!IsSpace(r[0]) && !IsSpace(r[|r| - 1]))
  {
    TrimEnd(TrimStart(s))
  }

  /** A string with no white space at either end. */
  predicate IsTrimmed(s: string)
  {
    s == [] || (!IsSpace(s[0]) && !IsSpace(s[|s| - 1]))
  }

  lemma TrimOfTrimmed(s: string)
    requires IsTrimmed(s)
    ensures Trim(s) == s
  {
  }

  /** Trimming keeps a contiguous part of the string. */
  lemma TrimIsSlice(s: string)
    ensures exists a, b :: 0 <= a <= b <= |s| && Trim(s) == s[a..b]
  {
    var t := TrimStart(s);
    var a := |s| - |t|;
    var u := TrimEnd(t);
    assert u == t[..|u|] && t == s[a..];
    assert Trim(s) == s[a..a + |u|];
  }

  /** Trimming adds no character. */
  lemma TrimNoNewChar(s: string, c: char)
    requires c !in s
    ensures c !in Trim(s)
  {
    TrimIsSlice(s);
    var a, b :| 0 <= a <= b <= |s| && Trim(s) == s[a..b];
    forall i | 0 <= i < b - a ensures s[a..b][i] != c {
      assert s[a..b][i] == s[a + i];
    }
  }

  /** A string that is empty or white space only (`!s.trim()`). */
  predicate IsBlank(s: string)
  {
    Trim(s) == []
  }

  lemma {:induction false} BlankIsAllSpace(s: string)
    ensures IsBlank(s) <==> forall i :: 0 <= i < |s| ==> IsSpace(s[i])
  {
    if IsBlank(s) {
      var t := TrimStart(s);
      assert TrimEnd(t) == [];
      assert t == [];
    }
  }

  // ---------------------------------------------------------------------------
  // Splitting and joining
  // ---------------------------------------------------------------------------

  /** Index of the first occurrence of c in s, or |s| when there is none. */
  function IndexOf(s: string, c: char): (k: nat)
    ensures k <= |s|
    ensures k < |s| ==> s[k] == c
    ensures forall i :: 0 <= i < k ==> s[i] != c
  {
    if s == [] then 0 else if s[0] == c then 0 else 1 + IndexOf(s[1..], c)
  }

  /** `s.split(sep)` for a one-character separator: never empty, and the
      pieces contain no separator. */
  function Split(s: string, sep: char): (r: seq<string>)
    ensures |r| >= 1
    ensures forall k :: 0 <= k < |r| ==> sep !in r[k]
    decreases |s|
  {
    var k := IndexOf(s, sep);
    if k == |s| then [s] else [s[..k]] + Split(s[k + 1..], sep)
  }

  /** `parts.join(sep)`. */
  function Join(parts: seq<string>, sep: string): string
  {
    if parts == [] then "" else if |parts| == 1 then parts[0] else parts[0] + sep + Join(parts[1..], sep)
  }

  lemma {:induction false} SplitJoin(parts: seq<string>, sep: char)
    requires |parts| >= 1
    requires forall k :: 0 <= k < |parts| ==> sep !in parts[k]
    ensures Split(Join(parts, [sep]), sep) == parts
  {
    var s := Join(parts, [sep]);
    if |parts| == 1 {
      assert IndexOf(s, sep) == |s|;
    } else {
      var rest := Join(parts[1..], [sep]);
      assert s == parts[0] + [sep] + rest;
      var k := IndexOf(s, sep);
      assert s[|parts[0]|] == sep;
      assert k == |parts[0]| by {
        forall i | 0 <= i < |parts[0]| ensures s[i] != sep {
          assert s[i] == parts[0][i];
        }
      }
      assert s[..k] == parts[0];
      assert s[k + 1..] == rest;
      SplitJoin(parts[1..], sep);
      assert [parts[0]] + parts[1..] == parts;
    }
  }

  // ---------------------------------------------------------------------------
  // Sequences
  // ---------------------------------------------------------------------------

  predicate NoDuplicates<T(==)>(s: seq<T>)
  {
    forall i, j :: 0 <= i < j < |s| ==> s[i] != s[j]
  }

  /** The elements of s in first-occurrence order, each once
      (`[...new Set(s)]`). */
  function Distinct<T(==,!new)>(s: seq<T>): (r: seq<T>)
    ensures NoDuplicates(r)
    ensures forall x :: x in r <==> x in s
    ensures |r| <= |s|
  {
    if s == [] then [] else
      var rest := Distinct(s[..|s| - 1]);
      if s[|s| - 1] in rest then rest else rest + [s[|s| - 1]]
  }

  lemma {:induction false} DistinctOfDistinct<T(!new)>(s: seq<T>)
    requires NoDuplicates(s)
    ensures Distinct(s) == s
  {
    if s != [] {
      DistinctOfDistinct(s[..|s| - 1]);
      assert s[|s| - 1] !in s[..|s| - 1];
      assert s[..|s| - 1] + [s[|s| - 1]] == s;
    }
  }

  /** Keep the elements satisfying p, in order (`Array.prototype.filter`). */
  function Filter<T>(s: seq<T>, p: T -> bool): (r: seq<T>)
    ensures |r| <= |s|
  {
    if s == [] then [] else (if p(s[0]) then [s[0]] else []) + Filter(s[1..], p)
  }

  lemma {:induction false} FilterMembers<T>(s: seq<T>, p: T -> bool, x: T)
    ensures x in Filter(s, p) <==> x in s && p(x)
  {
    if s != [] {
      FilterMembers(s[1..], p, x);
      assert s == [s[0]] + s[1..];
    }
  }

  lemma {:induction false} FilterSatisfies<T>(s: seq<T>, p: T -> bool)
    ensures forall i :: 0 <= i < |Filter(s, p)| ==> p(Filter(s, p)[i])
  {
    if s != [] {
      FilterSatisfies(s[1..], p);
    }
  }

  /** Keeping some elements of a list without duplicates keeps it without
      duplicates. */
  lemma {:induction false} FilterUnique<T>(s: seq<T>, p: T -> bool)
    requires NoDuplicates(s)
    ensures NoDuplicates(Filter(s, p))
  {
    if s != [] {
      FilterUnique(s[1..], p);
      FilterMembers(s[1..], p, s[0]);
    }
  }

  /** Keeping what every element satisfies keeps the whole list. */
  lemma {:induction false} FilterAll<T>(s: seq<T>, p: T -> bool)
    requires forall i :: 0 <= i < |s| ==> p(s[i])
    ensures Filter(s, p) == s
  {
    if s != [] {
      FilterAll(s[1..], p);
    }
  }

  /** Keeping what no element satisfies keeps nothing. */
  lemma {:induction false} FilterNone<T>(s: seq<T>, p: T -> bool)
    requires forall i :: 0 <= i < |s| ==> !p(s[i])
    ensures Filter(s, p) == []
  {
    if s != [] {
      FilterNone(s[1..], p);
    }
  }

  /** Filtering a concatenation filters each part. */
  lemma {:induction false} FilterAppend<T>(a: seq<T>, b: seq<T>, p: T -> bool)
    ensures Filter(a + b, p) == Filter(a, p) + Filter(b, p)
  {
    if a != [] {
      assert (a + b)[0] == a[0] && (a + b)[1..] == a[1..] + b;
      FilterAppend(a[1..], b, p);
    } else {
      assert a + b == b;
    }
  }

  /** Filtering a list one element longer. */
  lemma {:induction false} FilterSnoc<T>(s: seq<T>, x: T, p: T -> bool)
    ensures Filter(s + [x], p) == Filter(s, p) + (if p(x) then [x] else [])
  {
    if s == [] {
      assert s + [x] == [x];
      assert Filter([x], p) == (if p(x) then [x] else []) + Filter([], p);
    } else {
      var t := s + [x];
      assert t[0] == s[0] && t[1..] == s[1..] + [x];
      FilterSnoc(s[1..], x, p);
      assert Filter(t, p) == (if p(s[0]) then [s[0]] else []) + Filter(s[1..] + [x], p);
      assert Filter(s, p) == (if p(s[0]) then [s[0]] else []) + Filter(s[1..], p);
    }
  }

  /** Number of elements satisfying p. */
  function CountIf<T>(s: seq<T>, p: T -> bool): (n: nat)
    ensures n <= |s|
  {
    if s == [] then 0 else (if p(s[0]) then 1 else 0) + CountIf(s[1..], p)
  }

  lemma {:induction false} CountIsFilterLength<T(!new)>(s: seq<T>, p: T -> bool)
    ensures CountIf(s, p) == |Filter(s, p)|
  {
    if s != [] { CountIsFilterLength(s[1..], p); }
  }

  /** Sum of f over s. */
  function SumOf<T>(s: seq<T>, f: T -> int): int
  {
    if s == [] then 0 else f(s[0]) + SumOf(s[1..], f)
  }

  lemma {:induction false} SumOfAppend<T>(a: seq<T>, b: seq<T>, f: T -> int)
    ensures SumOf(a + b, f) == SumOf(a, f) + SumOf(b, f)
  {
    if a == [] {
      assert a + b == b;
    } else {
      assert (a + b)[0] == a[0];
      assert (a + b)[1..] == a[1..] + b;
      SumOfAppend(a[1..], b, f);
    }
  }

  /** Summing a mapped list is summing the composed function. */
  lemma {:induction false} SumOfMap<T, U>(s: seq<T>, m: T -> U, g: U -> int, f: T -> int)
    requires forall i :: 0 <= i < |s| ==> g(m(s[i])) == f(s[i])
    ensures SumOf(Map(s, m), g) == SumOf(s, f)
  {
    if s != [] {
      assert Map(s, m)[1..] == Map(s[1..], m);
      SumOfMap(s[1..], m, g, f);
    }
  }

  /** Taking one element out of a list takes its value out of the sum. */
  lemma SumOfRemove<T>(b: seq<T>, i: nat, f: T -> int)
    requires i < |b|
    ensures SumOf(b, f) == f(b[i]) + SumOf(b[..i] + b[i + 1..], f)
  {
    var front, mid, back := b[..i], [b[i]], b[i + 1..];
    assert b == front + mid + back;
    SumOfAppend(front + mid, back, f);
    SumOfAppend(front, mid, f);
    SumOfAppend(front, back, f);
    assert mid[1..] == [];
  }

  /** Taking one element out of a list takes it out of the multiset. */
  lemma MultisetRemove<T>(b: seq<T>, i: nat)
    requires i < |b|
    ensures multiset(b[..i] + b[i + 1..]) == multiset(b) - multiset{b[i]}
  {
    assert b == b[..i] + [b[i]] + b[i + 1..];
  }

  /** Reordering a list does not change its sum. */
  lemma {:induction false} SumOfPermutation<T>(a: seq<T>, b: seq<T>, f: T -> int)
    requires multiset(a) == multiset(b)
    ensures SumOf(a, f) == SumOf(b, f)
  {
    if a == [] {
      assert |b| == |multiset(b)| == 0;
    } else {
      var x, tail := a[0], a[1..];
      assert a == [x] + tail;
      assert multiset(tail) == multiset(a) - multiset{x};
      assert x in multiset(b);
      var i :| 0 <= i < |b| && b[i] == x;
      var rest := b[..i] + b[i + 1..];
      MultisetRemove(b, i);
      assert multiset(tail) == multiset(rest);
      SumOfPermutation(tail, rest, f);
      SumOfRemove(b, i, f);
    }
  }

  /** Remove the element at index i, keeping the order of the others
      (`splice(i, 1)`). */
  function RemoveAt<T>(s: seq<T>, i: nat): (r: seq<T>)
    requires i < |s|
    ensures |r| == |s| - 1
    ensures forall k :: 0 <= k < i ==> r[k] == s[k]
    ensures forall k :: i <= k < |r| ==> r[k] == s[k + 1]
  {
    s[..i] + s[i + 1..]
  }

  // ---------------------------------------------------------------------------
  // The default order of `Array.prototype.sort` on strings
  // ---------------------------------------------------------------------------

  /** a sorts strictly before b: code-unit lexicographic order. */
  predicate StrLt(a: string, b: string)
    decreases |a|
  {
    if a == [] then b != []
    else if b == [] then false
    else if a[0] != b[0] then a[0] < b[0]
    else StrLt(a[1..], b[1..])
  }

  lemma {:induction false} StrLtIrreflexive(a: string)
    ensures !StrLt(a, a)
  {
    if a != [] { StrLtIrreflexive(a[1..]); }
  }

  lemma {:induction false} StrLtTransitive(a: string, b: string, c: string)
    requires StrLt(a, b) && StrLt(b, c)
    ensures StrLt(a, c)
    decreases |a|
  {
    if a != [] && b != [] && c != [] && a[0] == b[0] && b[0] == c[0] {
      StrLtTransitive(a[1..], b[1..], c[1..]);
    }
  }

  lemma {:induction false} StrLtTotal(a: string, b: string)
    ensures a == b || StrLt(a, b) || StrLt(b, a)
    decreases |a|
  {
    if a != [] && b != [] && a[0] == b[0] {
      StrLtTotal(a[1..], b[1..]);
      if a[1..] == b[1..] { assert a == [a[0]] + a[1..] && b == [b[0]] + b[1..]; }
    }
  }

  lemma StrLtAsymmetric(a: string, b: string)
    ensures !(StrLt(a, b) && StrLt(b, a))
  {
    if StrLt(a, b) && StrLt(b, a) {
      StrLtTransitive(a, b, a);
      StrLtIrreflexive(a);
    }
  }

  /** Strictly increasing in the string order: sorted and duplicate-free. */
  predicate StrictlySorted(s: seq<string>)
  {
    forall i, j :: 0 <= i < j < |s| ==> StrLt(s[i], s[j])
  }

  /** Insert x into a strictly sorted list, unless it is already there. */
  function InsertStr(x: string, s: seq<string>): (r: seq<string>)
    requires StrictlySorted(s)
    ensures StrictlySorted(r)
    ensures forall y :: y in r <==> y == x || y in s
  {
    if s == [] then [x]
    else if x == s[0] then s
    else if StrLt(x, s[0]) then
      assert forall j :: 0 < j < |s| ==> StrLt(x, s[j]) by {
        forall j | 0 < j < |s| ensures StrLt(x, s[j]) { StrLtTransitive(x, s[0], s[j]); }
      }
      [x] + s
    else
      StrLtTotal(x, s[0]);
      var t := InsertStr(x, s[1..]);
      assert forall y :: y in t ==> StrLt(s[0], y);
      [s[0]] + t
  }

  /** The distinct values of s in ascending string order
      (`[...new Set(s)].sort()`). */
  function SortedDistinct(s: seq<string>): (r: seq<string>)
    ensures StrictlySorted(r)
    ensures forall y :: y in r <==> y in s
  {
    if s == [] then [] else InsertStr(s[0], SortedDistinct(s[1..]))
  }

  lemma HeadIsLeast(a: seq<string>, y: string)
    requires StrictlySorted(a) && y in a
    ensures y == a[0] || StrLt(a[0], y)
  {
  }

  lemma SameElementsBothEmpty<T>(a: seq<T>, b: seq<T>)
    requires forall y :: y in a <==> y in b
    ensures a == [] <==> b == []
  {
    if a != [] { assert a[0] in a; }
    if b != [] { assert b[0] in b; }
  }

  lemma {:induction false} StrictlySortedUnique(a: seq<string>, b: seq<string>)
    requires StrictlySorted(a) && StrictlySorted(b)
    requires forall y :: y in a <==> y in b
    ensures a == b
    decreases |a|
  {
    SameElementsBothEmpty(a, b);
    if a != [] {
      assert a[0] == b[0] by {
        assert a[0] in b && b[0] in a;
        HeadIsLeast(a, b[0]);
        HeadIsLeast(b, a[0]);
        StrLtAsymmetric(a[0], b[0]);
      }
      forall y ensures y in a[1..] <==> y in b[1..] {
        if y in a[1..] {
          var k :| 1 <= k < |a| && a[k] == y;
          assert StrLt(a[0], y);
          StrLtIrreflexive(y);
          assert y in b && y != b[0];
          var m :| 0 <= m < |b| && b[m] == y;
          assert b[1..][m - 1] == y;
        }
        if y in b[1..] {
          var k :| 1 <= k < |b| && b[k] == y;
          assert StrLt(b[0], y);
          StrLtIrreflexive(y);
          assert y in a && y != a[0];
          var m :| 0 <= m < |a| && a[m] == y;
          assert a[1..][m - 1] == y;
        }
      }
      StrictlySortedUnique(a[1..], b[1..]);
      assert a == [a[0]] + a[1..] && b == [b[0]] + b[1..];
    }
  }

  // ---------------------------------------------------------------------------
  // Stable sort by an integer key
  // ---------------------------------------------------------------------------

  /** Non-increasing in key. */
  predicate SortedDesc<T>(s: seq<T>, key: T -> int)
  {
    forall i, j :: 0 <= i < j < |s| ==> key(s[i]) >= key(s[j])
  }

  /** Non-decreasing in key. */
  predicate SortedAsc<T>(s: seq<T>, key: T -> int)
  {
    forall i, j :: 0 <= i < j < |s| ==> key(s[i]) <= key(s[j])
  }

  /** Insert x before the first element whose key is not larger than x's:
      x goes ahead of the elements it ties with, which came after it. */
  function InsertDesc<T>(x: T, s: seq<T>, key: T -> int): (r: seq<T>)
    requires SortedDesc(s, key)
    ensures SortedDesc(r, key)
    ensures multiset(r) == multiset(s) + multiset{x}
  {
    if s == [] || key(x) >= key(s[0]) then
      ConsDesc(x, s, key);
      [x] + s
    else
      var t := InsertDesc(x, s[1..], key);
      HeadDominates(x, s, t, key);
      ConsDesc(s[0], t, key);
      assert s == [s[0]] + s[1..];
      [s[0]] + t
  }

  /** An element not smaller than the head of a sorted list may go in front. */
  lemma ConsDesc<T>(x: T, s: seq<T>, key: T -> int)
    requires SortedDesc(s, key) && (s == [] || key(x) >= key(s[0]))
    ensures SortedDesc([x] + s, key)
  {
    var r := [x] + s;
    forall i, j | 0 <= i < j < |r| ensures key(r[i]) >= key(r[j]) {
      assert r[j] == s[j - 1];
      if i > 0 {
        assert r[i] == s[i - 1];
      } else if j > 1 {
        assert key(s[0]) >= key(s[j - 1]);
      }
    }
  }

  lemma HeadDominates<T>(x: T, s: seq<T>, t: seq<T>, key: T -> int)
    requires s != [] && SortedDesc(s, key) && key(x) < key(s[0])
    requires multiset(t) == multiset(s[1..]) + multiset{x}
    ensures forall i :: 0 <= i < |t| ==> key(s[0]) >= key(t[i])
  {
    forall i | 0 <= i < |t| ensures key(s[0]) >= key(t[i]) {
      assert t[i] in multiset(t);
      if t[i] != x {
        assert t[i] in multiset(s[1..]);
        var j :| 0 <= j < |s[1..]| && s[1..][j] == t[i];
        assert s[j + 1] == t[i];
      }
    }
  }

  /** A stable sort by descending key (`sort((a, b) => key(b) - key(a))`). */
  function SortDesc<T>(s: seq<T>, key: T -> int): (r: seq<T>)
    ensures SortedDesc(r, key)
    ensures multiset(r) == multiset(s)
    ensures |r| == |s|
  {
    if s == [] then []
    else
      var r := InsertDesc(s[0], SortDesc(s[1..], key), key);
      assert s == [s[0]] + s[1..];
      assert |r| == |multiset(r)| == |multiset(s)|;
      r
  }

  /** A stable sort by ascending key (`sort((a, b) => key(a) - key(b))`). */
  function SortAsc<T>(s: seq<T>, key: T -> int): (r: seq<T>)
    ensures SortedAsc(r, key)
    ensures multiset(r) == multiset(s)
    ensures |r| == |s|
  {
    var r := SortDesc(s, x => -key(x));
    assert forall i, j :: 0 <= i < j < |r| ==> -key(r[i]) >= -key(r[j]);
    r
  }

  /** Inserting x into A + B, where every element of A has a larger key than
      x and B starts with a key not larger than x's, puts x between A and B. */
  lemma {:induction false} InsertDescBetween<T>(x: T, a: seq<T>, b: seq<T>, key: T -> int)
    requires SortedDesc(a + b, key)
    requires forall i :: 0 <= i < |a| ==> key(a[i]) > key(x)
    requires b == [] || key(x) >= key(b[0])
    ensures InsertDesc(x, a + b, key) == a + ([x] + b)
  {
    if a == [] {
      assert a + b == b;
    } else {
      assert (a + b)[0] == a[0];
      assert (a + b)[1..] == a[1..] + b;
      InsertDescBetween(x, a[1..], b, key);
      assert a == [a[0]] + a[1..];
    }
  }

  /** The elements whose key is v, in input order. */
  function WithKey<T>(s: seq<T>, key: T -> int, v: int): (r: seq<T>)
    ensures forall i :: 0 <= i < |r| ==> key(r[i]) == v
  {
    if s == [] then [] else (if key(s[0]) == v then [s[0]] else []) + WithKey(s[1..], key, v)
  }

  /** With a two-valued key (1 before 0), the stable descending sort is the
      stable partition: the key-1 elements in input order, then the key-0 ones. */
  lemma {:induction false} SortDescTwoValued<T>(s: seq<T>, key: T -> int)
    requires forall i :: 0 <= i < |s| ==> key(s[i]) == 0 || key(s[i]) == 1
    ensures SortDesc(s, key) == WithKey(s, key, 1) + WithKey(s, key, 0)
  {
    if s != [] {
      SortDescTwoValued(s[1..], key);
      PartitionStep(s, key);
    }
  }

  lemma PartitionStep<T>(s: seq<T>, key: T -> int)
    requires s != [] && (key(s[0]) == 0 || key(s[0]) == 1)
    requires SortDesc(s[1..], key) == WithKey(s[1..], key, 1) + WithKey(s[1..], key, 0)
    ensures SortDesc(s, key) == WithKey(s, key, 1) + WithKey(s, key, 0)
  {
    var hi, lo := WithKey(s[1..], key, 1), WithKey(s[1..], key, 0);
    SortDescUnfold(s, key);
    if key(s[0]) == 1 {
      InsertDescFront(s[0], hi, lo, key);
      assert WithKey(s, key, 1) == [s[0]] + hi;
      assert WithKey(s, key, 0) == lo;
    } else {
      InsertDescBetween(s[0], hi, lo, key);
      assert WithKey(s, key, 1) == hi;
      assert WithKey(s, key, 0) == [s[0]] + lo;
    }
  }

  lemma SortDescUnfold<T>(s: seq<T>, key: T -> int)
    requires s != []
    ensures SortDesc(s, key) == InsertDesc(s[0], SortDesc(s[1..], key), key)
  {
  }

  lemma InsertDescFront<T>(x: T, hi: seq<T>, lo: seq<T>, key: T -> int)
    requires key(x) == 1 && SortedDesc(hi + lo, key)
    requires forall i :: 0 <= i < |hi| ==> key(hi[i]) == 1
    requires forall i :: 0 <= i < |lo| ==> key(lo[i]) == 0
    ensures InsertDesc(x, hi + lo, key) == ([x] + hi) + lo
  {
    assert hi + lo != [] ==> key((hi + lo)[0]) <= 1;
    assert [x] + (hi + lo) == ([x] + hi) + lo;
  }

  /** Counting two predicates that never hold together counts their union. */
  lemma {:induction false} CountIfDisjoint<T>(s: seq<T>, p: T -> bool, q: T -> bool, either: T -> bool)
    requires forall i :: 0 <= i < |s| ==> !(p(s[i]) && q(s[i]))
    requires forall i :: 0 <= i < |s| ==> (either(s[i]) <==> p(s[i]) || q(s[i]))
    ensures CountIf(s, p) + CountIf(s, q) == CountIf(s, either)
  {
    if s != [] {
      CountIfDisjoint(s[1..], p, q, either);
    }
  }

  /** The first n elements (`slice(0, n)`). */
  function Take<T>(s: seq<T>, n: nat): (r: seq<T>)
    ensures |r| == if n < |s| then n else |s|
    ensures r == s[..|r|]
  {
    if n < |s| then s[..n] else s
  }

  /** The first n elements are elements of s. */
  lemma TakeWithin<T>(s: seq<T>, n: nat)
    ensures multiset(Take(s, n)) <= multiset(s)
    ensures forall x :: x in Take(s, n) ==> x in s
  {
    var r := Take(s, n);
    assert s == r + s[|r|..];
    assert multiset(s) == multiset(r) + multiset(s[|r|..]);
  }

  /** The first n elements of a list sorted by descending key are sorted,
      and none of the others has a larger key than one of them. */
  lemma TakeSortedDesc<T>(s: seq<T>, n: nat, key: T -> int)
    requires SortedDesc(s, key)
    ensures SortedDesc(Take(s, n), key)
    ensures forall x, i :: x in s && x !in Take(s, n) && 0 <= i < |Take(s, n)| ==> key(Take(s, n)[i]) >= key(x)
  {
    var r := Take(s, n);
    forall x, i | x in s && x !in r && 0 <= i < |r| ensures key(r[i]) >= key(x) {
      assert forall k :: 0 <= k < |r| ==> s[k] == r[k] != x;
      var j :| 0 <= j < |s| && s[j] == x;
      assert r[i] == s[i];
    }
  }

  /** `s.map(f)`. */
  function Map<T, U>(s: seq<T>, f: T -> U): (r: seq<U>)
    ensures |r| == |s| && forall i :: 0 <= i < |s| ==> r[i] == f(s[i])
  {
    seq(|s|, i requires 0 <= i < |s| => f(s[i]))
  }

  /** A mapped value comes from some element. */
  lemma InMap<T, U>(s: seq<T>, f: T -> U, v: U)
    requires v in Map(s, f)
    ensures exists j :: 0 <= j < |s| && f(s[j]) == v
  {
    var r := Map(s, f);
    var j :| 0 <= j < |r| && r[j] == v;
    assert f(s[j]) == v;
  }

  /** A position of an element of a sequence's multiset. */
  lemma InMultisetAt<T>(s: seq<T>, x: T) returns (j: nat)
    requires x in multiset(s)
    ensures j < |s| && s[j] == x
  {
    assert x in s;
    j :| 0 <= j < |s| && s[j] == x;
  }

  /** The position of a mapped value. */
  lemma InMapAt<T, U>(s: seq<T>, f: T -> U, v: U) returns (j: nat)
    requires v in Map(s, f)
    ensures j < |s| && f(s[j]) == v
  {
    var r := Map(s, f);
    j :| 0 <= j < |r| && r[j] == v;
  }

  /** The position in s of an element of Filter(s, p). */
  lemma FilterFrom<T>(s: seq<T>, p: T -> bool, j: nat) returns (i: nat)
    requires j < |Filter(s, p)|
    ensures i < |s| && s[i] == Filter(s, p)[j] && p(s[i])
  {
    var x := Filter(s, p)[j];
    assert x in Filter(s, p);
    FilterMembers(s, p, x);
    i :| 0 <= i < |s| && s[i] == x;
  }

  /** The lists one after the other (`flat()`). */
  function Concat<T>(ls: seq<seq<T>>): seq<T>
  {
    if ls == [] then [] else Concat(ls[..|ls| - 1]) + ls[|ls| - 1]
  }

  /** An element is in the concatenation exactly when it is in one of the lists. */
  lemma {:induction false} InConcat<T>(ls: seq<seq<T>>, x: T)
    ensures x in Concat(ls) <==> exists i :: 0 <= i < |ls| && x in ls[i]
  {
    if ls != [] {
      var init := ls[..|ls| - 1];
      InConcat(init, x);
      if x in Concat(ls) && x !in ls[|ls| - 1] {
        var i :| 0 <= i < |init| && x in init[i];
        assert ls[i] == init[i];
      }
      if exists i :: 0 <= i < |ls| && x in ls[i] {
        var i :| 0 <= i < |ls| && x in ls[i];
        if i < |init| { assert init[i] == ls[i]; }
      }
    }
  }

  /** The distinct list grows by x exactly when x is new. */
  lemma DistinctSnoc<T(!new)>(s: seq<T>, x: T)
    ensures Distinct(s + [x]) == if x in s then Distinct(s) else Distinct(s) + [x]
  {
    assert (s + [x])[..|s + [x]| - 1] == s;
  }

  /** Mapping a prefix one element longer. */
  lemma MapSnoc<T, U>(s: seq<T>, f: T -> U, i: nat)
    requires i < |s|
    ensures Map(s[..i + 1], f) == Map(s[..i], f) + [f(s[i])]
  {
  }

  /** Mapping a list one element longer. */
  lemma MapAppendOne<T, U>(s: seq<T>, x: T, f: T -> U)
    ensures Map(s + [x], f) == Map(s, f) + [f(x)]
  {
  }

  /** Mapping the filtered list one element longer. */
  lemma MapFilterSnoc<T, U>(s: seq<T>, x: T, p: T -> bool, f: T -> U)
    ensures Map(Filter(s + [x], p), f) == Map(Filter(s, p), f) + (if p(x) then [f(x)] else [])
  {
    FilterSnoc(s, x, p);
    if p(x) {
      MapAppendOne(Filter(s, p), x, f);
    } else {
      assert Filter(s + [x], p) == Filter(s, p);
    }
  }

  // ---------------------------------------------------------------------------
  // Digits
  // ---------------------------------------------------------------------------

  predicate IsDigit(c: char)
  {
    '0' <= c <= '9'
  }

  predicate AllDigits(s: string)
  {
    forall i :: 0 <= i < |s| ==> IsDigit(s[i])
  }

  /** The longest prefix of digits. */
  function DigitPrefix(s: string): (r: string)
    ensures |r| <= |s| && AllDigits(r) && r == s[..|r|]
    ensures |r| < |s| ==> !IsDigit(s[|r|])
  {
    if s != [] && IsDigit(s[0]) then
      var t := DigitPrefix(s[1..]);
      assert s[..|t| + 1] == [s[0]] + s[1..][..|t|];
      [s[0]] + t
    else []
  }

  /** The value of a string of decimal digits. */
  function DigitsValue(s: string): (n: nat)
    requires AllDigits(s)
  {
    if s == [] then 0 else DigitsValue(s[..|s| - 1]) * 10 + (s[|s| - 1] as int - '0' as int)
  }

  /** `parseInt(s, 10)`: optional leading white space and sign, then the
      leading digits; None stands for NaN. */
  function ParseInt(s: string): (r: Option<int>)
    ensures r.Some? <==> var t := TrimStart(s);
                         var u := if t != [] && (t[0] == '-' || t[0] == '+') then t[1..] else t;
                         u != [] && IsDigit(u[0])
  {
    var t := TrimStart(s);
    var neg := t != [] && t[0] == '-';
    var u := if t != [] && (t[0] == '-' || t[0] == '+') then t[1..] else t;
    var d := DigitPrefix(u);
    if d == [] then None else Some(if neg then -(DigitsValue(d) as int) else DigitsValue(d))
  }

  /** `s.match(/\d+/)`: the first maximal run of digits, if any. */
  function FirstDigitRun(s: string): (r: Option<string>)
    ensures r.Some? ==> r.value != [] && AllDigits(r.value)
    ensures r.None? <==> forall i :: 0 <= i < |s| ==> !IsDigit(s[i])
  {
    if s == [] then None
    else if IsDigit(s[0]) then Some(DigitPrefix(s))
    else FirstDigitRun(s[1..])
  }

  /** `s.replace(/\D/g, '')`: the digits of s, in order. */
  function DigitsOnly(s: string): (r: string)
    ensures AllDigits(r) && |r| <= |s|
  {
    FilterSatisfies(s, IsDigit);
    Filter(s, IsDigit)
  }

  /** `String(n)` for a natural number: its decimal digits, without
      leading zeros. */
  function NatStr(n: nat): (r: string)
    ensures r != [] && AllDigits(r) && DigitsValue(r) == n
    ensures |r| > 1 ==> r[0] != '0'
  {
    var d := [('0' as int + n % 10) as char];
    if n < 10 then d
    else
      var r := NatStr(n / 10) + d;
      assert r[..|r| - 1] == NatStr(n / 10);
      r
  }

  /** `s.padStart(n, c)`: c repeated in front until the length is n. */
  function PadStart(s: string, n: nat, c: char): (r: string)
    ensures |r| == if |s| >= n then |s| else n
    ensures r[|r| - |s|..] == s
    ensures forall i :: 0 <= i < |r| - |s| ==> r[i] == c
    decreases n - |s|
  {
    if |s| >= n then s else PadStart([c] + s, n, c)
  }

  // ---------------------------------------------------------------------------
  // Bounds on a quotient
  // ---------------------------------------------------------------------------

  lemma DivNonNeg(x: real, c: real)
    requires x >= 0.0 && c > 0.0
    ensures x / c >= 0.0
  {
  }

  lemma DivSub(x: real, lo: real, c: real)
    requires c > 0.0
    ensures x / c - lo == (x - lo * c) / c
  {
  }

  lemma SubDiv(hi: real, x: real, c: real)
    requires c > 0.0
    ensures hi - x / c == (hi * c - x) / c
  {
  }

  /** A total between lo and hi times a positive count has a mean between
      lo and hi. */
  lemma RatioBetween(x: real, c: real, lo: real, hi: real)
    requires c > 0.0 && lo * c <= x <= hi * c
    ensures lo <= x / c <= hi
  {
    DivSub(x, lo, c);
    DivNonNeg(x - lo * c, c);
    SubDiv(hi, x, c);
    DivNonNeg(hi * c - x, c);
  }
}
