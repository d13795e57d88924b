/** Shared vocabulary: optional values, integer time, counting and filtering,
    the string operations the server and the client use, and a stable sort. */
module Common {

  datatype Option<+T> = None | Some(value: T)

  /** An instant or a duration, in milliseconds. */
  type Time = int

  const SecondMs: int := 1000
  const MinuteMs: int := 60 * SecondMs
  const HourMs: int := 60 * MinuteMs
  const DayMs: int := 24 * HourMs

  /** A value of DateTime that was never assigned (DateTime.MinValue, 0001-01-01),
      in milliseconds relative to 1970-01-01. */
  const MinDate: Time := -62135596800000

  type Byte = b: int | 0 <= b < 256

  /** Integer division rounding toward zero, as C#'s cast of a quotient to int does. */
  function TruncDiv(a: int, d: int): (q: int)
    requires d > 0
    ensures a >= 0 ==> 0 <= q && q * d <= a < q * d + d
    ensures a < 0 ==> q <= 0 && q * d - d < a <= q * d
  {
    if a >= 0 then
      var q := a / d;
      assert a == q * d + a % d && 0 <= a % d < d;
      q
    else
      var q := (-a) / d;
      assert -a == q * d + (-a) % d && 0 <= (-a) % d < d;
      -q
  }

  /** Integer division rounding up, as JavaScript's Math.ceil of a quotient does. */
  function CeilDiv(a: int, d: int): (q: int)
    requires d > 0
    ensures q * d - d < a <= q * d
  {
    var q := (-a) / d;
    assert -a == q * d + (-a) % d && 0 <= (-a) % d < d;
    -q
  }

  // ---------------------------------------------------------------------------
  // Counting and filtering

  function Count<T>(s: seq<T>, p: T -> bool): (n: nat)
    ensures n <= |s|
  {
    if |s| == 0 then 0 else Count(s[..|s| - 1], p) + (if p(s[|s| - 1]) then 1 else 0)
  }

  function Filter<T>(s: seq<T>, p: T -> bool): (r: seq<T>)
    ensures |r| == Count(s, p)
    ensures forall x :: x in r ==> x in s && p(x)
  {
    if |s| == 0 then [] else Filter(s[..|s| - 1], p) + (if p(s[|s| - 1]) then [s[|s| - 1]] else [])
  }

  /** Filter keeps exactly the elements satisfying the predicate. */
  lemma FilterExactly<T>(s: seq<T>, p: T -> bool)
    ensures forall x :: x in Filter(s, p) <==> x in s && p(x)
  {
    forall x | x in s && p(x)
      ensures x in Filter(s, p)
    {
      FilterKeeps(s, p, x);
    }
  }

  lemma {:induction false} FilterKeeps<T>(s: seq<T>, p: T -> bool, x: T)
    requires x in s && p(x)
    ensures x in Filter(s, p)
  {
    if s[|s| - 1] != x {
      assert x in s[..|s| - 1];
      FilterKeeps(s[..|s| - 1], p, x);
    }
  }

  lemma {:induction false} FilterAppend<T>(s: seq<T>, t: seq<T>, p: T -> bool)
    ensures Filter(s + t, p) == Filter(s, p) + Filter(t, p)
    decreases |t|
  {
    if |t| == 0 {
      assert s + t == s;
    } else {
      assert (s + t)[..|s + t| - 1] == s + t[..|t| - 1];
      FilterAppend(s, t[..|t| - 1], p);
    }
  }

  /** Filter keeps each element that satisfies the condition as often as it occurs,
      and no other. */
  lemma {:induction false} FilterMultiplicity<T>(s: seq<T>, p: T -> bool, x: T)
    ensures multiset(Filter(s, p))[x] == if p(x) then multiset(s)[x] else 0
  {
    if |s| > 0 {
      var init := s[..|s| - 1];
      var last := s[|s| - 1];
      FilterMultiplicity(init, p, x);
      assert s == init + [last];
      assert multiset(s) == multiset(init) + multiset{last};
    }
  }

  /** No two positions of the sequence share a key. */
  predicate KeysDistinct<T>(s: seq<T>, key: T -> string)
  {
    forall i, j :: 0 <= i < j < |s| ==> key(s[i]) != key(s[j])
  }

  /** A sequence without repeated elements holds each value at most once. */
  lemma {:induction false} DistinctMultiplicity<T>(s: seq<T>, x: T)
    requires forall i, j :: 0 <= i < j < |s| ==> s[i] != s[j]
    ensures multiset(s)[x] <= 1
  {
    if |s| > 0 {
      var init := s[..|s| - 1];
      var last := s[|s| - 1];
      DistinctMultiplicity(init, x);
      assert s == init + [last];
      assert multiset(s) == multiset(init) + multiset{last};
      if last == x {
        assert x !in init by {
          forall i | 0 <= i < |init| ensures init[i] != x { assert init[i] == s[i]; }
        }
      }
    }
  }

  /** A value at two positions occurs at least twice. */
  lemma TwiceOccurs<T>(s: seq<T>, i: nat, j: nat)
    requires i < j < |s| && s[i] == s[j]
    ensures multiset(s)[s[i]] >= 2
  {
    var x := s[i];
    assert s == s[..j] + [s[j]] + s[j + 1..];
    assert x in s[..j];
    assert multiset(s) == multiset(s[..j]) + multiset{x} + multiset(s[j + 1..]);
  }

  /** Rearranging a sequence keeps its keys distinct. */
  lemma KeysDistinctPermutation<T>(s: seq<T>, t: seq<T>, key: T -> string)
    requires multiset(s) == multiset(t) && KeysDistinct(s, key)
    ensures KeysDistinct(t, key)
  {
    forall i, j | 0 <= i < j < |t|
      ensures key(t[i]) != key(t[j])
    {
      if key(t[i]) == key(t[j]) {
        assert t[i] in multiset(s) && t[j] in multiset(s);
        var a :| 0 <= a < |s| && s[a] == t[i];
        var b :| 0 <= b < |s| && s[b] == t[j];
        if t[i] == t[j] {
          TwiceOccurs(t, i, j);
          DistinctMultiplicity(s, t[i]);
          assert false;
        } else {
          assert false;
        }
      }
    }
  }

  /** Filtering with a condition every element meets keeps everything, in order. */
  lemma {:induction false} FilterAll<T>(s: seq<T>, p: T -> bool)
    requires forall i :: 0 <= i < |s| ==> p(s[i])
    ensures Filter(s, p) == s
  {
    var n := 0;
    while n < |s|
      invariant 0 <= n <= |s|
      invariant Filter(s[..n], p) == s[..n]
    {
      FilterKeepsNext(s, n, p);
      n := n + 1;
    }
    assert s[..|s|] == s;
  }

  /** One more element that meets the condition is one more element kept. */
  lemma FilterKeepsNext<T>(s: seq<T>, n: nat, p: T -> bool)
    requires n < |s| && p(s[n])
    ensures s[..n + 1] == s[..n] + [s[n]]
    ensures Filter(s[..n + 1], p) == Filter(s[..n], p) + [s[n]]
  {
    assert s[..n + 1][..n] == s[..n];
  }

  /** JavaScript's Array.map and LINQ's Select. */
  function MapSeq<A, B>(s: seq<A>, f: A -> B): (r: seq<B>)
    ensures |r| == |s| && forall i :: 0 <= i < |s| ==> r[i] == f(s[i])
  {
    seq(|s|, i requires 0 <= i < |s| => f(s[i]))
  }

  /** Counting after a map is counting the composed condition. */
  lemma {:induction false} CountMapped<A, B>(s: seq<A>, f: A -> B, p: B -> bool, q: A -> bool)
    requires forall x :: q(x) == p(f(x))
    ensures Count(MapSeq(s, f), p) == Count(s, q)
  {
    if |s| > 0 {
      CountMapped(s[..|s| - 1], f, p, q);
      assert MapSeq(s, f)[..|s| - 1] == MapSeq(s[..|s| - 1], f);
    }
  }

  /** Nothing is counted exactly when no element satisfies the predicate. */
  lemma {:induction false} CountZero<T>(s: seq<T>, p: T -> bool)
    ensures Count(s, p) == 0 <==> forall i :: 0 <= i < |s| ==> !p(s[i])
  {
    if |s| > 0 {
      CountZero(s[..|s| - 1], p);
    }
  }

  lemma {:induction false} CountAppend<T>(s: seq<T>, t: seq<T>, p: T -> bool)
    ensures Count(s + t, p) == Count(s, p) + Count(t, p)
  {
    FilterAppend(s, t, p);
  }

  /** Taking one element out of a sequence takes it out of its multiset. */
  lemma MultisetRemoveAt<T>(t: seq<T>, k: nat)
    requires k < |t|
    ensures multiset(t[..k] + t[k + 1..]) == multiset(t) - multiset{t[k]}
  {
    assert t == t[..k] + [t[k]] + t[k + 1..];
  }

  /** Taking one element out of a sequence takes it out of the count. */
  lemma CountRemoveAt<T>(t: seq<T>, k: nat, p: T -> bool)
    requires k < |t|
    ensures Count(t, p) == Count(t[..k] + t[k + 1..], p) + (if p(t[k]) then 1 else 0)
  {
    var before, after := t[..k], t[k + 1..];
    var upTo := t[..k + 1];
    assert upTo[..k] == before;
    assert t == upTo + after;
    CountAppend(upTo, after, p);
    CountAppend(before, after, p);
  }

  /** Counting does not depend on the order of the elements. */
  lemma {:induction false} CountPermutation<T>(s: seq<T>, t: seq<T>, p: T -> bool)
    requires multiset(s) == multiset(t)
    ensures Count(s, p) == Count(t, p)
    decreases |s|
  {
    if |s| == 0 {
      assert |t| == |multiset(t)| == 0;
    } else {
      var n := |s| - 1;
      assert s[n] in multiset(t);
      var k :| 0 <= k < |t| && t[k] == s[n];
      MultisetRemoveAt(s, n);
      MultisetRemoveAt(t, k);
      CountPermutation(s[..n] + s[n + 1..], t[..k] + t[k + 1..], p);
      CountRemoveAt(s, n, p);
      CountRemoveAt(t, k, p);
    }
  }

  /** Counting a union of two disjoint conditions adds their counts. */
  lemma {:induction false} CountDisjointUnion<T>(s: seq<T>, p: T -> bool, q: T -> bool, pq: T -> bool)
    requires forall x :: pq(x) == (p(x) || q(x))
    requires forall x :: !(p(x) && q(x))
    ensures Count(s, pq) == Count(s, p) + Count(s, q)
  {
    if |s| > 0 {
      CountDisjointUnion(s[..|s| - 1], p, q, pq);
    }
  }

  /** A condition and its negation split a sequence. */
  lemma {:induction false} CountComplement<T>(s: seq<T>, p: T -> bool, np: T -> bool)
    requires forall x :: np(x) == !p(x)
    ensures Count(s, p) + Count(s, np) == |s|
  {
    if |s| > 0 {
      CountComplement(s[..|s| - 1], p, np);
    }
  }

  /** A stronger condition counts no more elements. */
  lemma {:induction false} CountMonotonic<T>(s: seq<T>, p: T -> bool, q: T -> bool)
    requires forall x :: p(x) ==> q(x)
    ensures Count(s, p) <= Count(s, q)
  {
    if |s| > 0 {
      CountMonotonic(s[..|s| - 1], p, q);
    }
  }

  predicate StrictlyIncreasing(s: seq<int>)
  {
    forall i, j :: 0 <= i < j < |s| ==> s[i] < s[j]
  }

  /** Filtering a strictly increasing list keeps it strictly increasing. */
  lemma {:induction false} FilterIncreasing(s: seq<int>, p: int -> bool)
    requires StrictlyIncreasing(s)
    ensures StrictlyIncreasing(Filter(s, p))
    decreases |s|
  {
    if |s| > 0 {
      var init := s[..|s| - 1];
      FilterIncreasing(init, p);
      var r := Filter(init, p);
      forall i | 0 <= i < |r|
        ensures r[i] < s[|s| - 1]
      {
        assert r[i] in r;
        var k :| 0 <= k < |init| && init[k] == r[i];
      }
    }
  }

  /** C#'s null-coalescing `??` on an optional string. */
  function OrElse(s: Option<string>, fallback: string): (r: string)
    ensures s.Some? ==> r == s.value
    ensures s.None? ==> r == fallback
  {
    if s.Some? then s.value else fallback
  }

  // ---------------------------------------------------------------------------
  // Characters and strings

  predicate IsDigit(c: char) { '0' <= c <= '9' }

  predicate AllDigits(s: string) { forall i :: 0 <= i < |s| ==> IsDigit(s[i]) }

  function DigitChar(d: int): (c: char)
    requires 0 <= d < 10
    ensures IsDigit(c) && c as int - '0' as int == d
  {
    ['0', '1', '2', '3', '4', '5', '6', '7', '8', '9'][d]
  }

  /** The value of a string of decimal digits. */
  function DecimalValue(s: string): nat
    requires AllDigits(s)
  {
    if |s| == 0 then 0 else DecimalValue(s[..|s| - 1]) * 10 + (s[|s| - 1] as int - '0' as int)
  }

  /** Decimal rendering of a natural number, as `${n}` and string interpolation print it. */
  function NatToString(n: nat): (s: string)
    ensures |s| > 0 && AllDigits(s)
    ensures s[0] != '0' || n == 0
  {
    if n < 10 then [DigitChar(n)] else NatToString(n / 10) + [DigitChar(n % 10)]
  }

  lemma {:induction false} NatToStringRoundTrip(n: nat)
    ensures DecimalValue(NatToString(n)) == n
  {
    if n >= 10 {
      var s := NatToString(n);
      assert s[..|s| - 1] == NatToString(n / 10);
      NatToStringRoundTrip(n / 10);
    }
  }

  function IntToString(i: int): (s: string)
    ensures |s| > 0
  {
    if i < 0 then "-" + NatToString(-i) else NatToString(i)
  }

  lemma DigitsHaveNoSeparators(s: string)
    requires AllDigits(s)
    ensures '.' !in s && '-' !in s && '/' !in s
  {
  }

  /** The white-space characters .NET's number parsing skips (NumberStyles.Integer). */
  predicate IsNumberWhite(c: char) { c == ' ' || '\U{9}' <= c <= '\U{D}' }

  /** Character.IsWhiteSpace of .NET: the Unicode White_Space characters. */
  predicate IsUnicodeWhiteSpace(c: char)
  {
    ('\U{9}' <= c <= '\U{D}') || c == ' ' || c == '\U{85}' || c == '\U{A0}' || c == '\U{1680}'
    || ('\U{2000}' <= c <= '\U{200A}') || c == '\U{2028}' || c == '\U{2029}' || c == '\U{202F}'
    || c == '\U{205F}' || c == '\U{3000}'
  }

  /** string.IsNullOrWhiteSpace, with None standing for null. */
  predicate IsNullOrWhiteSpace(s: Option<string>)
  {
    s.None? || forall i :: 0 <= i < |s.value| ==> IsUnicodeWhiteSpace(s.value[i])
  }

  /** string.IsNullOrEmpty, with None standing for null. */
  predicate IsNullOrEmpty(s: Option<string>) { s.None? || s.value == "" }

  function TrimStart(s: string, white: char -> bool): (r: string)
    ensures |r| <= |s| && r == s[|s| - |r|..]
    ensures |r| > 0 ==> !white(r[0])
  {
    if |s| > 0 && white(s[0]) then TrimStart(s[1..], white) else s
  }

  function TrimEnd(s: string, white: char -> bool): (r: string)
    ensures |r| <= |s| && r == s[..|r|]
    ensures |r| > 0 ==> !white(r[|r| - 1])
  {
    if |s| > 0 && white(s[|s| - 1]) then TrimEnd(s[..|s| - 1], white) else s
  }

  const Int32Min: int := -2147483648
  const Int32Max: int := 2147483647

  /** int.Parse of .NET (invariant culture, NumberStyles.Integer): optional white space
      around an optional sign and one or more ASCII digits; None where it throws. */
  function ParseInt32(s: string): (r: Option<int>)
    ensures r.Some? ==> Int32Min <= r.value <= Int32Max
  {
    var t := TrimEnd(TrimStart(s, IsNumberWhite), IsNumberWhite);
    var negative := |t| > 0 && t[0] == '-';
    var digits := if |t| > 0 && (t[0] == '+' || t[0] == '-') then t[1..] else t;
    if |digits| == 0 || !AllDigits(digits) then None
    else
      var magnitude: int := DecimalValue(digits);
      var v := if negative then 0 - magnitude else magnitude;
      if Int32Min <= v <= Int32Max then Some(v) else None
  }

  /** Without a minus sign the parsed number is never negative. */
  lemma ParseWithoutMinus(s: string)
    requires '-' !in s
    ensures ParseInt32(s).Some? ==> ParseInt32(s).value >= 0
  {
    var u := TrimStart(s, IsNumberWhite);
    var t := TrimEnd(u, IsNumberWhite);
    if |t| > 0 {
      assert t[0] == u[0] == s[|s| - |u|];
    }
  }

  lemma ParsePrintedNat(n: nat)
    requires n <= Int32Max
    ensures ParseInt32(NatToString(n)) == Some(n)
  {
    var s := NatToString(n);
    assert IsDigit(s[0]) && IsDigit(s[|s| - 1]);
    assert TrimStart(s, IsNumberWhite) == s by { assert !IsNumberWhite(s[0]); }
    assert TrimEnd(s, IsNumberWhite) == s by { assert !IsNumberWhite(s[|s| - 1]); }
    assert s[0] != '-' && s[0] != '+';
    NatToStringRoundTrip(n);
    assert DecimalValue(s) == n;
  }

  predicate StartsWith(s: string, prefix: string)
  {
    |prefix| <= |s| && s[..|prefix|] == prefix
  }

  /** Whether `sub` occurs in `s` (C#'s string.Contains, JavaScript's String.includes). */
  predicate Contains(s: string, sub: string)
    decreases |s|
  {
    StartsWith(s, sub) || (|s| > 0 && Contains(s[1..], sub))
  }

  lemma {:induction false} ContainsAt(s: string, sub: string, i: nat)
    requires i + |sub| <= |s| && s[i..i + |sub|] == sub
    ensures Contains(s, sub)
    decreases i
  {
    if i > 0 {
      assert s[1..][i - 1..i - 1 + |sub|] == sub;
      ContainsAt(s[1..], sub, i - 1);
    }
  }

  lemma EverythingContainsEmpty(s: string)
    ensures Contains(s, "")
  {
    assert StartsWith(s, "");
  }

  function ToLowerAsciiChar(c: char): char
  {
    if 'A' <= c <= 'Z' then (c as int + 32) as char else c
  }

  /** Lower-casing restricted to ASCII letters. */
  function ToLowerAscii(s: string): (r: string)
    ensures |r| == |s|
    ensures forall i :: 0 <= i < |s| ==> r[i] == ToLowerAsciiChar(s[i])
  {
    seq(|s|, i requires 0 <= i < |s| => ToLowerAsciiChar(s[i]))
  }

  /** Lower-casing twice is lower-casing once. */
  lemma ToLowerAsciiIdempotent(s: string)
    ensures ToLowerAscii(ToLowerAscii(s)) == ToLowerAscii(s)
  {
    var t := ToLowerAscii(s);
    forall i | 0 <= i < |s|
      ensures ToLowerAscii(t)[i] == t[i]
    {
      assert ToLowerAsciiChar(ToLowerAsciiChar(s[i])) == ToLowerAsciiChar(s[i]);
    }
  }

  /** The first position of `c` in `s`. */
  function IndexOf(s: string, c: char): (i: nat)
    requires c in s
    ensures i < |s| && s[i] == c && c !in s[..i]
  {
    if s[0] == c then 0 else 1 + IndexOf(s[1..], c)
  }

  /** String.Split(char) of .NET: the fields between separators, empty ones included. */
  function Split(s: string, sep: char): (parts: seq<string>)
    ensures |parts| >= 1
    ensures sep in s ==> |parts| >= 2
    decreases |s|
  {
    if sep !in s then [s]
    else
      var i := IndexOf(s, sep);
      [s[..i]] + Split(s[i + 1..], sep)
  }

  /** Every field is separator-free and made of characters of the whole string. */
  lemma {:induction false} SplitPieces(s: string, sep: char)
    ensures forall p :: p in Split(s, sep) ==> sep !in p && forall c :: c in p ==> c in s
    decreases |s|
  {
    if sep in s {
      var i := IndexOf(s, sep);
      SplitPieces(s[i + 1..], sep);
    }
  }

  lemma SplitNoSeparator(s: string, sep: char)
    requires sep !in s
    ensures Split(s, sep) == [s]
  {
  }

  lemma SplitFirst(x: string, sep: char, y: string)
    requires sep !in x
    ensures Split(x + [sep] + y, sep) == [x] + Split(y, sep)
  {
    var s := x + [sep] + y;
    assert s[|x|] == sep;
    var i := IndexOf(s, sep);
    assert i <= |x| by { assert sep !in s[..i]; }
    assert i >= |x| by { assert s[..|x|] == x; }
    assert s[..i] == x;
    assert s[i + 1..] == y;
  }

  /** A dash-separated pair splits into its two halves. */
  lemma SplitAtDash(head: string, tail: string)
    requires '-' !in head && '-' !in tail
    ensures Split(head + "-" + tail, '-') == [head, tail]
  {
    assert head + "-" + tail == head + ['-'] + tail;
    SplitFirst(head, '-', tail);
    SplitNoSeparator(tail, '-');
  }



  lemma SplitPrepend(x: string, y: string, rest: seq<string>)
    requires '.' !in x && Split(y, '.') == rest
    ensures Split(x + ['.'] + y, '.') == [x] + rest
  {
    SplitFirst(x, '.', y);
  }

  lemma SplitTwoFields(c: string, d: string)
    requires '.' !in c && '.' !in d
    ensures Split(c + ['.'] + d, '.') == [c, d]
  {
    SplitNoSeparator(d, '.');
    SplitPrepend(c, d, [d]);
  }

  lemma SplitThreeFields(b: string, c: string, d: string)
    requires '.' !in b && '.' !in c && '.' !in d
    ensures Split(b + ['.'] + (c + ['.'] + d), '.') == [b, c, d]
  {
    SplitTwoFields(c, d);
    SplitPrepend(b, c + ['.'] + d, [c, d]);
  }

  /** Four dot-free fields joined by dots split back into the four fields. */
  lemma SplitFourFields(a: string, b: string, c: string, d: string)
    requires '.' !in a && '.' !in b && '.' !in c && '.' !in d
    ensures Split(a + ['.'] + (b + ['.'] + (c + ['.'] + d)), '.') == [a, b, c, d]
  {
    var bcd := b + ['.'] + (c + ['.'] + d);
    SplitThreeFields(b, c, d);
    SplitPrepend(a, bcd, [b, c, d]);
    ConsFour(a, b, c, d);
  }

  lemma ConsFour<T>(a: T, b: T, c: T, d: T)
    ensures [a] + [b, c, d] == [a, b, c, d]
  {
  }

  // ---------------------------------------------------------------------------
  // Stable sorting by an integer key (LINQ's OrderBy)

  predicate SortedBy<T>(s: seq<T>, key: T -> int)
  {
    forall i :: 0 < i < |s| ==> key(s[i - 1]) <= key(s[i])
  }

  function Insert<T>(x: T, s: seq<T>, key: T -> int): (r: seq<T>)
    ensures multiset(r) == multiset(s) + multiset{x}
    ensures |r| == |s| + 1
    ensures r[0] == x || (|s| > 0 && r[0] == s[0])
    ensures SortedBy(s, key) ==> SortedBy(r, key)
  {
    if |s| == 0 then [x]
    else if key(x) <= key(s[0]) then [x] + s
    else
      var rest := Insert(x, s[1..], key);
      assert s == [s[0]] + s[1..];
      [s[0]] + rest
  }

  /** Insertion sort; an element never overtakes an earlier one with the same key. */
  function SortBy<T>(s: seq<T>, key: T -> int): (r: seq<T>)
    ensures multiset(r) == multiset(s)
    ensures SortedBy(r, key)
  {
    if |s| == 0 then []
    else
      assert s == [s[0]] + s[1..];
      Insert(s[0], SortBy(s[1..], key), key)
  }

  lemma SortByLength<T>(s: seq<T>, key: T -> int)
    ensures |SortBy(s, key)| == |s|
  {
    assert |multiset(SortBy(s, key))| == |multiset(s)|;
  }

  lemma SortByMembers<T>(s: seq<T>, key: T -> int, x: T)
    ensures x in SortBy(s, key) <==> x in s
  {
    assert x in multiset(SortBy(s, key)) <==> x in multiset(s);
  }

  lemma SortBySameMembers<T>(s: seq<T>, key: T -> int)
    ensures forall x :: x in SortBy(s, key) <==> x in s
  {
    forall x
      ensures x in SortBy(s, key) <==> x in s
    {
      SortByMembers(s, key, x);
    }
  }
}
