/** Small value types and string helpers shared by every component: an Option,
    JavaScript's white-space set and `trim`, `split` on one character, `join`,
    prefix/suffix/substring tests, decimal digits, and the insertion-ordered
    dictionary that a JavaScript object with string keys behaves like. */
module Common {

  datatype Option<T> = None | Some(value: T)

  /** Appending one element, then a sequence, is prepending the element to it. */
  lemma SnocAssoc<T>(a: seq<T>, x: T, b: seq<T>)
    ensures (a + [x]) + b == a + ([x] + b)
  {
  }

  /** A prefix one element longer. */
  lemma TakeOneMore<T>(s: seq<T>, i: nat)
    requires i < |s|
    ensures s[..i] + [s[i]] == s[..i + 1]
  {
  }

  // ---------------------------------------------------------------------------
  // White space and trim
  // ---------------------------------------------------------------------------

  /** WhiteSpace and LineTerminator of ECMAScript: what `String.prototype.trim` removes. */
  predicate IsSpace(c: char) {
    c == ' ' || c == '\t' || c == '\n' || c == '\r' || c == '\U{B}' || c == '\U{C}'
    || c == '\U{A0}' || c == '\U{1680}' || ('\U{2000}' <= c <= '\U{200A}')
    || c == '\U{2028}' || c == '\U{2029}' || c == '\U{202F}' || c == '\U{205F}'
    || c == '\U{3000}' || c == '\U{FEFF}'
  }

  predicate AllSpace(s: string) {
    forall i :: 0 <= i < |s| ==> IsSpace(s[i])
  }

  /** The number of white-space characters at the front of `s`. */
  function LeadingSpaces(s: string): (n: nat)
    ensures n <= |s| && AllSpace(s[..n])
    ensures n < |s| ==> !IsSpace(s[n])
  {
    if s != [] && IsSpace(s[0]) then
      var n := LeadingSpaces(s[1..]);
      assert forall i :: 1 <= i < n + 1 ==> s[i] == s[1..][i - 1];
      n + 1
    else 0
  }

  /** The number of white-space characters at the end of `s`. */
  function TrailingSpaces(s: string): (n: nat)
    ensures n <= |s| && AllSpace(s[|s| - n..])
    ensures n < |s| ==> !IsSpace(s[|s| - n - 1])
  {
    if s != [] && IsSpace(s[|s| - 1]) then
      var n := TrailingSpaces(s[..|s| - 1]);
      assert forall i :: |s| - 1 - n <= i < |s| - 1 ==> s[i] == s[..|s| - 1][i];
      n + 1
    else 0
  }

  /** `String.prototype.trim`: white space removed from both ends, and nothing else. */
  function Trim(s: string): (r: string)
    ensures r != [] ==> !IsSpace(r[0]) && !IsSpace(r[|r| - 1])
    ensures AllSpace(s) <==> r == []
  {
    var j := |s| - TrailingSpaces(s);
    var t := s[..j];
    var i := LeadingSpaces(t);
    assert AllSpace(s) ==> j == 0;
    assert j > 0 ==> !IsSpace(s[j - 1]);
    assert i < j ==> s[i] == t[i] && s[j - 1] == t[j - 1];
    assert i == j ==> AllSpace(s);
    t[i..]
  }

  /** What `trim` keeps is a slice of its input with only white space around it. */
  lemma TrimIsSlice(s: string)
    ensures exists i, j :: 0 <= i <= j <= |s| && Trim(s) == s[i..j] && AllSpace(s[..i]) && AllSpace(s[j..])
  {
    var j := |s| - TrailingSpaces(s);
    var i := LeadingSpaces(s[..j]);
    assert AllSpace(s[..i]) by {
      assert forall k :: 0 <= k < i ==> s[..i][k] == s[..j][..i][k];
    }
  }

  // ---------------------------------------------------------------------------
  // ASCII case mapping
  // ---------------------------------------------------------------------------

  function LowerChar(c: char): char {
    if 'A' <= c <= 'Z' then (c as int + 32) as char else c
  }

  /** `String.prototype.toLowerCase`, restricted to the ASCII letters. */
  function ToLower(s: string): (r: string)
    ensures |r| == |s|
    ensures forall i :: 0 <= i < |s| ==> r[i] == LowerChar(s[i])
  {
    if s == [] then [] else [LowerChar(s[0])] + ToLower(s[1..])
  }

  // ---------------------------------------------------------------------------
  // Occurrences, split and join
  // ---------------------------------------------------------------------------

  function Count(s: string, c: char): nat {
    if s == [] then 0 else (if s[0] == c then 1 else 0) + Count(s[1..], c)
  }

  /** The parts joined back together with `sep` between neighbours (`Array.prototype.join`). */
  function Join(parts: seq<string>, sep: string): string {
    if parts == [] then "" else if |parts| == 1 then parts[0] else parts[0] + sep + Join(parts[1..], sep)
  }

  /** `String.prototype.split` with a one-character separator and no limit. */
  function Split(s: string, c: char): (r: seq<string>)
    ensures |r| == Count(s, c) + 1
    ensures forall i :: 0 <= i < |r| ==> c !in r[i]
    ensures Join(r, [c]) == s
  {
    if s == [] then [""]
    else if s[0] == c then [""] + Split(s[1..], c)
    else
      var t := Split(s[1..], c);
      [[s[0]] + t[0]] + t[1..]
  }

  /** Splitting a join of separator-free parts gives the parts back. */
  lemma {:induction false} SplitJoin(parts: seq<string>, c: char)
    requires |parts| >= 1
    requires forall i :: 0 <= i < |parts| ==> c !in parts[i]
    ensures Split(Join(parts, [c]), c) == parts
  {
    if |parts| == 1 {
      SplitNoSep(parts[0], c);
    } else {
      SplitJoin(parts[1..], c);
      SplitPrefix(parts[0], Join(parts[1..], [c]), c);
    }
  }

  lemma {:induction false} SplitNoSep(s: string, c: char)
    requires c !in s
    ensures Split(s, c) == [s]
  {
    if s != [] {
      SplitNoSep(s[1..], c);
      assert [s[0]] + s[1..] == s;
    }
  }

  lemma {:induction false} SplitPrefix(a: string, b: string, c: char)
    requires c !in a
    ensures Split(a + [c] + b, c) == [a] + Split(b, c)
  {
    if a == [] {
      assert a + [c] + b == [c] + b;
      assert ([c] + b)[1..] == b;
    } else {
      assert (a + [c] + b)[1..] == a[1..] + [c] + b;
      SplitPrefix(a[1..], b, c);
      assert [a[0]] + a[1..] == a;
    }
  }

  // ---------------------------------------------------------------------------
  // Prefixes, suffixes, substrings
  // ---------------------------------------------------------------------------

  predicate StartsWith(s: string, p: string) {
    |p| <= |s| && s[..|p|] == p
  }

  predicate EndsWith(s: string, p: string) {
    |p| <= |s| && s[|s| - |p|..] == p
  }

  /** `String.prototype.includes`. */
  predicate Contains(s: string, p: string)
    decreases |s|
  {
    StartsWith(s, p) || (s != [] && Contains(s[1..], p))
  }

  lemma {:induction false} ContainsAt(s: string, p: string, i: nat)
    requires i + |p| <= |s| && s[i..i + |p|] == p
    ensures Contains(s, p)
  {
    if i > 0 {
      assert s[1..][i - 1..i - 1 + |p|] == s[i..i + |p|];
      ContainsAt(s[1..], p, i - 1);
    }
  }

  // ---------------------------------------------------------------------------
  // Decimal digits
  // ---------------------------------------------------------------------------

  predicate IsDigit(c: char) { '0' <= c <= '9' }

  predicate AllDigits(s: string) {
    forall i :: 0 <= i < |s| ==> IsDigit(s[i])
  }

  function DigitChar(d: int): (c: char)
    requires 0 <= d < 10
    ensures IsDigit(c) && c as int - '0' as int == d
  {
    (('0' as int) + d) as char
  }

  /** The value of a string of decimal digits (0 for the empty string). */
  function DigitsValue(s: string): nat
    requires AllDigits(s)
  {
    if s == [] then 0 else DigitsValue(s[..|s| - 1]) * 10 + (s[|s| - 1] as int - '0' as int)
  }

  /** `String(n)` for a natural number. */
  function Decimal(n: nat): (r: string)
    ensures r != []
  {
    if n < 10 then [DigitChar(n)] else Decimal(n / 10) + [DigitChar(n % 10)]
  }

  /** `String(n)` of a natural number is made of digits only. */
  lemma {:induction false} DecimalDigits(n: nat)
    ensures AllDigits(Decimal(n))
  {
    if n >= 10 {
      DecimalDigits(n / 10);
    }
  }

  /** `String(n)` for any integer: a minus sign before the digits of a negative one. */
  function IntString(n: int): string {
    if n < 0 then "-" + Decimal(-n) else Decimal(n)
  }

  lemma {:induction false} DecimalValue(n: nat)
    ensures AllDigits(Decimal(n)) && DigitsValue(Decimal(n)) == n
  {
    DecimalDigits(n);
    if n >= 10 {
      DecimalValue(n / 10);
      var s := Decimal(n);
      assert s[..|s| - 1] == Decimal(n / 10);
    }
  }

  /** `padStart(width, '0')`. */
  function PadZeros(s: string, width: nat): (r: string)
    ensures |r| == if |s| >= width then |s| else width
    ensures AllDigits(s) ==> AllDigits(r)
    decreases width - |s|
  {
    if |s| >= width then s else PadZeros("0" + s, width)
  }

  lemma {:induction false} LeadingZero(s: string)
    requires AllDigits(s)
    ensures AllDigits("0" + s) && DigitsValue("0" + s) == DigitsValue(s)
  {
    if s != [] {
      var z := "0" + s;
      assert z[..|z| - 1] == "0" + s[..|s| - 1];
      LeadingZero(s[..|s| - 1]);
    }
  }

  lemma {:induction false} PadZerosValue(s: string, width: nat)
    requires AllDigits(s)
    ensures DigitsValue(PadZeros(s, width)) == DigitsValue(s)
    decreases width - |s|
  {
    if |s| < width {
      LeadingZero(s);
      PadZerosValue("0" + s, width);
    }
  }

  /** A natural number written with at least `width` digits. */
  function Padded(n: nat, width: nat): (r: string)
    ensures AllDigits(r) && |r| >= width && |r| >= 1
    ensures DigitsValue(r) == n
  {
    DecimalValue(n);
    PadZerosValue(Decimal(n), width);
    PadZeros(Decimal(n), width)
  }

  lemma DigitsHaveNo(s: string, c: char)
    requires AllDigits(s) && !IsDigit(c)
    ensures c !in s
  {
  }

  lemma {:induction false} DecimalLength(n: nat)
    ensures n < 10 ==> |Decimal(n)| == 1
    ensures 10 <= n < 100 ==> |Decimal(n)| == 2
    ensures 100 <= n < 1000 ==> |Decimal(n)| == 3
    ensures 1000 <= n < 10000 ==> |Decimal(n)| == 4
  {
    if n >= 10 { DecimalLength(n / 10); }
  }

  // ---------------------------------------------------------------------------
  // Insertion-ordered dictionaries (a JavaScript object used as a record of keys)
  // ---------------------------------------------------------------------------

  type Dict<K, V> = seq<(K, V)>

  predicate HasKey<K(==), V>(d: Dict<K, V>, k: K) {
    exists i :: 0 <= i < |d| && d[i].0 == k
  }

  predicate UniqueKeys<K(==), V>(d: Dict<K, V>) {
    forall i, j :: 0 <= i < j < |d| ==> d[i].0 != d[j].0
  }

  /** `d[k]`: the value of the first entry with key `k`, if any. */
  function Lookup<K(==), V>(d: Dict<K, V>, k: K): (r: Option<V>)
    ensures r.None? <==> !HasKey(d, k)
    ensures r.Some? ==> exists i :: 0 <= i < |d| && d[i] == (k, r.value)
  {
    if d == [] then None
    else if d[0].0 == k then Some(d[0].1)
    else
      var r := Lookup(d[1..], k);
      assert r.Some? ==> d[1..][0..] == d[1..];
      assert HasKey(d, k) ==> HasKey(d[1..], k) by {
        if HasKey(d, k) {
          var i :| 0 <= i < |d| && d[i].0 == k;
          assert d[1..][i - 1].0 == k;
        }
      }
      r
  }

  /** `{ ...d, [k]: v }`: an existing key keeps its position, a new key goes last. */
  function Put<K(==,!new), V>(d: Dict<K, V>, k: K, v: V): (r: Dict<K, V>)
    ensures Lookup(r, k) == Some(v)
    ensures forall k' :: k' != k ==> Lookup(r, k') == Lookup(d, k')
    ensures HasKey(d, k) ==> |r| == |d|
    ensures !HasKey(d, k) ==> r == d + [(k, v)]
    ensures UniqueKeys(d) ==> UniqueKeys(r)
  {
    if d == [] then [(k, v)]
    else if d[0].0 == k then
      SameKeysUnique(d, [(k, v)] + d[1..]);
      [(k, v)] + d[1..]
    else
      var t := Put(d[1..], k, v);
      PutStep(d, k, v, t);
      [d[0]] + t
  }

  /** The recursive case of `Put`: the head entry, with another key, stays in front of
      the tail's update. */
  lemma PutStep<K, V>(d: Dict<K, V>, k: K, v: V, t: Dict<K, V>)
    requires d != [] && d[0].0 != k
    requires Lookup(t, k) == Some(v)
    requires forall k' :: k' != k ==> Lookup(t, k') == Lookup(d[1..], k')
    requires HasKey(d[1..], k) ==> |t| == |d[1..]|
    requires !HasKey(d[1..], k) ==> t == d[1..] + [(k, v)]
    requires UniqueKeys(d[1..]) ==> UniqueKeys(t)
    ensures Lookup([d[0]] + t, k) == Some(v)
    ensures forall k' :: k' != k ==> Lookup([d[0]] + t, k') == Lookup(d, k')
    ensures HasKey(d, k) ==> |[d[0]] + t| == |d|
    ensures !HasKey(d, k) ==> [d[0]] + t == d + [(k, v)]
    ensures UniqueKeys(d) ==> UniqueKeys([d[0]] + t)
  {
    var r := [d[0]] + t;
    assert r[0] == d[0] && r[1..] == t;
    HasKeyTail(d, k);
    if !HasKey(d, k) {
      assert d == [d[0]] + d[1..];
    }
    if UniqueKeys(d) {
      UniqueTail(d);
      assert Lookup(t, d[0].0) == Lookup(d[1..], d[0].0);
      ConsUnique(d[0], t);
    }
  }

  /** Dictionaries with the same keys in the same order are alike in key uniqueness. */
  lemma SameKeysUnique<K, V>(a: Dict<K, V>, b: Dict<K, V>)
    requires |a| == |b| && forall i :: 0 <= i < |a| ==> a[i].0 == b[i].0
    ensures UniqueKeys(a) ==> UniqueKeys(b)
  {
  }

  lemma HasKeyTail<K, V>(d: Dict<K, V>, k: K)
    requires d != [] && d[0].0 != k
    ensures HasKey(d, k) <==> HasKey(d[1..], k)
  {
    if HasKey(d, k) {
      var i :| 0 <= i < |d| && d[i].0 == k;
      assert d[1..][i - 1].0 == k;
    }
    if HasKey(d[1..], k) {
      var i :| 0 <= i < |d[1..]| && d[1..][i].0 == k;
      assert d[i + 1].0 == k;
    }
  }

  lemma UniqueTail<K, V>(d: Dict<K, V>)
    requires d != [] && UniqueKeys(d)
    ensures UniqueKeys(d[1..]) && !HasKey(d[1..], d[0].0)
  {
    forall i | 0 <= i < |d[1..]| ensures d[1..][i].0 != d[0].0 {
      assert d[1..][i] == d[i + 1];
    }
  }

  lemma ConsUnique<K, V>(x: (K, V), t: Dict<K, V>)
    requires UniqueKeys(t) && !HasKey(t, x.0)
    ensures UniqueKeys([x] + t)
  {
    var r := [x] + t;
    forall i, j | 0 <= i < j < |r| ensures r[i].0 != r[j].0 {
      assert r[j] == t[j - 1];
      if i > 0 {
        assert r[i] == t[i - 1];
      }
    }
  }

  /** With unique keys, looking up an entry's key finds that entry's value. */
  lemma LookupUnique<K, V>(d: Dict<K, V>, i: nat)
    requires UniqueKeys(d) && i < |d|
    ensures Lookup(d, d[i].0) == Some(d[i].1)
  {
    var v := Lookup(d, d[i].0);
    var j :| 0 <= j < |d| && d[j] == (d[i].0, v.value);
  }

  /** Overwriting an existing key leaves every key where it was. */
  lemma {:induction false} PutKeepsKeys<K(!new), V>(d: Dict<K, V>, k: K, v: V)
    requires HasKey(d, k)
    ensures |Put(d, k, v)| == |d|
    ensures forall i :: 0 <= i < |d| ==> Put(d, k, v)[i].0 == d[i].0
  {
    if d[0].0 != k {
      assert HasKey(d[1..], k) by {
        var i :| 0 <= i < |d| && d[i].0 == k;
        assert d[1..][i - 1].0 == k;
      }
      PutKeepsKeys(d[1..], k, v);
    }
  }

  /** `delete d[k]`. */
  function Remove<K(==,!new), V>(d: Dict<K, V>, k: K): (r: Dict<K, V>)
    ensures !HasKey(r, k)
    ensures forall k' :: k' != k ==> Lookup(r, k') == Lookup(d, k')
    ensures UniqueKeys(d) ==> UniqueKeys(r)
    ensures forall p :: p in r ==> p in d
  {
    if d == [] then []
    else if d[0].0 == k then Remove(d[1..], k)
    else
      var t := Remove(d[1..], k);
      assert UniqueKeys(d) ==> UniqueKeys([d[0]] + t) by {
        if UniqueKeys(d) {
          forall j | 0 <= j < |t| ensures t[j].0 != d[0].0 {
            assert t[j] in d[1..];
          }
        }
      }
      [d[0]] + t
  }

  /** The sum of the values, in entry order (`Object.values(d).reduce((a, b) => a + b, 0)`). */
  function SumValues<K>(d: Dict<K, real>): real {
    if d == [] then 0.0 else d[0].1 + SumValues(d[1..])
  }

  // ---------------------------------------------------------------------------
  // Array.prototype.filter
  // ---------------------------------------------------------------------------

  /** The elements of `s` that satisfy `p`, in their order in `s`. */
  function Filter<T(==)>(s: seq<T>, p: T -> bool): (r: seq<T>)
    ensures |r| <= |s|
    ensures forall i :: 0 <= i < |r| ==> r[i] in s && p(r[i])
    ensures forall i :: 0 <= i < |s| && p(s[i]) ==> s[i] in r
    ensures (forall i :: 0 <= i < |s| ==> p(s[i])) ==> r == s
  {
    if s == [] then []
    else if p(s[0]) then [s[0]] + Filter(s[1..], p)
    else Filter(s[1..], p)
  }

  /** Filtering distributes over concatenation, so it keeps the relative order of
      the elements it keeps. */
  lemma {:induction false} FilterConcat<T>(a: seq<T>, b: seq<T>, p: T -> bool)
    ensures Filter(a + b, p) == Filter(a, p) + Filter(b, p)
  {
    if a == [] {
      assert a + b == b;
    } else {
      assert (a + b)[0] == a[0] && (a + b)[1..] == a[1..] + b;
      FilterConcat(a[1..], b, p);
    }
  }

  // ---------------------------------------------------------------------------
  // Array.prototype.sort with a numeric comparator (stable)
  // ---------------------------------------------------------------------------

  /** Inserts `x` after every element whose key is not larger: stable insertion. */
  function Insert<T>(x: T, s: seq<T>, key: T -> real): (r: seq<T>)
    ensures multiset(r) == multiset(s) + multiset{x}
    ensures |r| == |s| + 1
  {
    if s == [] then [x]
    else if key(x) < key(s[0]) then [x] + s
    else
      assert s == [s[0]] + s[1..];
      [s[0]] + Insert(x, s[1..], key)
  }

  predicate KeySorted<T>(s: seq<T>, key: T -> real) {
    forall i, j :: 0 <= i < j < |s| ==> key(s[i]) <= key(s[j])
  }

  lemma {:induction false} InsertSorted<T>(x: T, s: seq<T>, key: T -> real)
    requires KeySorted(s, key)
    ensures KeySorted(Insert(x, s, key), key)
  {
    if s != [] && key(x) >= key(s[0]) {
      InsertSorted(x, s[1..], key);
      var t := Insert(x, s[1..], key);
      forall k | 0 <= k < |t| ensures key(s[0]) <= key(t[k]) {
        assert t[k] in multiset(t);
        assert t[k] == x || t[k] in multiset(s[1..]);
      }
    }
  }

  /** A stable insertion sort by key. */
  function SortByKey<T>(s: seq<T>, key: T -> real): (r: seq<T>)
    ensures multiset(r) == multiset(s)
    ensures |r| == |s|
  {
    if s == [] then []
    else
      assert s == s[..|s| - 1] + [s[|s| - 1]];
      Insert(s[|s| - 1], SortByKey(s[..|s| - 1], key), key)
  }

  lemma {:induction false} SortByKeySorted<T>(s: seq<T>, key: T -> real)
    ensures KeySorted(SortByKey(s, key), key)
  {
    if s != [] {
      SortByKeySorted(s[..|s| - 1], key);
      InsertSorted(s[|s| - 1], SortByKey(s[..|s| - 1], key), key);
    }
  }

  lemma {:induction false} FilterSplits<T>(s: seq<T>, p: T -> bool, q: T -> bool)
    requires forall x :: q(x) == !p(x)
    ensures multiset(Filter(s, p)) + multiset(Filter(s, q)) == multiset(s)
  {
    if s != [] {
      FilterSplits(s[1..], p, q);
      FilterSplitsStep(s, p, q);
    }
  }

  /** The step of `FilterSplits`: the head goes to exactly one side. */
  lemma FilterSplitsStep<T>(s: seq<T>, p: T -> bool, q: T -> bool)
    requires s != [] && forall x :: q(x) == !p(x)
    requires multiset(Filter(s[1..], p)) + multiset(Filter(s[1..], q)) == multiset(s[1..])
    ensures multiset(Filter(s, p)) + multiset(Filter(s, q)) == multiset(s)
  {
    var fp, fq := Filter(s[1..], p), Filter(s[1..], q);
    assert multiset(s) == multiset{s[0]} + multiset(s[1..]) by {
      assert s == [s[0]] + s[1..];
    }
    assert q(s[0]) == !p(s[0]);
    if p(s[0]) {
      assert Filter(s, p) == [s[0]] + fp && Filter(s, q) == fq;
      assert multiset(Filter(s, p)) == multiset{s[0]} + multiset(fp);
    } else {
      assert Filter(s, p) == fp && Filter(s, q) == [s[0]] + fq;
      assert multiset(Filter(s, q)) == multiset{s[0]} + multiset(fq);
    }
  }


  /** The elements of `r` that satisfy `p` appear in key order. */
  predicate SortedWhere<T>(r: seq<T>, p: T -> bool, key: T -> real) {
    forall i, j :: 0 <= i < j < |r| && p(r[i]) && p(r[j]) ==> key(r[i]) <= key(r[j])
  }

  lemma SortedThenOthers<T>(a: seq<T>, b: seq<T>, p: T -> bool, key: T -> real)
    requires KeySorted(a, key)
    requires forall j :: 0 <= j < |b| ==> !p(b[j])
    ensures SortedWhere(a + b, p, key)
  {
    var r := a + b;
    assert forall j :: |a| <= j < |r| ==> r[j] == b[j - |a|];
  }

  /** Sorting the elements that satisfy `p` and appending the others keeps every
      element and puts the elements that satisfy `p` in key order. */
  lemma SortFilteredSpec<T>(s: seq<T>, p: T -> bool, q: T -> bool, key: T -> real)
    requires forall x :: q(x) == !p(x)
    ensures multiset(SortByKey(Filter(s, p), key) + Filter(s, q)) == multiset(s)
    ensures SortedWhere(SortByKey(Filter(s, p), key) + Filter(s, q), p, key)
  {
    FilterSplits(s, p, q);
    SortByKeySorted(Filter(s, p), key);
    SortedThenOthers(SortByKey(Filter(s, p), key), Filter(s, q), p, key);
  }

  /** The position of the first element with the smallest key. */
  function FirstMin<T>(s: seq<T>, key: T -> real): (m: nat)
    requires s != []
    ensures m < |s|
    ensures forall j :: 0 <= j < |s| ==> key(s[m]) <= key(s[j])
    ensures forall j :: 0 <= j < m ==> key(s[m]) < key(s[j])
  {
    if |s| == 1 then 0
    else
      var m := FirstMin(s[..|s| - 1], key);
      assert forall j :: 0 <= j < |s| - 1 ==> s[..|s| - 1][j] == s[j];
      if key(s[|s| - 1]) < key(s[m]) then |s| - 1 else m
  }

  /** The head of `Insert(x, t)` is `x` when its key is below the head's, else the head. */
  lemma InsertHead<T>(x: T, t: seq<T>, key: T -> real)
    ensures Insert(x, t, key)[0] == if t != [] && key(t[0]) <= key(x) then t[0] else x
  {
  }

  /** Because the sort is stable, `sort(...)[0]` is the first element of smallest key. */
  lemma {:induction false} SortHead<T>(s: seq<T>, key: T -> real)
    requires s != []
    ensures SortByKey(s, key)[0] == s[FirstMin(s, key)]
  {
    var init := s[..|s| - 1];
    if init == [] {
    } else {
      SortHead(init, key);
      var t := SortByKey(init, key);
      InsertHead(s[|s| - 1], t, key);
      assert forall j :: 0 <= j < |s| - 1 ==> init[j] == s[j];
    }
  }

  /** `Array.prototype.find`/`findIndex`: the first position whose element satisfies `p`. */
  function FindFirst<T>(s: seq<T>, p: T -> bool): (r: Option<nat>)
    ensures r.Some? ==> r.value < |s| && p(s[r.value]) && forall j :: 0 <= j < r.value ==> !p(s[j])
    ensures r.None? ==> forall j :: 0 <= j < |s| ==> !p(s[j])
  {
    if s == [] then None
    else if p(s[0]) then Some(0)
    else
      var r := FindFirst(s[1..], p);
      assert forall j :: 1 <= j < |s| ==> s[1..][j - 1] == s[j];
      if r.None? then None else Some(r.value + 1)
  }

  /** `Array.prototype.find`: the first element that satisfies `p`, if any. */
  function Find<T>(s: seq<T>, p: T -> bool): Option<T> {
    var i := FindFirst(s, p);
    if i.Some? then Some(s[i.value]) else None
  }

  /** `find` looks at the head first, then at the rest. */
  lemma FindCons<T>(s: seq<T>, p: T -> bool)
    requires s != []
    ensures Find(s, p) == if p(s[0]) then Some(s[0]) else Find(s[1..], p)
  {
    if !p(s[0]) {
      var r := FindFirst(s[1..], p);
      if r.Some? {
        assert s[r.value + 1] == s[1..][r.value];
      }
    }
  }

  /** Finding in a filtered list finds the first element satisfying both tests. */
  lemma {:induction false} FindInFilter<T>(s: seq<T>, p: T -> bool, q: T -> bool, pq: T -> bool)
    requires forall x :: pq(x) == (p(x) && q(x))
    ensures Find(Filter(s, p), q) == Find(s, pq)
  {
    if s == [] {
      assert Filter(s, p) == [];
    } else {
      FindInFilter(s[1..], p, q, pq);
      FindCons(s, pq);
      var f := Filter(s, p);
      if p(s[0]) {
        assert f == [s[0]] + Filter(s[1..], p);
        assert f[1..] == Filter(s[1..], p);
        FindCons(f, q);
      } else {
        assert f == Filter(s[1..], p);
      }
    }
  }



  // ---------------------------------------------------------------------------
  // Number(string)
  // ---------------------------------------------------------------------------

  /** A JavaScript number as far as the model needs one: an integer, or NaN. */
  datatype JsNumber = NaN | Num(v: int)

  function Sub(a: JsNumber, b: int): JsNumber {
    if a.NaN? then NaN else Num(a.v - b)
  }

  /** `Number(s)` for the inputs the model covers: white space is trimmed, the empty
      string is 0, an optional sign followed by decimal digits is that integer; every
      other string is NaN. */
  function ToNumber(s: string): (r: JsNumber)
    ensures AllDigits(s) ==> r == Num(DigitsValue(s))
    ensures r.Num? && r.v < 0 ==> '-' in s
  {
    var t := Trim(s);
    TrimDigits(s);
    TrimIsSlice(s);
    if t == [] then Num(0)
    else if AllDigits(t) then Num(DigitsValue(t))
    else if |t| > 1 && (t[0] == '+' || t[0] == '-') && AllDigits(t[1..]) then
      assert t[0] in s;
      var v: int := DigitsValue(t[1..]);
      Num(if t[0] == '-' then -v else v)
    else NaN
  }

  /** A string of digits has nothing to trim. */
  lemma TrimDigits(s: string)
    ensures AllDigits(s) ==> Trim(s) == s
  {
    if AllDigits(s) {
      assert s != [] ==> !IsSpace(s[0]) && !IsSpace(s[|s| - 1]);
      assert TrailingSpaces(s) == 0;
      assert s[..|s|] == s;
      assert LeadingSpaces(s) == 0;
    }
  }
}
