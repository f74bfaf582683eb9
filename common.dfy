/** Shared vocabulary of the model: optional values and results, Python's
    notion of whitespace, the string helpers the backend leans on
    (`str.strip`, `str.split`, `str.join`, `str(n)`), Python's string
    ordering, and a sort on two integer keys that stands for SQL ORDER BY. */
module Common {

  datatype Option<T> = None | Some(value: T)

  datatype Result<T, E> = Ok(value: T) | Err(error: E)

  /** A calendar date as a day number; consecutive dates differ by one. */
  type Day = int

  /** A time of day; only its total order matters to the backend. */
  type Time = int

  // ---------------------------------------------------------------------
  // Whitespace, strip, split, join
  // ---------------------------------------------------------------------

  /** The characters Python's `str.isspace` accepts. */
  predicate IsSpace(c: char)
  {
    c == ' ' || ('\t' <= c <= '\r') || ('\U{1C}' <= c <= '\U{1F}') ||
    c == '\U{85}' || c == '\U{A0}' || c == '\U{1680}' ||
    ('\U{2000}' <= c <= '\U{200A}') || c == '\U{2028}' || c == '\U{2029}' ||
    c == '\U{202F}' || c == '\U{205F}' || c == '\U{3000}'
  }

  predicate IsBlank(s: string)
  {
    forall i :: 0 <= i < |s| ==> IsSpace(s[i])
  }

  function TrimLeft(s: string): (r: string)
    ensures |r| <= |s|
    ensures r == [] || !IsSpace(r[0])
  {
    if s == [] || !IsSpace(s[0]) then s else TrimLeft(s[1..])
  }

  /** `TrimLeft` drops a blank prefix and keeps the rest. */
  lemma {:induction false} TrimLeftShape(s: string)
    ensures var r := TrimLeft(s);
      r == s[|s| - |r|..] && IsBlank(s[..|s| - |r|])
  {
    if s != [] && IsSpace(s[0]) {
      TrimLeftShape(s[1..]);
      var r := TrimLeft(s);
      assert s[1..][..|s| - 1 - |r|] == s[1..|s| - |r|];
      forall i | 0 <= i < |s| - |r| ensures IsSpace(s[i]) {
        if i > 0 {
          assert s[i] == s[1..][..|s| - 1 - |r|][i - 1];
        }
      }
    }
  }

  function TrimRight(s: string): (r: string)
    ensures |r| <= |s|
    ensures r == [] || !IsSpace(r[|r| - 1])
  {
    if s == [] || !IsSpace(s[|s| - 1]) then s else TrimRight(s[..|s| - 1])
  }

  /** `TrimRight` drops a blank suffix and keeps the rest. */
  lemma {:induction false} TrimRightShape(s: string)
    ensures var r := TrimRight(s);
      r == s[..|r|] && IsBlank(s[|r|..])
  {
    if s != [] && IsSpace(s[|s| - 1]) {
      TrimRightShape(s[..|s| - 1]);
      var r := TrimRight(s);
      forall i | |r| <= i < |s| ensures IsSpace(s[i]) {
        if i < |s| - 1 {
          assert s[i] == s[..|s| - 1][|r|..][i - |r|];
        }
      }
      assert s[|r|..][..] == s[|r|..];
    }
  }

  /** Python's `str.strip()` with no argument. */
  function Strip(s: string): string
  {
    TrimRight(TrimLeft(s))
  }

  /** A string with no white space at either end is already stripped. */
  lemma StripTight(s: string)
    requires s != [] && !IsSpace(s[0]) && !IsSpace(s[|s| - 1])
    ensures Strip(s) == s
  {
    assert TrimLeft(s) == s;
  }

  lemma StripEmptyIffBlank(s: string)
    ensures Strip(s) == [] <==> IsBlank(s)
  {
    var l := TrimLeft(s);
    TrimLeftShape(s);
    TrimRightShape(l);
    if !IsBlank(s) {
      var i :| 0 <= i < |s| && !IsSpace(s[i]);
      assert i >= |s| - |l|;
      assert l[i - (|s| - |l|)] == s[i];
      assert !IsBlank(l[0..]);
    }
  }

  /** The longest prefix of `s` free of whitespace. */
  function WordPrefix(s: string): (w: string)
    ensures |w| <= |s|
    ensures s != [] && !IsSpace(s[0]) ==> |w| >= 1
  {
    if s == [] || IsSpace(s[0]) then [] else [s[0]] + WordPrefix(s[1..])
  }

  /** Python's `str.split()` with no argument: the maximal runs of
      non-whitespace characters, in order. */
  function Split(s: string): (words: seq<string>)
    decreases |s|
  {
    var t := TrimLeft(s);
    if t == [] then []
    else
      var w := WordPrefix(t);
      [w] + Split(t[|w|..])
  }

  lemma {:induction false} SplitEmptyIffBlank(s: string)
    ensures Split(s) == [] <==> IsBlank(s)
  {
    var t := TrimLeft(s);
    TrimLeftShape(s);
    if t == [] {
      assert s[..|s|] == s;
    } else {
      assert t[0] == s[|s| - |t|];
    }
  }

  /** Python's `sep.join(parts)`. */
  function Join(sep: string, parts: seq<string>): string
  {
    if parts == [] then ""
    else if |parts| == 1 then parts[0]
    else parts[0] + sep + Join(sep, parts[1..])
  }

  // ---------------------------------------------------------------------
  // Numbers as text
  // ---------------------------------------------------------------------

  function DigitChar(d: nat): char
    requires d < 10
  {
    "0123456789"[d]
  }

  /** Ten to the power `w`. */
  function Pow10(w: nat): (p: nat)
    ensures p >= 1
  {
    if w == 0 then 1 else 10 * Pow10(w - 1)
  }

  /** Python's `str(n)` for a non-negative integer. */
  function NatToString(n: nat): (s: string)
    ensures |s| >= 1
    ensures forall i :: 0 <= i < |s| ==> '0' <= s[i] <= '9'
  {
    if n < 10 then [DigitChar(n)] else NatToString(n / 10) + [DigitChar(n % 10)]
  }

  /** Python's `str(i)` for any integer. */
  function IntToString(i: int): string
  {
    if i < 0 then "-" + NatToString(-i) else NatToString(i)
  }

  predicate IsDigit(c: char)
  {
    '0' <= c <= '9'
  }

  function DigitsValue(s: string): (n: nat)
    requires forall i :: 0 <= i < |s| ==> IsDigit(s[i])
  {
    if s == [] then 0
    else
      assert IsDigit(s[|s| - 1]);
      DigitsValue(s[..|s| - 1]) * 10 + (s[|s| - 1] as int - '0' as int)
  }

  lemma {:induction false} DigitsOfNat(n: nat)
    ensures forall i :: 0 <= i < |NatToString(n)| ==> IsDigit(NatToString(n)[i])
    ensures DigitsValue(NatToString(n)) == n
  {
    var s := NatToString(n);
    if n < 10 {
      DigitCharValue(n);
    } else {
      DigitsOfNat(n / 10);
      assert s[..|s| - 1] == NatToString(n / 10);
      DigitCharValue(n % 10);
      assert n == (n / 10) * 10 + n % 10;
    }
  }

  lemma DigitCharValue(d: nat)
    requires d < 10
    ensures DigitChar(d) as int - '0' as int == d
  {
  }

  /** `f"{n:0{width}d}"`: zero-padded to at least `width` digits. */
  function ZeroPad(n: nat, width: nat): (s: string)
    ensures |s| == if |NatToString(n)| < width then width else |NatToString(n)|
  {
    var digits := NatToString(n);
    if |digits| < width then seq(width - |digits|, _ => '0') + digits else digits
  }

  // ---------------------------------------------------------------------
  // Python's string order
  // ---------------------------------------------------------------------

  /** Python's `a < b` on strings: code-point lexicographic order. */
  predicate StrLess(a: string, b: string)
  {
    if a == [] then b != []
    else if b == [] then false
    else if a[0] != b[0] then a[0] < b[0]
    else StrLess(a[1..], b[1..])
  }

  lemma {:induction false} StrLessIrreflexive(a: string)
    ensures !StrLess(a, a)
  {
    if a != [] {
      StrLessIrreflexive(a[1..]);
    }
  }

  lemma {:induction false} StrLessTrichotomy(a: string, b: string)
    ensures a == b || StrLess(a, b) || StrLess(b, a)
  {
    if a != [] && b != [] && a[0] == b[0] {
      StrLessTrichotomy(a[1..], b[1..]);
      if a[1..] == b[1..] {
        assert a == [a[0]] + a[1..] && b == [b[0]] + b[1..];
      }
    }
  }

  lemma {:induction false} StrLessAsymmetric(a: string, b: string)
    ensures StrLess(a, b) ==> !StrLess(b, a)
  {
    if a != [] && b != [] && a[0] == b[0] {
      StrLessAsymmetric(a[1..], b[1..]);
    }
  }

  lemma {:induction false} StrLessTransitive(a: string, b: string, c: string)
    requires StrLess(a, b) && StrLess(b, c)
    ensures StrLess(a, c)
  {
    if a != [] && b != [] && c != [] && a[0] == b[0] && b[0] == c[0] {
      StrLessTransitive(a[1..], b[1..], c[1..]);
    }
  }

  // ---------------------------------------------------------------------
  // ORDER BY on two integer keys
  // ---------------------------------------------------------------------

  predicate LeBy<T>(a: T, b: T, k1: T -> int, k2: T -> int)
  {
    k1(a) < k1(b) || (k1(a) == k1(b) && k2(a) <= k2(b))
  }

  predicate SortedBy<T>(s: seq<T>, k1: T -> int, k2: T -> int)
  {
    forall i, j :: 0 <= i < j < |s| ==> LeBy(s[i], s[j], k1, k2)
  }

  function InsertBy<T(==)>(x: T, s: seq<T>, k1: T -> int, k2: T -> int): (r: seq<T>)
    requires SortedBy(s, k1, k2)
    ensures SortedBy(r, k1, k2)
    ensures multiset(r) == multiset(s) + multiset{x}
    ensures |r| == |s| + 1
  {
    if s == [] then [x]
    else if LeBy(x, s[0], k1, k2) then [x] + s
    else
      var rest := InsertBy(x, s[1..], k1, k2);
      assert s == [s[0]] + s[1..];
      forall j | 0 <= j < |rest| ensures LeBy(s[0], rest[j], k1, k2) {
        assert rest[j] in multiset(rest);
        assert rest[j] == x || rest[j] in multiset(s[1..]);
        if rest[j] != x {
          var m :| 0 <= m < |s[1..]| && s[1..][m] == rest[j];
          assert s[1 + m] == rest[j];
        }
      }
      [s[0]] + rest
  }

  /** A stable insertion sort: an ORDER BY k1, k2 whose ties the database
      may break in any way. */
  function SortBy<T(==)>(s: seq<T>, k1: T -> int, k2: T -> int): (r: seq<T>)
    ensures SortedBy(r, k1, k2)
    ensures multiset(r) == multiset(s)
    ensures |r| == |s|
  {
    if s == [] then []
    else
      assert s == [s[0]] + s[1..];
      InsertBy(s[0], SortBy(s[1..], k1, k2), k1, k2)
  }

  // ---------------------------------------------------------------------
  // Dictionaries
  // ---------------------------------------------------------------------

  /** A Python dict: its items in insertion order. */
  type Dict<K, V> = seq<(K, V)>

  function Keys<K, V>(d: Dict<K, V>): (ks: seq<K>)
    ensures |ks| == |d| && forall i :: 0 <= i < |d| ==> ks[i] == d[i].0
  {
    seq(|d|, i requires 0 <= i < |d| => d[i].0)
  }

  predicate DistinctKeys<K(==), V>(d: Dict<K, V>)
  {
    forall i, j :: 0 <= i < j < |d| ==> d[i].0 != d[j].0
  }

  function Get<K(==), V>(d: Dict<K, V>, k: K): (r: Option<V>)
    ensures r.None? <==> k !in Keys(d)
  {
    if d == [] then None
    else if d[0].0 == k then Some(d[0].1)
    else
      assert Keys(d) == [d[0].0] + Keys(d[1..]);
      Get(d[1..], k)
  }

  /** In a dict, the value stored with a key is the one looked up. */
  lemma {:induction false} GetAt<K, V>(d: Dict<K, V>, i: int)
    requires DistinctKeys(d) && 0 <= i < |d|
    ensures Get(d, d[i].0) == Some(d[i].1)
  {
    if i > 0 {
      GetAt(d[1..], i - 1);
    }
  }

  /** `d[k] = v`: an existing key keeps its place and takes the new value,
      a new key goes at the end. */
  function Put<K(==), V>(d: Dict<K, V>, k: K, v: V): (r: Dict<K, V>)
    ensures k in Keys(d) ==> |r| == |d| && forall i :: 0 <= i < |d| ==> r[i] == if d[i].0 == k then (k, v) else d[i]
    ensures k !in Keys(d) ==> r == d + [(k, v)]
    ensures Keys(d) <= Keys(r) && k in Keys(r)
    ensures DistinctKeys(d) ==> DistinctKeys(r)
  {
    if k in Keys(d) then
      var r := seq(|d|, i requires 0 <= i < |d| => if d[i].0 == k then (k, v) else d[i]);
      assert Keys(r) == Keys(d);
      r
    else
      var r := d + [(k, v)];
      assert Keys(r) == Keys(d) + [k];
      r
  }

  /** After `d[k] = v`, looking up `k` gives `v` and every other key gives
      what it gave before. */
  lemma PutGet<K, V>(d: Dict<K, V>, k: K, v: V, k': K)
    requires DistinctKeys(d)
    ensures Get(Put(d, k, v), k') == if k' == k then Some(v) else Get(d, k')
  {
    var r := Put(d, k, v);
    if k' in Keys(d) {
      var i :| 0 <= i < |d| && d[i].0 == k';
      GetAt(d, i);
      if k in Keys(d) {
        assert r[i] == if k' == k then (k, v) else d[i];
      } else {
        assert r[i] == d[i];
      }
      GetAt(r, i);
    } else if k' == k {
      assert r[|d|] == (k, v);
      GetAt(r, |d|);
    } else {
      PutOtherFresh(d, k, v, k');
    }
  }

  /** A key that was missing and is not the one stored stays missing. */
  lemma PutOtherFresh<K, V>(d: Dict<K, V>, k: K, v: V, other: K)
    requires other !in Keys(d) && other != k
    ensures other !in Keys(Put(d, k, v))
  {
    var r := Put(d, k, v);
    forall j | 0 <= j < |r| ensures Keys(r)[j] != other {
      if j < |d| {
        assert Keys(d)[j] == d[j].0;
        if k in Keys(d) {
          assert r[j] == if d[j].0 == k then (k, v) else d[j];
        } else {
          assert r[j] == d[j];
        }
      } else {
        assert r[j] == (k, v);
      }
    }
  }
}
