/**
 * The PHP built-ins that the statement builders rely on: `implode`,
 * `str_replace`, the conversion of an integer to its decimal text, and
 * assignment into an array with string keys (which keeps insertion order).
 */
module Php {
  import opened Wrappers

  // ---------------------------------------------------------------------------
  // implode
  // ---------------------------------------------------------------------------

  /** `implode(sep, parts)`: the parts in order, with `sep` between neighbours. */
  function Implode(sep: string, parts: seq<string>): string
  {
    if |parts| == 0 then ""
    else if |parts| == 1 then parts[0]
    else Implode(sep, parts[..|parts| - 1]) + sep + parts[|parts| - 1]
  }

  /** Implode read from the front: the first part, then `sep` and the rest. */
  lemma {:induction false} ImplodeCons(sep: string, p: string, ps: seq<string>)
    ensures Implode(sep, [p] + ps) == if ps == [] then p else p + sep + Implode(sep, ps)
  {
    var all := [p] + ps;
    if |ps| == 0 {
      assert all == [p];
    } else if |ps| == 1 {
      assert all[..1] == [p];
    } else {
      var init := ps[..|ps| - 1];
      assert all[..|all| - 1] == [p] + init;
      ImplodeCons(sep, p, init);
    }
  }

  /** Appending a part adds `sep` and the part at the end (the shape of a building loop). */
  lemma ImplodeSnoc(sep: string, ps: seq<string>, p: string)
    ensures Implode(sep, ps + [p]) == if ps == [] then p else Implode(sep, ps) + (sep + p)
  {
    assert (ps + [p])[..|ps|] == ps;
    var a := Implode(sep, ps);
    assert a + sep + p == a + (sep + p);
  }

  /** A non-empty implode starts with its first part. */
  lemma ImplodeStartsWithFirst(sep: string, ps: seq<string>)
    requires |ps| > 0
    ensures ps[0] <= Implode(sep, ps)
  {
    assert ps == [ps[0]] + ps[1..];
    ImplodeCons(sep, ps[0], ps[1..]);
  }

  // ---------------------------------------------------------------------------
  // str_replace
  // ---------------------------------------------------------------------------

  /**
   * `str_replace(search, replace, subject)` for one search string: a single
   * left-to-right scan that replaces each occurrence it meets and resumes
   * after it, so occurrences never overlap and replaced text is not rescanned.
   * An empty search string leaves the subject unchanged.
   */
  function StrReplace(subject: string, search: string, replace: string): string
    decreases |subject|
  {
    if |search| == 0 || |subject| < |search| then subject
    else if search <= subject then replace + StrReplace(subject[|search|..], search, replace)
    else [subject[0]] + StrReplace(subject[1..], search, replace)
  }

  // ---------------------------------------------------------------------------
  // Integers as decimal text
  // ---------------------------------------------------------------------------

  predicate IsDigit(c: char) {
    '0' <= c <= '9'
  }

  function DigitChar(d: nat): (c: char)
    requires d < 10
    ensures IsDigit(c)
  {
    ('0' as int + d) as char
  }

  /** The decimal digits of `n`, most significant first, without leading zeros. */
  function NatToString(n: nat): string
  {
    if n < 10 then [DigitChar(n)] else NatToString(n / 10) + [DigitChar(n % 10)]
  }

  /** PHP's string conversion of an integer: a minus sign for negatives, then the digits. */
  function IntToString(n: int): string
  {
    if n < 0 then "-" + NatToString(-n) else NatToString(n)
  }

  /** The decimal text of a natural number is a non-empty run of digits without a leading zero. */
  lemma {:induction false} NatToStringDigits(n: nat)
    ensures var s := NatToString(n); |s| > 0 && AllDigits(s) && (|s| > 1 ==> s[0] != '0')
  {
    if n >= 10 {
      NatToStringDigits(n / 10);
    }
  }

  /** The decimal text of an integer: a minus sign exactly for negatives, then digits only. */
  lemma IntToStringDigits(n: int)
    ensures var s := IntToString(n);
      |s| > 0 && IsDigit(s[|s| - 1]) && (s[0] == '-' <==> n < 0) &&
      (forall i :: 0 < i < |s| ==> IsDigit(s[i]))
  {
    NatToStringDigits(if n < 0 then -n else n);
  }

  predicate AllDigits(s: string) {
    forall i :: 0 <= i < |s| ==> IsDigit(s[i])
  }

  /** The value of a string of decimal digits. */
  function ParseNat(s: string): nat
    requires AllDigits(s)
  {
    if s == [] then 0 else 10 * ParseNat(s[..|s| - 1]) + (s[|s| - 1] as int - '0' as int)
  }

  /** The value of an optional minus sign followed by decimal digits. */
  function ParseInt(s: string): int
    requires |s| > 0
    requires forall i :: 0 < i < |s| ==> IsDigit(s[i])
    requires s[0] == '-' || IsDigit(s[0])
  {
    if s[0] == '-' then 0 - ParseNat(s[1..]) else ParseNat(s)
  }

  lemma {:induction false} ParseNatToString(n: nat)
    ensures AllDigits(NatToString(n)) && ParseNat(NatToString(n)) == n
  {
    NatToStringDigits(n);
    var s := NatToString(n);
    if n >= 10 {
      NatToStringDigits(n / 10);
      assert s[..|s| - 1] == NatToString(n / 10);
      ParseNatToString(n / 10);
    }
  }

  /** The decimal text of an integer reads back as that integer. */
  lemma ParseIntToString(n: int)
    ensures var s := IntToString(n);
      |s| > 0 && (s[0] == '-' || IsDigit(s[0])) && (forall i :: 0 < i < |s| ==> IsDigit(s[i])) &&
      ParseInt(s) == n
  {
    IntToStringDigits(n);
    var s := IntToString(n);
    if n < 0 {
      assert s[1..] == NatToString(-n);
      ParseNatToString(-n);
    } else {
      ParseNatToString(n);
    }
  }

  // ---------------------------------------------------------------------------
  // Arrays with string keys
  // ---------------------------------------------------------------------------

  /** A PHP array with string keys: its entries in insertion order. */
  type OrderedArray<V> = seq<(string, V)>

  function Keys<V>(m: OrderedArray<V>): (ks: seq<string>)
    ensures |ks| == |m| && forall i :: 0 <= i < |m| ==> ks[i] == m[i].0
  {
    seq(|m|, i requires 0 <= i < |m| => m[i].0)
  }

  /** No key occurs twice; every PHP array has this property. */
  predicate UniqueKeys<V>(m: OrderedArray<V>) {
    forall i, j :: 0 <= i < j < |m| ==> m[i].0 != m[j].0
  }

  /** The position of the entry with key `k`, if there is one. */
  function IndexOf<V>(m: OrderedArray<V>, k: string): (r: Option<nat>)
    ensures r.Some? ==> r.value < |m| && m[r.value].0 == k
    ensures r.Some? ==> forall j :: 0 <= j < r.value ==> m[j].0 != k
    ensures r.None? <==> k !in Keys(m)
  {
    if |m| == 0 then None
    else if m[0].0 == k then Some(0)
    else
      match IndexOf(m[1..], k)
      case None => None
      case Some(i) => Some(i + 1)
  }

  /** `$m[$k]`, or None when the key is not set. */
  function Lookup<V>(m: OrderedArray<V>, k: string): Option<V> {
    match IndexOf(m, k)
    case None => None
    case Some(i) => Some(m[i].1)
  }

  /**
   * `$m[$k] = $v`: an existing key keeps its position and takes the new
   * value; a new key is appended.
   */
  function Put<V>(m: OrderedArray<V>, k: string, v: V): OrderedArray<V> {
    match IndexOf(m, k)
    case None => m + [(k, v)]
    case Some(i) => m[i := (k, v)]
  }

  /** The entry at `i` is the first with key `k`, so IndexOf finds it. */
  lemma IndexOfFirst<V>(m: OrderedArray<V>, k: string, i: nat)
    requires i < |m| && m[i].0 == k
    requires forall j :: 0 <= j < i ==> m[j].0 != k
    ensures IndexOf(m, k) == Some(i)
  {
    assert Keys(m)[i] == k;
  }

  /** No entry has key `k`, so IndexOf finds nothing. */
  lemma IndexOfAbsent<V>(m: OrderedArray<V>, k: string)
    requires forall j :: 0 <= j < |m| ==> m[j].0 != k
    ensures IndexOf(m, k) == None
  {
  }

  /** After `$m[$k] = $v`, `$m[$k]` is `v` and every other key reads as before. */
  lemma PutLookup<V>(m: OrderedArray<V>, k: string, v: V, k': string)
    ensures Lookup(Put(m, k, v), k') == if k' == k then Some(v) else Lookup(m, k')
  {
    var r := Put(m, k, v);
    match IndexOf(m, k)
    case None =>
      assert r == m + [(k, v)];
      if k' == k {
        IndexOfFirst(r, k, |m|);
      } else {
        match IndexOf(m, k')
        case None =>
          IndexOfAbsent(r, k');
        case Some(j) =>
          IndexOfFirst(r, k', j);
      }
    case Some(i) =>
      assert r == m[i := (k, v)];
      if k' == k {
        IndexOfFirst(r, k, i);
      } else {
        match IndexOf(m, k')
        case None =>
          IndexOfAbsent(r, k');
        case Some(j) =>
          IndexOfFirst(r, k', j);
      }
  }

  /**
   * Assignment never reorders: the keys stay as they were, with `k` added at
   * the end only when it was not there yet.
   */
  lemma PutKeys<V>(m: OrderedArray<V>, k: string, v: V)
    ensures Keys(Put(m, k, v)) == if k in Keys(m) then Keys(m) else Keys(m) + [k]
  {
  }

  /** Assignment keeps keys unique. */
  lemma PutUniqueKeys<V>(m: OrderedArray<V>, k: string, v: V)
    requires UniqueKeys(m)
    ensures UniqueKeys(Put(m, k, v))
  {
    var r := Put(m, k, v);
    PutKeys(m, k, v);
    assert forall i :: 0 <= i < |r| ==> Keys(r)[i] == r[i].0;
  }

  /** Assigning the same key twice leaves what assigning the second value alone leaves. */
  lemma PutPut<V>(m: OrderedArray<V>, k: string, v1: V, v2: V)
    ensures Put(Put(m, k, v1), k, v2) == Put(m, k, v2)
  {
    var r := Put(m, k, v1);
    match IndexOf(m, k)
    case None =>
      IndexOfFirst(r, k, |m|);
    case Some(i) =>
      IndexOfFirst(r, k, i);
  }
}
