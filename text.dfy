/**
 * String helpers with JavaScript's meaning: ASCII lower-casing (`toLowerCase`),
 * substring search (`includes`), decimal rendering of integers (template
 * interpolation `${n}`), and the index clamping of `Array.prototype.slice` and
 * `String.prototype.substr`.
 */
module Text {
  import opened Wrappers

  // ---------------------------------------------------------------------------
  // Lower-casing (ASCII case mapping; other characters are left unchanged)
  // ---------------------------------------------------------------------------

  predicate IsUpper(c: char) { 'A' <= c <= 'Z' }

  function LowerChar(c: char): (r: char)
    ensures !IsUpper(r)
    ensures IsUpper(c) ==> r as int == c as int + 32
    ensures !IsUpper(c) ==> r == c
  {
    if IsUpper(c) then (c as int + 32) as char else c
  }

  function Lower(s: string): (r: string)
    ensures |r| == |s|
    ensures forall i :: 0 <= i < |s| ==> r[i] == LowerChar(s[i])
  {
    if s == [] then [] else [LowerChar(s[0])] + Lower(s[1..])
  }

  lemma {:induction false} LowerIdempotent(s: string)
    ensures Lower(Lower(s)) == Lower(s)
  {
    if s != [] {
      LowerIdempotent(s[1..]);
    }
  }

  // ---------------------------------------------------------------------------
  // Substring search: `hay.includes(needle)`
  // ---------------------------------------------------------------------------

  /** `needle` occurs in `hay` starting at index `i`. */
  ghost predicate OccursAt(hay: string, needle: string, i: int) {
    0 <= i && i + |needle| <= |hay| && hay[i..i + |needle|] == needle
  }

  /** `needle` occurs somewhere in `hay`. */
  ghost predicate Occurs(hay: string, needle: string) {
    exists i :: OccursAt(hay, needle, i)
  }

  function Contains(hay: string, needle: string): bool
  {
    if needle <= hay then true
    else if hay == [] then false
    else Contains(hay[1..], needle)
  }

  /** `Contains` finds exactly the occurrences at some index. */
  lemma {:induction false} ContainsIff(hay: string, needle: string)
    ensures Contains(hay, needle) <==> Occurs(hay, needle)
  {
    if needle <= hay {
      assert OccursAt(hay, needle, 0);
    } else if hay == [] {
    } else {
      ContainsIff(hay[1..], needle);
      if exists i :: OccursAt(hay, needle, i) {
        var i :| OccursAt(hay, needle, i);
        if i > 0 {
          assert hay[1..][i - 1..i - 1 + |needle|] == hay[i..i + |needle|];
          assert OccursAt(hay[1..], needle, i - 1);
        }
      }
      if exists j :: OccursAt(hay[1..], needle, j) {
        var j :| OccursAt(hay[1..], needle, j);
        assert hay[1..][j..j + |needle|] == hay[j + 1..j + 1 + |needle|];
        assert OccursAt(hay, needle, j + 1);
      }
    }
  }

  /** The empty string occurs in every string. */
  lemma ContainsEmpty(hay: string)
    ensures Contains(hay, "")
  {
  }

  // ---------------------------------------------------------------------------
  // Decimal rendering of a non-negative integer, as `${n}` prints it
  // ---------------------------------------------------------------------------

  predicate IsDigit(c: char) { '0' <= c <= '9' }

  function DigitChar(d: nat): (c: char)
    requires d < 10
    ensures IsDigit(c) && c as int - '0' as int == d
  {
    ('0' as int + d) as char
  }

  function Decimal(n: nat): (s: string)
    ensures |s| > 0
    ensures forall i :: 0 <= i < |s| ==> IsDigit(s[i])
  {
    if n < 10 then [DigitChar(n)] else Decimal(n / 10) + [DigitChar(n % 10)]
  }

  /** Reads a non-empty string of decimal digits back as a number. */
  function ParseDecimal(s: string): Option<nat>
  {
    if s == [] then None
    else if !IsDigit(s[|s| - 1]) then None
    else if |s| == 1 then Some(s[0] as int - '0' as int)
    else match ParseDecimal(s[..|s| - 1])
      case None => None
      case Some(m) => Some(m * 10 + (s[|s| - 1] as int - '0' as int))
  }

  /** Rendering then reading gives the number back, so `Decimal` is injective. */
  lemma {:induction false} DecimalRoundTrip(n: nat)
    ensures ParseDecimal(Decimal(n)) == Some(n)
  {
    if n >= 10 {
      DecimalRoundTrip(n / 10);
      var s := Decimal(n);
      assert s[..|s| - 1] == Decimal(n / 10);
    }
  }

  lemma DecimalInjective(m: nat, n: nat)
    ensures Decimal(m) == Decimal(n) ==> m == n
  {
    DecimalRoundTrip(m);
    DecimalRoundTrip(n);
  }

  // ---------------------------------------------------------------------------
  // Index clamping of `slice(start, end)` and `substr(start, length)`
  // ---------------------------------------------------------------------------

  /** A relative index as `slice` resolves it: negative counts from the end. */
  function RelativeIndex(k: int, len: nat): (r: nat)
    ensures r <= len
    ensures 0 <= k <= len ==> r == k
  {
    if k < 0 then (if len + k < 0 then 0 else len + k)
    else if k > len then len else k
  }

  function Slice<T>(s: seq<T>, start: int, end: int): (r: seq<T>)
  {
    var from := RelativeIndex(start, |s|);
    var to := RelativeIndex(end, |s|);
    if from >= to then [] else s[from..to]
  }

  /** For non-negative bounds `slice` is the contiguous run clamped to the sequence. */
  lemma SliceClamped<T>(s: seq<T>, start: nat, end: nat)
    requires start <= end
    ensures Slice(s, start, end) == s[Min(start, |s|)..Min(end, |s|)]
    ensures |Slice(s, start, end)| <= end - start
  {
  }

  function Min(a: int, b: int): (r: int)
    ensures r <= a && r <= b && (r == a || r == b)
  {
    if a <= b then a else b
  }

  function Max(a: int, b: int): (r: int)
    ensures r >= a && r >= b && (r == a || r == b)
  {
    if a >= b then a else b
  }

  /** `s.substr(start, length)`. */
  function Substr(s: string, start: int, length: int): (r: string)
    ensures |r| <= Max(length, 0)
  {
    var from := RelativeIndex(start, |s|);
    var to := if length <= 0 then from else Min(from + length, |s|);
    if from >= to then [] else s[from..to]
  }

  /** `substr(start, length)` with non-negative arguments keeps at most `length` characters from `start`. */
  lemma SubstrPrefix(s: string, start: nat, length: nat)
    requires start <= |s|
    ensures Substr(s, start, length) == s[start..Min(start + length, |s|)]
  {
  }
}
