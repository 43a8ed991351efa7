/**
 * The JavaScript string operations the configuration library relies on:
 * ASCII case mapping, `String.prototype.split` with a non-empty separator,
 * `Array.prototype.join`, and decimal numerals.
 */
module Text {

  predicate IsUpperAscii(c: char) { 'A' <= c <= 'Z' }

  predicate IsLowerAscii(c: char) { 'a' <= c <= 'z' }

  predicate IsDigit(c: char) { '0' <= c <= '9' }

  predicate AllDigits(s: string) {
    forall i :: 0 <= i < |s| ==> IsDigit(s[i])
  }

  /** `toLowerCase` restricted to ASCII letters; every other character is unchanged. */
  function LowerChar(c: char): (r: char)
    ensures IsUpperAscii(c) ==> IsLowerAscii(r)
    ensures !IsUpperAscii(r)
  {
    if IsUpperAscii(c) then (c as int + 32) as char else c
  }

  /** `toUpperCase` restricted to ASCII letters; every other character is unchanged. */
  function UpperChar(c: char): (r: char)
    ensures IsLowerAscii(c) ==> IsUpperAscii(r)
    ensures r == '_' <==> c == '_'
    ensures IsLowerAscii(c) ==> LowerChar(r) == c
  {
    if IsLowerAscii(c) then (c as int - 32) as char else c
  }

  function Lower(s: string): (r: string)
    ensures |r| == |s|
    ensures forall i :: 0 <= i < |s| ==> r[i] == LowerChar(s[i])
  {
    seq(|s|, i requires 0 <= i < |s| => LowerChar(s[i]))
  }

  /** `parts.join(sep)`. */
  function Join(parts: seq<string>, sep: string): string
  {
    if |parts| == 0 then ""
    else if |parts| == 1 then parts[0]
    else parts[0] + sep + Join(parts[1..], sep)
  }

  /** `sep` occurs in `t` at position `k`. */
  predicate OccursAt(t: string, sep: string, k: int) {
    0 <= k && k + |sep| <= |t| && t[k..k + |sep|] == sep
  }

  /**
   * `s.split(sep)` for a non-empty separator: the separator is searched for
   * from the left, matches do not overlap, and empty pieces are kept.
   */
  function Split(s: string, sep: string): (r: seq<string>)
    requires |sep| > 0
    ensures |r| >= 1
    decreases |s|
  {
    if |s| < |sep| then [s]
    else if s[..|sep|] == sep then [""] + Split(s[|sep|..], sep)
    else
      var rest := Split(s[1..], sep);
      [[s[0]] + rest[0]] + rest[1..]
  }

  lemma JoinCons(c: char, parts: seq<string>, sep: string)
    requires |parts| >= 1
    ensures Join([[c] + parts[0]] + parts[1..], sep) == [c] + Join(parts, sep)
  {
    var q := [[c] + parts[0]] + parts[1..];
    if |parts| > 1 {
      assert q[1..] == parts[1..];
    }
  }

  /** Joining the pieces with the separator gives back the original string. */
  lemma {:induction false} JoinSplit(s: string, sep: string)
    requires |sep| > 0
    ensures Join(Split(s, sep), sep) == s
    decreases |s|
  {
    if |s| < |sep| {
    } else if s[..|sep|] == sep {
      var rest := Split(s[|sep|..], sep);
      JoinSplit(s[|sep|..], sep);
      assert Split(s, sep) == [""] + rest;
      assert ([""] + rest)[1..] == rest;
      assert s == s[..|sep|] + s[|sep|..];
    } else {
      var rest := Split(s[1..], sep);
      JoinSplit(s[1..], sep);
      JoinCons(s[0], rest, sep);
      assert s == [s[0]] + s[1..];
    }
  }

  /** The first piece is a prefix of the string. */
  lemma SplitHeadPrefix(s: string, sep: string)
    requires |sep| > 0
    ensures |Split(s, sep)[0]| <= |s|
    ensures Split(s, sep)[0] == s[..|Split(s, sep)[0]|]
    ensures |Split(s, sep)| == 1 ==> Split(s, sep)[0] == s
    ensures |Split(s, sep)| > 1 ==>
      |Split(s, sep)[0]| + |sep| <= |s| && s[..|Split(s, sep)[0]| + |sep|] == Split(s, sep)[0] + sep
  {
    var r := Split(s, sep);
    JoinSplit(s, sep);
    if |r| > 1 {
      assert Join(r, sep) == r[0] + sep + Join(r[1..], sep);
      assert s[..|r[0]| + |sep|] == r[0] + sep;
    }
  }

  /** `sep` does not occur anywhere in `t`. */
  predicate SeparatorFree(t: string, sep: string) {
    forall k :: 0 <= k <= |t| ==> !OccursAt(t, sep, k)
  }

  /** In `t + sep`, the first occurrence of `sep` is the one appended. */
  predicate FirstOccurrenceAtEnd(t: string, sep: string) {
    forall k :: 0 <= k < |t| ==> !OccursAt(t + sep, sep, k)
  }

  /** Prepending a character to a piece that is a prefix of `s` keeps the property, unless `s` starts with `sep`. */
  lemma ConsPiece(s: string, sep: string, p: string)
    requires |sep| > 0 && |s| >= |sep| && s[..|sep|] != sep
    requires |p| < |s| && [s[0]] + p == s[..|p| + 1]
    ensures SeparatorFree(p, sep) && |p| + 1 == |s| ==> SeparatorFree([s[0]] + p, sep)
    ensures FirstOccurrenceAtEnd(p, sep) && |p| + 1 + |sep| <= |s| && s[..|p| + 1 + |sep|] == [s[0]] + p + sep ==>
      FirstOccurrenceAtEnd([s[0]] + p, sep)
  {
    var h := [s[0]] + p;
    if SeparatorFree(p, sep) && |p| + 1 == |s| {
      forall k | 0 <= k <= |h| ensures !OccursAt(h, sep, k) {
        if k > 0 && OccursAt(h, sep, k) {
          assert h[k..k + |sep|] == p[k - 1..k - 1 + |sep|];
          assert OccursAt(p, sep, k - 1);
        }
      }
    }
    if FirstOccurrenceAtEnd(p, sep) && |p| + 1 + |sep| <= |s| && s[..|p| + 1 + |sep|] == [s[0]] + p + sep {
      forall k | 0 <= k < |h| ensures !OccursAt(h + sep, sep, k) {
        if k > 0 {
          assert !OccursAt(p + sep, sep, k - 1);
        }
      }
    }
  }

  lemma FirstOccurrenceAtEndIsFree(t: string, sep: string)
    requires |sep| > 0 && FirstOccurrenceAtEnd(t, sep)
    ensures SeparatorFree(t, sep)
  {
    forall k | 0 <= k <= |t| ensures !OccursAt(t, sep, k) {
      if OccursAt(t, sep, k) {
        assert (t + sep)[k..k + |sep|] == t[k..k + |sep|];
        assert OccursAt(t + sep, sep, k);
      }
    }
  }

  /** Piece `i` of the split contains no separator, and if it is not the last, the separator after it is the first one. */
  lemma {:induction false} SplitPieceLeftmost(s: string, sep: string, i: nat)
    requires |sep| > 0 && i < |Split(s, sep)|
    ensures SeparatorFree(Split(s, sep)[i], sep)
    ensures i < |Split(s, sep)| - 1 ==> FirstOccurrenceAtEnd(Split(s, sep)[i], sep)
    decreases |s|
  {
    var r := Split(s, sep);
    if |s| < |sep| {
      assert SeparatorFree(s, sep);
    } else if s[..|sep|] == sep {
      var rest := Split(s[|sep|..], sep);
      assert r == [""] + rest;
      if i == 0 {
        assert SeparatorFree("", sep);
        assert FirstOccurrenceAtEnd("", sep);
      } else {
        assert r[i] == rest[i - 1];
        SplitPieceLeftmost(s[|sep|..], sep, i - 1);
      }
    } else {
      var rest := Split(s[1..], sep);
      assert r == [[s[0]] + rest[0]] + rest[1..];
      if i == 0 {
        SplitPieceLeftmost(s[1..], sep, 0);
        ConsPieceLeftmost(s, sep);
      } else {
        assert r[i] == rest[i];
        SplitPieceLeftmost(s[1..], sep, i);
      }
    }
  }

  /** Prepending `s[0]` to the first piece of `s[1..]` gives a prefix of `s`, followed by the separator if another piece follows. */
  lemma ConsPiecePrefix(s: string, sep: string)
    requires |sep| > 0 && |s| >= 1
    ensures var rest := Split(s[1..], sep); var p := rest[0];
      && |p| < |s| && [s[0]] + p == s[..|p| + 1]
      && (|rest| == 1 ==> |p| + 1 == |s|)
      && (|rest| > 1 ==> |p| + 1 + |sep| <= |s| && s[..|p| + 1 + |sep|] == [s[0]] + p + sep)
  {
    var t := s[1..];
    var p := Split(t, sep)[0];
    SplitHeadPrefix(t, sep);
    assert [s[0]] + t[..|p|] == s[..|p| + 1];
    if |Split(t, sep)| > 1 {
      assert [s[0]] + t[..|p| + |sep|] == s[..|p| + 1 + |sep|];
    }
  }

  /** The first piece, when `s` does not start with the separator, given the property for the first piece of `s[1..]`. */
  lemma ConsPieceLeftmost(s: string, sep: string)
    requires |sep| > 0 && |s| >= |sep| && s[..|sep|] != sep
    requires var rest := Split(s[1..], sep);
      && SeparatorFree(rest[0], sep)
      && (|rest| > 1 ==> FirstOccurrenceAtEnd(rest[0], sep))
    ensures SeparatorFree(Split(s, sep)[0], sep)
    ensures |Split(s, sep)| > 1 ==> FirstOccurrenceAtEnd(Split(s, sep)[0], sep)
  {
    ConsPiecePrefix(s, sep);
    var rest := Split(s[1..], sep);
    assert Split(s, sep) == [[s[0]] + rest[0]] + rest[1..];
    var p := rest[0];
    ConsPiece(s, sep, p);
    if |rest| > 1 {
      FirstOccurrenceAtEndIsFree([s[0]] + p, sep);
    }
  }

  /**
   * Leftmost matching: no piece contains the separator, and the separator
   * that follows a piece is the first occurrence after the piece's start.
   */
  lemma SplitLeftmost(s: string, sep: string)
    requires |sep| > 0
    ensures forall i :: 0 <= i < |Split(s, sep)| ==> SeparatorFree(Split(s, sep)[i], sep)
    ensures forall i :: 0 <= i < |Split(s, sep)| - 1 ==> FirstOccurrenceAtEnd(Split(s, sep)[i], sep)
  {
    forall i | 0 <= i < |Split(s, sep)|
      ensures SeparatorFree(Split(s, sep)[i], sep)
      ensures i < |Split(s, sep)| - 1 ==> FirstOccurrenceAtEnd(Split(s, sep)[i], sep)
    {
      SplitPieceLeftmost(s, sep, i);
    }
  }

  /** A string without the (one-character) separator is a single piece. */
  lemma {:induction false} SplitWithoutSeparator(s: string, sep: string)
    requires |sep| == 1
    requires forall i :: 0 <= i < |s| ==> s[i] != sep[0]
    ensures Split(s, sep) == [s]
    decreases |s|
  {
    if |s| >= 1 {
      assert s[..1] != sep by { assert s[..1][0] == s[0]; }
      SplitWithoutSeparator(s[1..], sep);
      assert [s[0]] + s[1..] == s;
    }
  }

  /** Splitting `x + sep + y` where `x` has no separator character peels off `x`. */
  lemma {:induction false} SplitAtFirst(x: string, sep: string, y: string)
    requires |sep| == 1
    requires forall i :: 0 <= i < |x| ==> x[i] != sep[0]
    ensures Split(x + sep + y, sep) == [x] + Split(y, sep)
    decreases |x|
  {
    var s := x + sep + y;
    if |x| == 0 {
      assert s[..1] == sep;
      assert s[1..] == y;
    } else {
      assert s[..1] != sep by { assert s[..1][0] == x[0]; }
      SplitAtFirst(x[1..], sep, y);
      assert s[1..] == x[1..] + sep + y;
      assert [x[0]] + x[1..] == x;
    }
  }

  function DigitChar(d: nat): (c: char)
    requires d < 10
    ensures IsDigit(c)
  {
    ('0' as int + d) as char
  }

  function DigitValue(c: char): (d: nat)
    requires IsDigit(c)
    ensures d < 10 && DigitChar(d) == c
  {
    c as int - '0' as int
  }

  /** The decimal numeral of `n`, without leading zeros. */
  function NatToDecimal(n: nat): (r: string)
    ensures |r| >= 1 && AllDigits(r)
    ensures |r| > 1 ==> r[0] != '0'
  {
    if n < 10 then [DigitChar(n)] else NatToDecimal(n / 10) + [DigitChar(n % 10)]
  }

  /** The value of a string of decimal digits (leading zeros allowed). */
  function DecimalValue(ds: string): nat
    requires AllDigits(ds)
  {
    if |ds| == 0 then 0 else DecimalValue(ds[..|ds| - 1]) * 10 + DigitValue(ds[|ds| - 1])
  }

  /** Reading back the numeral of `n` gives `n`. */
  lemma {:induction false} DecimalRoundTrip(n: nat)
    ensures DecimalValue(NatToDecimal(n)) == n
  {
    var r := NatToDecimal(n);
    if n >= 10 {
      DecimalRoundTrip(n / 10);
      assert r[..|r| - 1] == NatToDecimal(n / 10);
    }
  }

  /** A numeral without a leading zero denotes at least one. */
  lemma {:induction false} DecimalPositive(ds: string)
    requires |ds| >= 1 && AllDigits(ds) && ds[0] != '0'
    ensures DecimalValue(ds) >= 1
    decreases |ds|
  {
    if |ds| > 1 {
      DecimalPositive(ds[..|ds| - 1]);
    }
  }

  /** A numeral without a leading zero is the numeral of its own value. */
  lemma {:induction false} CanonicalNumeral(ds: string)
    requires |ds| >= 1 && AllDigits(ds) && (|ds| > 1 ==> ds[0] != '0')
    ensures NatToDecimal(DecimalValue(ds)) == ds
    decreases |ds|
  {
    if |ds| > 1 {
      var p := ds[..|ds| - 1];
      CanonicalNumeral(p);
      DecimalPositive(p);
      var n := DecimalValue(ds);
      assert n == DecimalValue(p) * 10 + DigitValue(ds[|ds| - 1]);
      assert n / 10 == DecimalValue(p) && n % 10 == DigitValue(ds[|ds| - 1]);
      assert ds == p + [ds[|ds| - 1]];
    }
  }

  lemma NatToDecimalInjective()
    ensures forall m: nat, n: nat :: NatToDecimal(m) == NatToDecimal(n) ==> m == n
  {
    forall m: nat, n: nat | NatToDecimal(m) == NatToDecimal(n) ensures m == n {
      DecimalRoundTrip(m);
      DecimalRoundTrip(n);
    }
  }
}
