/**
 * The key-path decoder of `DefaultEnvParser`: it turns one environment
 * variable name into the list of path parts (`transformKey`) and classifies
 * each part as a plain key or an array element (`parsePathPart`).
 */
module EnvKey {
  import opened Text

  /** The characters JavaScript's `.` does not match in a regular expression. */
  predicate IsLineTerminator(c: char) {
    c == '\n' || c == '\r' || c == '\U{2028}' || c == '\U{2029}'
  }

  /** `part.replace(/_(.)/g, (match, group1) => group1.toUpperCase())`. */
  function CamelCase(s: string): string
    decreases |s|
  {
    if |s| == 0 then ""
    else if s[0] == '_' && |s| >= 2 && !IsLineTerminator(s[1]) then [UpperChar(s[1])] + CamelCase(s[2..])
    else [s[0]] + CamelCase(s[1..])
  }

  predicate NoDoubleUnderscore(s: string) {
    forall i :: 0 <= i < |s| - 1 ==> !(s[i] == '_' && s[i + 1] == '_')
  }

  /** An underscore survives only as the last character or in front of a line terminator. */
  predicate NoInnerUnderscore(t: string) {
    forall i :: 0 <= i < |t| - 1 && t[i] == '_' ==> IsLineTerminator(t[i + 1])
  }

  lemma {:induction false} CamelCaseRemovesUnderscores(s: string)
    requires NoDoubleUnderscore(s)
    ensures NoInnerUnderscore(CamelCase(s))
    decreases |s|
  {
    if |s| == 0 {
    } else if s[0] == '_' && |s| >= 2 && !IsLineTerminator(s[1]) {
      assert NoDoubleUnderscore(s[2..]) by {
        forall i | 0 <= i < |s[2..]| - 1 ensures !(s[2..][i] == '_' && s[2..][i + 1] == '_') {
          assert s[2..][i] == s[i + 2] && s[2..][i + 1] == s[i + 3];
        }
      }
      CamelCaseRemovesUnderscores(s[2..]);
      assert s[1] != '_';
    } else {
      assert NoDoubleUnderscore(s[1..]) by {
        forall i | 0 <= i < |s[1..]| - 1 ensures !(s[1..][i] == '_' && s[1..][i + 1] == '_') {
          assert s[1..][i] == s[i + 1] && s[1..][i + 1] == s[i + 2];
        }
      }
      CamelCaseRemovesUnderscores(s[1..]);
      if |s| >= 2 && s[0] == '_' {
        assert s[1] != '_';
        assert CamelCase(s[1..])[0] == s[1];
      }
    }
  }

  /** Without any underscore, camel-casing changes nothing. */
  lemma {:induction false} CamelCaseWithoutUnderscore(s: string)
    requires forall i :: 0 <= i < |s| ==> s[i] != '_'
    ensures CamelCase(s) == s
    decreases |s|
  {
    if |s| > 0 {
      CamelCaseWithoutUnderscore(s[1..]);
      assert [s[0]] + s[1..] == s;
    }
  }

  /** The inverse convention: every ASCII capital `X` becomes `_x`. */
  function SnakeCase(t: string): string
    decreases |t|
  {
    if |t| == 0 then ""
    else if IsUpperAscii(t[0]) then ['_', LowerChar(t[0])] + SnakeCase(t[1..])
    else [t[0]] + SnakeCase(t[1..])
  }

  /** A lower-case name in which every underscore introduces a lower-case ASCII letter. */
  predicate SnakeShaped(s: string) {
    && (forall i :: 0 <= i < |s| ==> !IsUpperAscii(s[i]))
    && (forall i :: 0 <= i < |s| && s[i] == '_' ==> i + 1 < |s| && IsLowerAscii(s[i + 1]))
  }

  /** On snake-shaped parts the camel-casing loses nothing. */
  lemma {:induction false} SnakeCamelRoundTrip(s: string)
    requires SnakeShaped(s)
    ensures SnakeCase(CamelCase(s)) == s
    decreases |s|
  {
    if |s| == 0 {
    } else if s[0] == '_' {
      assert IsLowerAscii(s[1]) && !IsLineTerminator(s[1]);
      assert SnakeShaped(s[2..]) by {
        forall i | 0 <= i < |s[2..]| && s[2..][i] == '_' ensures i + 1 < |s[2..]| && IsLowerAscii(s[2..][i + 1]) {
          assert s[2..][i] == s[i + 2];
        }
      }
      SnakeCamelRoundTrip(s[2..]);
      var c := CamelCase(s);
      assert c == [UpperChar(s[1])] + CamelCase(s[2..]);
      assert c[1..] == CamelCase(s[2..]);
      assert s == ['_', s[1]] + s[2..];
    } else {
      assert SnakeShaped(s[1..]) by {
        forall i | 0 <= i < |s[1..]| && s[1..][i] == '_' ensures i + 1 < |s[1..]| && IsLowerAscii(s[1..][i + 1]) {
          assert s[1..][i] == s[i + 1];
        }
      }
      SnakeCamelRoundTrip(s[1..]);
      var c := CamelCase(s);
      assert c == [s[0]] + CamelCase(s[1..]);
      assert c[1..] == CamelCase(s[1..]);
      assert s == [s[0]] + s[1..];
    }
  }

  /** `transformKey`: lower-case the name, split it on `__`, camel-case every piece. */
  function TransformKey(name: string): (r: seq<string>)
    ensures |r| >= 1
  {
    var parts := Split(Lower(name), "__");
    seq(|parts|, i requires 0 <= i < |parts| => CamelCase(parts[i]))
  }

  lemma FreeOfDoubleUnderscore(p: string)
    requires SeparatorFree(p, "__")
    ensures NoDoubleUnderscore(p)
  {
    forall i | 0 <= i < |p| - 1 ensures !(p[i] == '_' && p[i + 1] == '_') {
      assert !OccursAt(p, "__", i);
      assert p[i..i + 2] == [p[i], p[i + 1]];
    }
  }

  /**
   * What decoding a name means: the lower-cased name is cut, leftmost first,
   * into pieces that contain no `__` (empty pieces kept, joining them back
   * gives the lower-cased name), each part is its piece camel-cased, and no
   * underscore survives inside a part.
   */
  lemma TransformKeyDecodes(name: string)
    ensures var pieces := Split(Lower(name), "__");
      && Join(pieces, "__") == Lower(name)
      && |TransformKey(name)| == |pieces|
      && (forall i :: 0 <= i < |pieces| ==> SeparatorFree(pieces[i], "__"))
      && (forall i :: 0 <= i < |pieces| - 1 ==> FirstOccurrenceAtEnd(pieces[i], "__"))
      && (forall i :: 0 <= i < |pieces| ==> TransformKey(name)[i] == CamelCase(pieces[i]))
      && (forall i :: 0 <= i < |pieces| ==> NoInnerUnderscore(TransformKey(name)[i]))
  {
    var pieces := Split(Lower(name), "__");
    JoinSplit(Lower(name), "__");
    SplitLeftmost(Lower(name), "__");
    forall i | 0 <= i < |pieces| ensures NoInnerUnderscore(TransformKey(name)[i]) {
      FreeOfDoubleUnderscore(pieces[i]);
      CamelCaseRemovesUnderscores(pieces[i]);
    }
  }

  // ---------------------------------------------------------------------
  // parsePathPart

  datatype ArrayIndex = Position(n: nat) | NotANumber

  /** A decoded path part: a plain object key, or an (array key, index) pair. */
  datatype PathPart = Plain(key: string) | Element(key: string, index: ArrayIndex)

  /** The number of decimal digits at the end of `s`. */
  function TrailingDigits(s: string): (d: nat)
    ensures d <= |s|
    ensures AllDigits(s[|s| - d..])
    ensures d < |s| ==> !IsDigit(s[|s| - d - 1])
    decreases |s|
  {
    if |s| == 0 || !IsDigit(s[|s| - 1]) then 0
    else
      var t := s[..|s| - 1];
      var d := TrailingDigits(t);
      assert AllDigits(s[|s| - (d + 1)..]) by {
        var u, v := s[|s| - (d + 1)..], t[|t| - d..];
        forall j | 0 <= j < |u| ensures IsDigit(u[j]) {
          if j < d {
            assert u[j] == v[j];
          }
        }
      }
      d + 1
  }

  /** The test `part.match(/.*-\d+$/)`. */
  predicate MatchesArraySuffix(part: string) {
    var d := TrailingDigits(part);
    1 <= d < |part| && part[|part| - d - 1] == '-'
  }

  /** The pattern matches exactly the parts that end in `-` followed by one or more digits. */
  lemma ArraySuffixIff(part: string)
    ensures MatchesArraySuffix(part) <==>
      exists k :: 0 <= k < |part| - 1 && part[k] == '-' && AllDigits(part[k + 1..])
  {
    var d := TrailingDigits(part);
    if MatchesArraySuffix(part) {
      var k := |part| - d - 1;
      assert part[k + 1..] == part[|part| - d..];
    }
    if exists k :: 0 <= k < |part| - 1 && part[k] == '-' && AllDigits(part[k + 1..]) {
      var k :| 0 <= k < |part| - 1 && part[k] == '-' && AllDigits(part[k + 1..]);
      TrailingDigitsAtLeast(part, k);
    }
  }

  lemma TrailingDigitsAtLeast(part: string, k: int)
    requires 0 <= k < |part| - 1 && part[k] == '-' && AllDigits(part[k + 1..])
    ensures TrailingDigits(part) == |part| - k - 1
  {
    var d := TrailingDigits(part);
    assert !IsDigit(part[k]);
    assert forall j :: k < j < |part| ==> IsDigit(part[j]) by {
      forall j | k < j < |part| ensures IsDigit(part[j]) {
        assert part[j] == part[k + 1..][j - k - 1];
      }
    }
    assert forall j :: |part| - d <= j < |part| ==> IsDigit(part[j]) by {
      forall j | |part| - d <= j < |part| ensures IsDigit(part[j]) {
        assert part[j] == part[|part| - d..][j - (|part| - d)];
      }
    }
  }

  /** The characters `parseInt` skips before the numeral (white space and line terminators). */
  predicate IsStrWhiteSpace(c: char) {
    || c == '\t' || c == '\U{000B}' || c == '\U{000C}' || c == ' ' || c == '\U{00A0}' || c == '\U{FEFF}'
    || c == '\U{1680}' || ('\U{2000}' <= c <= '\U{200A}') || c == '\U{202F}' || c == '\U{205F}' || c == '\U{3000}'
    || IsLineTerminator(c)
  }

  function DropLeadingWhiteSpace(s: string): (r: string)
    ensures |r| <= |s| && r == s[|s| - |r|..]
    ensures forall i :: 0 <= i < |s| - |r| ==> IsStrWhiteSpace(s[i])
    ensures |r| > 0 ==> !IsStrWhiteSpace(r[0])
    decreases |s|
  {
    if |s| > 0 && IsStrWhiteSpace(s[0]) then DropLeadingWhiteSpace(s[1..]) else s
  }

  /** The longest prefix of `s` made of decimal digits. */
  function LeadingDigits(s: string): (ds: string)
    ensures |ds| <= |s| && ds == s[..|ds|] && AllDigits(ds)
    ensures |ds| < |s| ==> !IsDigit(s[|ds|])
    decreases |s|
  {
    if |s| > 0 && IsDigit(s[0]) then [s[0]] + LeadingDigits(s[1..]) else ""
  }

  /**
   * `parseInt(piece, 10)` for a piece cut out by `split('-')`, which holds no
   * `-`: skip leading white space, accept a `+` sign, read the longest run of
   * digits; no digit at all gives `NaN`.
   */
  function ParseIndex(piece: string): ArrayIndex
  {
    var t := DropLeadingWhiteSpace(piece);
    var u := if |t| > 0 && t[0] == '+' then t[1..] else t;
    var ds := LeadingDigits(u);
    if |ds| == 0 then NotANumber else Position(DecimalValue(ds))
  }

  /**
   * `parsePathPart`: a part that ends in `-<digits>` is an array element whose
   * key is the text before the first `-` and whose index is `parseInt` of the
   * text between the first and the second `-` (`const [key, index] =
   * part.split('-')`); any other part is a plain key.
   */
  function ParsePathPart(part: string): PathPart
  {
    if MatchesArraySuffix(part) then
      var pieces := Split(part, "-");
      Element(pieces[0], ParseIndex(if |pieces| >= 2 then pieces[1] else ""))
    else Plain(part)
  }

  /** Classification: an array element iff the part ends in `-<digits>`; otherwise the part itself is the key. */
  lemma ParsePathPartKind(part: string)
    ensures ParsePathPart(part).Element? <==>
      exists k :: 0 <= k < |part| - 1 && part[k] == '-' && AllDigits(part[k + 1..])
    ensures ParsePathPart(part).Plain? ==> ParsePathPart(part) == Plain(part)
  {
    ArraySuffixIff(part);
  }

  lemma ParseDigits(ds: string)
    requires |ds| >= 1 && AllDigits(ds)
    ensures ParseIndex(ds) == Position(DecimalValue(ds))
  {
    assert IsDigit(ds[0]);
    assert !IsStrWhiteSpace(ds[0]);
    assert DropLeadingWhiteSpace(ds) == ds;
    assert ds[0] != '+';
    LeadingDigitsOfDigits(ds);
  }

  lemma {:induction false} LeadingDigitsOfDigits(ds: string)
    requires AllDigits(ds)
    ensures LeadingDigits(ds) == ds
    decreases |ds|
  {
    if |ds| > 0 {
      LeadingDigitsOfDigits(ds[1..]);
      assert [ds[0]] + ds[1..] == ds;
    }
  }

  /** With a single `-`, the key is the text before it and the index is the value of the digits after it. */
  lemma ParseSingleDash(key: string, ds: string)
    requires forall i :: 0 <= i < |key| ==> key[i] != '-'
    requires |ds| >= 1 && AllDigits(ds)
    ensures ParsePathPart(key + "-" + ds) == Element(key, Position(DecimalValue(ds)))
  {
    var part := key + "-" + ds;
    assert part[|key|] == '-';
    assert part[|key| + 1..] == ds;
    TrailingDigitsAtLeast(part, |key|);
    DigitsSplit(key, ds);
    ParseDigits(ds);
  }

  /** Digits hold no `-`, so `key-digits` splits into the key and the digits. */
  lemma DigitsSplit(key: string, ds: string)
    requires forall i :: 0 <= i < |key| ==> key[i] != '-'
    requires AllDigits(ds)
    ensures Split(key + "-" + ds, "-") == [key, ds]
  {
    SplitAtFirst(key, "-", ds);
    assert forall i :: 0 <= i < |ds| ==> ds[i] != '-' by {
      assert forall i :: 0 <= i < |ds| ==> IsDigit(ds[i]);
    }
    SplitWithoutSeparator(ds, "-");
  }

  /** Writes a path part back as text: `key` or `key-<index>`. */
  function FormatPathPart(p: PathPart): string
    requires p.Element? ==> p.index.Position?
  {
    match p
    case Plain(k) => k
    case Element(k, idx) => k + "-" + NatToDecimal(idx.n)
  }

  /** The parts that text can represent: keys that do not look like elements, element keys without `-`. */
  predicate Representable(p: PathPart) {
    match p
    case Plain(k) => !MatchesArraySuffix(k)
    case Element(k, idx) => idx.Position? && forall i :: 0 <= i < |k| ==> k[i] != '-'
  }

  /** Parsing the text of a representable part gives the part back. */
  lemma PathPartRoundTrip(p: PathPart)
    requires Representable(p)
    ensures ParsePathPart(FormatPathPart(p)) == p
  {
    match p
    case Plain(k) =>
    case Element(k, idx) =>
      ParseSingleDash(k, NatToDecimal(idx.n));
      DecimalRoundTrip(idx.n);
  }

  /**
   * With two dashes the index is read from the middle piece, not from the
   * trailing digits: `a-b-0` is the element `NaN` of `a`, `a-1-2` element 1.
   */
  lemma ParseTwoDashes(key: string, mid: string, ds: string)
    requires forall i :: 0 <= i < |key| ==> key[i] != '-'
    requires forall i :: 0 <= i < |mid| ==> mid[i] != '-'
    requires |ds| >= 1 && AllDigits(ds)
    ensures ParsePathPart(key + "-" + mid + "-" + ds) == Element(key, ParseIndex(mid))
  {
    var part := key + "-" + mid + "-" + ds;
    var k := |key| + |mid| + 1;
    assert part[k] == '-';
    assert part[k + 1..] == ds;
    TrailingDigitsAtLeast(part, k);
    assert part == key + "-" + (mid + "-" + ds);
    SplitAtFirst(key, "-", mid + "-" + ds);
    DigitsSplit(mid, ds);
  }

  /** A piece that starts with a letter is `NaN` to `parseInt`. */
  lemma LetterIsNotANumber(piece: string)
    requires |piece| >= 1 && IsLowerAscii(piece[0])
    ensures ParseIndex(piece) == NotANumber
  {
    assert !IsStrWhiteSpace(piece[0]);
    assert DropLeadingWhiteSpace(piece) == piece;
    assert LeadingDigits(piece) == "";
  }

  /** Camel-casing passes over a prefix without underscores. */
  lemma {:induction false} CamelCaseAppend(x: string, rest: string)
    requires NoUnderscore(x)
    ensures CamelCase(x + rest) == x + CamelCase(rest)
    decreases |x|
  {
    if |x| > 0 {
      var s := x + rest;
      assert s[0] == x[0] && s[0] != '_';
      assert s[1..] == x[1..] + rest;
      CamelCaseAppend(x[1..], rest);
      assert CamelCase(s) == [x[0]] + CamelCase(s[1..]);
      assert [x[0]] + (x[1..] + CamelCase(rest)) == x + CamelCase(rest);
    } else {
      assert x + rest == rest;
      assert x + CamelCase(rest) == CamelCase(rest);
    }
  }

  /** A single `_` capitalises the next letter and disappears: `FOO_BAR` gives `fooBar`. */
  lemma DecodeCamel(x: string, y: string)
    requires NoUnderscore(x) && NoUnderscore(y) && |y| >= 1 && !IsLineTerminator(LowerChar(y[0]))
    ensures TransformKey(x + "_" + y) == [Lower(x) + [UpperChar(LowerChar(y[0]))] + Lower(y)[1..]]
  {
    var lx, ly := Lower(x), Lower(y);
    var l := Lower(x + "_" + y);
    assert l == lx + "_" + ly;
    assert NoUnderscore(lx) && NoUnderscore(ly);
    assert NoDoubleUnderscore(l) by {
      forall i | 0 <= i < |l| - 1 && l[i] == '_' ensures l[i + 1] != '_' {
        assert i == |lx|;
        assert l[i + 1] == ly[0];
      }
    }
    SplitNoDoubleUnderscore(l);
    var t := "_" + ly;
    assert l == lx + t;
    CamelCaseAppend(lx, t);
    assert t[1] == ly[0] == LowerChar(y[0]);
    assert t[2..] == ly[1..];
    assert NoUnderscore(ly[1..]);
    CamelCaseWithoutUnderscore(ly[1..]);
    assert CamelCase(t) == [UpperChar(ly[0])] + ly[1..];
    assert CamelCase(l) == lx + [UpperChar(LowerChar(y[0]))] + ly[1..];
  }

  /** Four underscores in a row leave an empty part between two parts: `A____B` gives `a`, ``, `b`. */
  lemma DecodeEmptyPart(x: string, y: string)
    requires NoUnderscore(x) && NoUnderscore(y)
    ensures TransformKey(x + "____" + y) == [Lower(x), "", Lower(y)]
  {
    var lx, ly := Lower(x), Lower(y);
    assert Lower(x + "____" + y) == lx + "__" + ("__" + ly);
    assert NoUnderscore(lx) && NoUnderscore(ly);
    SplitAtFirstDouble(lx, "__" + ly);
    assert "__" + ly == "" + "__" + ly;
    SplitAtFirstDouble("", ly);
    SplitNoDoubleUnderscore(ly);
    CamelCaseWithoutUnderscore(lx);
    CamelCaseWithoutUnderscore(ly);
  }

  lemma {:induction false} SplitNoDoubleUnderscore(s: string)
    requires NoDoubleUnderscore(s)
    ensures Split(s, "__") == [s]
    decreases |s|
  {
    if |s| >= 2 {
      assert s[..2] != "__" by {
        assert s[..2][0] == s[0] && s[..2][1] == s[1];
      }
      assert NoDoubleUnderscore(s[1..]) by {
        forall i | 0 <= i < |s[1..]| - 1 ensures !(s[1..][i] == '_' && s[1..][i + 1] == '_') {
          assert s[1..][i] == s[i + 1] && s[1..][i + 1] == s[i + 2];
        }
      }
      SplitNoDoubleUnderscore(s[1..]);
      assert [s[0]] + s[1..] == s;
    }
  }

  /** Splitting `x + "__" + y` where `x` has no underscore peels off `x`. */
  lemma {:induction false} SplitAtFirstDouble(x: string, y: string)
    requires forall i :: 0 <= i < |x| ==> x[i] != '_'
    ensures Split(x + "__" + y, "__") == [x] + Split(y, "__")
    decreases |x|
  {
    var s := x + "__" + y;
    if |x| == 0 {
      assert s[..2] == "__";
      assert s[2..] == y;
    } else {
      assert s[..2] != "__" by { assert s[..2][0] == x[0]; }
      SplitAtFirstDouble(x[1..], y);
      assert s[1..] == x[1..] + "__" + y;
      assert [x[0]] + x[1..] == x;
    }
  }

  predicate NoUnderscore(s: string) {
    forall i :: 0 <= i < |s| ==> s[i] != '_'
  }

  /** A name without underscores decodes to the single part of its lower-cased text. */
  lemma DecodeSinglePart(name: string)
    requires NoUnderscore(name)
    ensures TransformKey(name) == [Lower(name)]
  {
    var l := Lower(name);
    assert NoUnderscore(l);
    SplitNoDoubleUnderscore(l);
    CamelCaseWithoutUnderscore(l);
  }

  /** `X__Y` with no other underscore decodes to the two lower-cased parts. */
  lemma DecodeTwoParts(x: string, y: string)
    requires NoUnderscore(x) && NoUnderscore(y)
    ensures TransformKey(x + "__" + y) == [Lower(x), Lower(y)]
  {
    var lx, ly := Lower(x), Lower(y);
    assert Lower(x + "__" + y) == lx + "__" + ly;
    assert NoUnderscore(lx) && NoUnderscore(ly);
    SplitAtFirstDouble(lx, ly);
    SplitNoDoubleUnderscore(ly);
    CamelCaseWithoutUnderscore(lx);
    CamelCaseWithoutUnderscore(ly);
  }

  /** `X__Y__Z` with no other underscore decodes to the three lower-cased parts. */
  lemma DecodeThreeParts(x: string, y: string, z: string)
    requires NoUnderscore(x) && NoUnderscore(y) && NoUnderscore(z)
    ensures TransformKey(x + "__" + y + "__" + z) == [Lower(x), Lower(y), Lower(z)]
  {
    var lx, ly, lz := Lower(x), Lower(y), Lower(z);
    assert Lower(x + "__" + y + "__" + z) == lx + "__" + (ly + "__" + lz);
    assert NoUnderscore(lx) && NoUnderscore(ly) && NoUnderscore(lz);
    SplitAtFirstDouble(lx, ly + "__" + lz);
    SplitAtFirstDouble(ly, lz);
    SplitNoDoubleUnderscore(lz);
    CamelCaseWithoutUnderscore(lx);
    CamelCaseWithoutUnderscore(ly);
    CamelCaseWithoutUnderscore(lz);
  }

  /** A part that does not end in a digit is a plain key. */
  lemma PlainWhenNoDigitAtEnd(part: string)
    requires |part| == 0 || !IsDigit(part[|part| - 1])
    ensures ParsePathPart(part) == Plain(part)
  {
  }
}
