/**
 * How `DefaultEnvParser.parse` treats pairs of variables, for any variable
 * names made of upper-case letters: the order-dependent outcomes of mixing
 * array and object parts, descending into a string, and falsy values.
 */
module DefaultEnvParserExamples {
  import opened Wrappers
  import opened Text
  import opened PlainData
  import opened EnvKey
  import opened DefaultEnvParser

  /** A name segment such as `DB` or `HOSTS`. */
  predicate Word(s: string) {
    |s| >= 1 && forall i :: 0 <= i < |s| ==> IsUpperAscii(s[i])
  }

  lemma WordLower(x: string)
    requires Word(x)
    ensures NoUnderscore(x)
    ensures forall i :: 0 <= i < |Lower(x)| ==> IsLowerAscii(Lower(x)[i])
  {
  }

  /** A lower-cased word is a named key, never an array index. */
  lemma WordNotIndex(x: string)
    requires Word(x)
    ensures IndexOfKey(Lower(x)).None?
  {
    WordLower(x);
    assert !IsDigit(Lower(x)[0]);
  }

  lemma WordPlain(x: string)
    requires Word(x)
    ensures ParsePathPart(Lower(x)) == Plain(Lower(x))
  {
    WordLower(x);
    PlainWhenNoDigitAtEnd(Lower(x));
  }

  lemma WordDecodes(x: string)
    requires Word(x)
    ensures TransformKey(x) == [Lower(x)]
  {
    WordLower(x);
    DecodeSinglePart(x);
  }

  /** Lower-casing leaves a suffix of `-`, digits and lower-case letters alone. */
  lemma LowerAppend(x: string, t: string)
    requires forall i :: 0 <= i < |t| ==> !IsUpperAscii(t[i])
    ensures Lower(x + t) == Lower(x) + t
  {
    var l, r := Lower(x + t), Lower(x) + t;
    assert |l| == |r|;
    forall i | 0 <= i < |l| ensures l[i] == r[i] {
      if i < |x| {
        assert (x + t)[i] == x[i];
      } else {
        assert (x + t)[i] == t[i - |x|];
      }
    }
  }

  /** `X-d` lower-cases to `x-d`. */
  lemma ElementLower(x: string, ds: string)
    requires Word(x) && |ds| == 1 && IsDigit(ds[0])
    ensures NoUnderscore(x + "-" + ds)
    ensures Lower(x + "-" + ds) == Lower(x) + "-" + ds
  {
    WordLower(x);
    assert x + "-" + ds == x + ("-" + ds);
    LowerAppend(x, "-" + ds);
  }

  lemma SingleDigitValue(ds: string)
    requires |ds| == 1 && IsDigit(ds[0])
    ensures DecimalValue(ds) == DigitValue(ds[0])
  {
    assert ds[..0] == "";
  }

  /** `x-d` is an element part. */
  lemma ElementPart(x: string, ds: string)
    requires Word(x) && |ds| == 1 && IsDigit(ds[0])
    ensures ParsePathPart(Lower(x) + "-" + ds) == Element(Lower(x), Position(DigitValue(ds[0])))
  {
    WordLower(x);
    assert forall i :: 0 <= i < |Lower(x)| ==> Lower(x)[i] != '-';
    SingleDigitValue(ds);
    ParseSingleDash(Lower(x), ds);
  }

  // ---------------------------------------------------------------------
  // What the variable names decode to

  lemma DecodedOne(p: string)
    ensures Decoded([p]) == [ParsePathPart(p)]
  {
  }

  lemma DecodedTwo(p0: string, p1: string)
    ensures Decoded([p0, p1]) == [ParsePathPart(p0), ParsePathPart(p1)]
  {
  }

  /** `X-d` decodes to the one part `x-d`, an element of `x`; `suffix` is the text `-d`. */
  lemma ElementName(x: string, ds: string, suffix: string)
    requires Word(x) && |ds| == 1 && IsDigit(ds[0]) && suffix == "-" + ds
    ensures TransformKey(x + suffix) == [Lower(x) + suffix]
    ensures ParsePathPart(Lower(x) + suffix) == Element(Lower(x), Position(DigitValue(ds[0])))
  {
    assert x + suffix == x + "-" + ds;
    assert Lower(x) + suffix == Lower(x) + "-" + ds;
    ElementLower(x, ds);
    DecodeSinglePart(x + "-" + ds);
    ElementPart(x, ds);
  }

  /** `X-d` is the path `[x-d]`, an element part of key `x`. */
  lemma ElementEntry(x: string, ds: string, suffix: string, acc: Value, v: string)
    requires Word(x) && |ds| == 1 && IsDigit(ds[0]) && suffix == "-" + ds
    ensures SetEntry(acc, (x + suffix, v)) ==
      SetPath(acc, [Element(Lower(x), Position(DigitValue(ds[0])))], v, Lower(x) + suffix)
  {
    ElementName(x, ds, suffix);
    DecodedOne(Lower(x) + suffix);
  }

  /** `X__Y` is the path `[x, y]` of two plain parts. */
  lemma PairEntry(x: string, y: string, acc: Value, v: string)
    requires Word(x) && Word(y)
    ensures SetEntry(acc, (x + "__" + y, v)) ==
      SetPath(acc, [Plain(Lower(x)), Plain(Lower(y))], v, Join([Lower(x), Lower(y)], "__"))
  {
    WordLower(x);
    WordLower(y);
    DecodeTwoParts(x, y);
    WordPlain(x);
    WordPlain(y);
    DecodedTwo(Lower(x), Lower(y));
  }

  /** `X__Y-d` decodes to the parts `x` and `y-d`; `suffix` is the text `-d`. */
  lemma PairElementName(x: string, y: string, ds: string, suffix: string)
    requires Word(x) && Word(y) && |ds| == 1 && IsDigit(ds[0]) && suffix == "-" + ds
    ensures TransformKey(x + "__" + y + suffix) == [Lower(x), Lower(y) + suffix]
  {
    var s := y + "-" + ds;
    assert x + "__" + y + suffix == x + "__" + s;
    assert Lower(y) + suffix == Lower(y) + "-" + ds;
    ElementLower(y, ds);
    WordLower(x);
    DecodeTwoParts(x, s);
  }

  /** `X__Y-d` is the path `[x, y-d]`: a plain part, then an element part of key `y`. */
  lemma PairElementEntry(x: string, y: string, ds: string, suffix: string, acc: Value, v: string)
    requires Word(x) && Word(y) && |ds| == 1 && IsDigit(ds[0]) && suffix == "-" + ds
    ensures SetEntry(acc, (x + "__" + y + suffix, v)) ==
      SetPath(acc, [Plain(Lower(x)), Element(Lower(y), Position(DigitValue(ds[0])))], v,
        Join([Lower(x), Lower(y) + suffix], "__"))
  {
    PairElementName(x, y, ds, suffix);
    WordPlain(x);
    assert Lower(y) + suffix == Lower(y) + "-" + ds;
    ElementPart(y, ds);
    DecodedTwo(Lower(x), Lower(y) + suffix);
  }

  /** `X` is the path `[x]`. */
  lemma WordEntry(x: string, acc: Value, v: string)
    requires Word(x)
    ensures SetEntry(acc, (x, v)) == SetPath(acc, [Plain(Lower(x))], v, Lower(x))
  {
    WordDecodes(x);
    WordPlain(x);
    DecodedOne(Lower(x));
  }

  /** Two entries: the tree after the first, then the second applied to it. */
  lemma BuildTwo(e0: (string, string), e1: (string, string), t1: Value)
    requires SetEntry(Obj(map[]), e0) == Success(t1)
    ensures BuildTree([e0, e1]) == SetEntry(t1, e1)
  {
    var env := [e0, e1];
    assert env[..1][..0] == [];
    assert BuildFrom(Obj(map[]), env[..1]) == Success(t1);
    assert env[..2][..1] == env[..1];
  }

  // ---------------------------------------------------------------------
  // The writes, on classified paths

  /** On an object, a plain part followed by one more part descends into the truthy value there, or a new `{}`. */
  lemma FieldDescends(acc: Value, k: string, q: PathPart, v: string, name: string)
    requires acc.Obj?
    ensures var child := if TruthyRead(Get(acc, k)) then Get(acc, k).value else Obj(map[]);
      var sub := SetPath(child, [q], v, name);
      SetPath(acc, [Plain(k), q], v, name) == if sub.Success? then Success(Put(acc, k, sub.value)) else sub
  {
    var parts := [Plain(k), q];
    assert parts[1..] == [q];
    var holder := if TruthyRead(Get(acc, k)) then acc else Put(acc, k, Obj(map[]));
    assert SetPath(acc, parts, v, name) == Descend(holder, k, parts, v, name);
    var sub := SetPath(Get(holder, k).value, [q], v, name);
    if sub.Success? {
      assert holder.fields[k := sub.value] == acc.fields[k := sub.value];
    }
  }

  /** `[x-0]` into `{}` or into `{x: ""}`: `{x: [v]}`. */
  lemma NewArray(acc: Value, k: string, v: string, name: string)
    requires acc == Obj(map[]) || acc == Obj(map[k := Str("")])
    ensures SetPath(acc, [Element(k, Position(0))], v, name) == Success(Obj(map[k := Arr([Str(v)], map[])]))
  {
    var holder := Obj(map[k := Arr([], map[])]);
    assert acc.fields[k := Arr([], map[])] == holder.fields;
    assert Padded([], 0) == [Obj(map[])];
    var padded := Arr([Obj(map[])], map[]);
    var grown := Obj(map[k := padded]);
    assert holder.fields[k := padded] == grown.fields;
    assert Grow(holder, k, Position(0)) == Success(grown);
    AssignElement(padded, 0, Str(v));
    assert [Obj(map[])][0 := Str(v)] == [Str(v)];
    var written := Arr([Str(v)], map[]);
    assert grown.fields[k := written] == map[k := written];
  }

  /** `[x, y-0]` into `{}`: `{x: {y: [v]}}`. */
  lemma NewNestedArray(kx: string, ky: string, v: string, name: string)
    ensures SetPath(Obj(map[]), [Plain(kx), Element(ky, Position(0))], v, name) ==
      Success(Obj(map[kx := Obj(map[ky := Arr([Str(v)], map[])])]))
  {
    FieldDescends(Obj(map[]), kx, Element(ky, Position(0)), v, name);
    NewArray(Obj(map[]), ky, v, name);
  }

  /** `[y-1]` into `{y: [a]}`: the array grows to two elements. */
  lemma SecondArrayElement(acc: Value, k: string, a: string, v: string, name: string)
    requires acc == Obj(map[k := Arr([Str(a)], map[])])
    ensures SetPath(acc, [Element(k, Position(1))], v, name) == Success(Obj(map[k := Arr([Str(a), Str(v)], map[])]))
  {
    assert Padded([Str(a)], 1) == [Str(a), Obj(map[])];
    var padded := Arr([Str(a), Obj(map[])], map[]);
    var grown := Obj(map[k := padded]);
    assert acc.fields[k := padded] == grown.fields;
    assert Grow(acc, k, Position(1)) == Success(grown);
    AssignElement(padded, 1, Str(v));
    assert [Str(a), Obj(map[])][1 := Str(v)] == [Str(a), Str(v)];
    var written := Arr([Str(a), Str(v)], map[]);
    assert grown.fields[k := written] == map[k := written];
  }

  /** `[x, y-1]` into `{x: {y: [a]}}`: `{x: {y: [a, v]}}`. */
  lemma AppendNestedElement(kx: string, ky: string, a: string, v: string, name: string)
    ensures SetPath(Obj(map[kx := Obj(map[ky := Arr([Str(a)], map[])])]), [Plain(kx), Element(ky, Position(1))], v, name) ==
      Success(Obj(map[kx := Obj(map[ky := Arr([Str(a), Str(v)], map[])])]))
  {
    var inner := Obj(map[ky := Arr([Str(a)], map[])]);
    var acc := Obj(map[kx := inner]);
    FieldDescends(acc, kx, Element(ky, Position(1)), v, name);
    SecondArrayElement(inner, ky, a, v, name);
    var written := Obj(map[ky := Arr([Str(a), Str(v)], map[])]);
    assert acc.fields[kx := written] == map[kx := written];
  }

  /** `[x, y]` into `{x: [a]}`, for a `y` that is neither `length` nor an index: the array gets the named property `y`. */
  lemma PropertyOnArray(kx: string, ky: string, a: string, v: string, name: string)
    requires ky != "length" && IndexOfKey(ky).None?
    ensures SetPath(Obj(map[kx := Arr([Str(a)], map[])]), [Plain(kx), Plain(ky)], v, name) ==
      Success(Obj(map[kx := Arr([Str(a)], map[ky := Str(v)])]))
  {
    var arr := Arr([Str(a)], map[]);
    var acc := Obj(map[kx := arr]);
    FieldDescends(acc, kx, Plain(ky), v, name);
    var written := Arr([Str(a)], map[ky := Str(v)]);
    assert SetPath(arr, [Plain(ky)], v, name) == Success(written);
    assert acc.fields[kx := written] == map[kx := written];
  }

  /** `[x, y]` into `{}`: `{x: {y: v}}`. */
  lemma NewNestedObject(kx: string, ky: string, v: string, name: string)
    ensures SetPath(Obj(map[]), [Plain(kx), Plain(ky)], v, name) == Success(Obj(map[kx := Obj(map[ky := Str(v)])]))
  {
    FieldDescends(Obj(map[]), kx, Plain(ky), v, name);
  }

  /** `[x, y]` where `x` holds a non-empty string: writing a property on it throws. */
  lemma PlainOverString(kx: string, ky: string, a: string, v: string, name: string)
    requires a != ""
    ensures SetPath(Obj(map[kx := Str(a)]), [Plain(kx), Plain(ky)], v, name) == Failure(TypeError)
  {
    FieldDescends(Obj(map[kx := Str(a)]), kx, Plain(ky), v, name);
  }

  // ---------------------------------------------------------------------
  // Arrays from `-<digits>` suffixes

  lemma FirstElement(x: string, y: string, a: string)
    requires Word(x) && Word(y)
    ensures SetEntry(Obj(map[]), (x + "__" + y + "-0", a)) ==
      Success(Obj(map[Lower(x) := Obj(map[Lower(y) := Arr([Str(a)], map[])])]))
  {
    PairElementEntry(x, y, "0", "-0", Obj(map[]), a);
    NewNestedArray(Lower(x), Lower(y), a, Join([Lower(x), Lower(y) + "-0"], "__"));
  }

  lemma SecondElement(x: string, y: string, a: string, b: string)
    requires Word(x) && Word(y)
    ensures SetEntry(Obj(map[Lower(x) := Obj(map[Lower(y) := Arr([Str(a)], map[])])]), (x + "__" + y + "-1", b)) ==
      Success(Obj(map[Lower(x) := Obj(map[Lower(y) := Arr([Str(a), Str(b)], map[])])]))
  {
    var acc := Obj(map[Lower(x) := Obj(map[Lower(y) := Arr([Str(a)], map[])])]);
    PairElementEntry(x, y, "1", "-1", acc, b);
    AppendNestedElement(Lower(x), Lower(y), a, b, Join([Lower(x), Lower(y) + "-1"], "__"));
  }

  /** `X__Y-0=a, X__Y-1=b` gives `{x: {y: [a, b]}}`. */
  lemma ElementsFillArray(x: string, y: string, a: string, b: string)
    requires Word(x) && Word(y)
    ensures BuildTree([(x + "__" + y + "-0", a), (x + "__" + y + "-1", b)]) ==
      Success(Obj(map[Lower(x) := Obj(map[Lower(y) := Arr([Str(a), Str(b)], map[])])]))
  {
    FirstElement(x, y, a);
    SecondElement(x, y, a, b);
    BuildTwo((x + "__" + y + "-0", a), (x + "__" + y + "-1", b),
      Obj(map[Lower(x) := Obj(map[Lower(y) := Arr([Str(a)], map[])])]));
  }

  // ---------------------------------------------------------------------
  // Array and object parts at the same key

  lemma ElementIntoEmpty(x: string, a: string)
    requires Word(x)
    ensures SetEntry(Obj(map[]), (x + "-0", a)) == Success(Obj(map[Lower(x) := Arr([Str(a)], map[])]))
  {
    ElementEntry(x, "0", "-0", Obj(map[]), a);
    NewArray(Obj(map[]), Lower(x), a, Lower(x) + "-0");
  }

  lemma PlainBelowArray(x: string, y: string, a: string, b: string)
    requires Word(x) && Word(y) && Lower(y) != "length"
    ensures SetEntry(Obj(map[Lower(x) := Arr([Str(a)], map[])]), (x + "__" + y, b)) ==
      Success(Obj(map[Lower(x) := Arr([Str(a)], map[Lower(y) := Str(b)])]))
  {
    PairEntry(x, y, Obj(map[Lower(x) := Arr([Str(a)], map[])]), b);
    WordNotIndex(y);
    PropertyOnArray(Lower(x), Lower(y), a, b, Join([Lower(x), Lower(y)], "__"));
  }

  /**
   * Array part first, then a plain part below the same key: no error. The
   * array is reused and receives a named property (`y` other than `LENGTH`,
   * which would set the array's length).
   */
  lemma ArrayThenObject(x: string, y: string, a: string, b: string)
    requires Word(x) && Word(y) && Lower(y) != "length"
    ensures BuildTree([(x + "-0", a), (x + "__" + y, b)]) ==
      Success(Obj(map[Lower(x) := Arr([Str(a)], map[Lower(y) := Str(b)])]))
  {
    ElementIntoEmpty(x, a);
    PlainBelowArray(x, y, a, b);
    BuildTwo((x + "-0", a), (x + "__" + y, b), Obj(map[Lower(x) := Arr([Str(a)], map[])]));
  }

  lemma PlainIntoEmpty(x: string, y: string, b: string)
    requires Word(x) && Word(y)
    ensures SetEntry(Obj(map[]), (x + "__" + y, b)) == Success(Obj(map[Lower(x) := Obj(map[Lower(y) := Str(b)])]))
  {
    PairEntry(x, y, Obj(map[]), b);
    NewNestedObject(Lower(x), Lower(y), b, Join([Lower(x), Lower(y)], "__"));
  }

  lemma ElementIntoObject(x: string, y: string, a: string, b: string)
    requires Word(x) && Word(y)
    ensures SetEntry(Obj(map[Lower(x) := Obj(map[Lower(y) := Str(b)])]), (x + "-0", a)) ==
      Failure(ObjectToArrayConflict(ConflictPrefix + (Lower(x) + "-0")))
  {
    var acc := Obj(map[Lower(x) := Obj(map[Lower(y) := Str(b)])]);
    ElementEntry(x, "0", "-0", acc, a);
    ElementOverObjectThrows(acc, [Element(Lower(x), Position(0))], a, Lower(x) + "-0", Lower(x), Position(0));
  }

  /**
   * Plain part first, then an array part at the same key: the conflict
   * error, whose message names the decoded path of the second variable.
   */
  lemma ObjectThenArray(x: string, y: string, a: string, b: string)
    requires Word(x) && Word(y)
    ensures BuildTree([(x + "__" + y, b), (x + "-0", a)]) ==
      Failure(ObjectToArrayConflict(ConflictPrefix + (Lower(x) + "-0")))
  {
    PlainIntoEmpty(x, y, b);
    ElementIntoObject(x, y, a, b);
    BuildTwo((x + "__" + y, b), (x + "-0", a), Obj(map[Lower(x) := Obj(map[Lower(y) := Str(b)])]));
  }

  // ---------------------------------------------------------------------
  // Strings on the way down

  lemma WordIntoEmpty(x: string, v: string)
    requires Word(x)
    ensures SetEntry(Obj(map[]), (x, v)) == Success(Obj(map[Lower(x) := Str(v)]))
  {
    WordEntry(x, Obj(map[]), v);
    LastPlainOverwrites(Obj(map[]), Lower(x), v, Lower(x));
  }

  lemma PlainIntoString(x: string, y: string, a: string, b: string)
    requires Word(x) && Word(y) && a != ""
    ensures SetEntry(Obj(map[Lower(x) := Str(a)]), (x + "__" + y, b)) == Failure(TypeError)
  {
    PairEntry(x, y, Obj(map[Lower(x) := Str(a)]), b);
    PlainOverString(Lower(x), Lower(y), a, b, Join([Lower(x), Lower(y)], "__"));
  }

  /** `X=a` with `a` non-empty, then `X__Y`: writing a property on the string `a` throws. */
  lemma IntoString(x: string, y: string, a: string, b: string)
    requires Word(x) && Word(y) && a != ""
    ensures BuildTree([(x, a), (x + "__" + y, b)]) == Failure(TypeError)
  {
    WordIntoEmpty(x, a);
    PlainIntoString(x, y, a, b);
    BuildTwo((x, a), (x + "__" + y, b), Obj(map[Lower(x) := Str(a)]));
  }

  lemma ElementIntoFalsy(x: string, a: string)
    requires Word(x)
    ensures SetEntry(Obj(map[Lower(x) := Str("")]), (x + "-0", a)) == Success(Obj(map[Lower(x) := Arr([Str(a)], map[])]))
  {
    var acc := Obj(map[Lower(x) := Str("")]);
    ElementEntry(x, "0", "-0", acc, a);
    NewArray(acc, Lower(x), a, Lower(x) + "-0");
  }

  /** An empty string is falsy: an array part at its key replaces it without an error. */
  lemma FalsyReplaced(x: string, a: string)
    requires Word(x)
    ensures BuildTree([(x, ""), (x + "-0", a)]) == Success(Obj(map[Lower(x) := Arr([Str(a)], map[])]))
  {
    WordIntoEmpty(x, "");
    ElementIntoFalsy(x, a);
    BuildTwo((x, ""), (x + "-0", a), Obj(map[Lower(x) := Str("")]));
  }

  // ---------------------------------------------------------------------
  // Below an array: its elements and its length are properties too

  /** `0-1` is an element part of the key `0`. */
  lemma ZeroElementPart()
    ensures ParsePathPart("0-1") == Element("0", Position(1))
  {
    var key, ds := "0", "1";
    assert key + "-" + ds == "0-1";
    assert forall i :: 0 <= i < |key| ==> key[i] != '-';
    SingleDigitValue(ds);
    ParseSingleDash(key, ds);
  }

  /** The array `[a]` reads `a` at the key `0` and `1` at `length`. */
  lemma OneElementReads(a: string)
    ensures Get(Arr([Str(a)], map[]), "0") == Some(Str(a))
    ensures Get(Arr([Str(a)], map[]), "length") == Some(Num(1))
  {
    assert NatToDecimal(0) == "0";
    GetElement(Arr([Str(a)], map[]), 0);
  }

  /** `[x, 0-1]` into `{x: [a]}` with `a` non-empty: `x[0]` is truthy and not an array. */
  lemma ElementBelowElement(kx: string, a: string, b: string, name: string)
    requires a != ""
    ensures SetPath(Obj(map[kx := Arr([Str(a)], map[])]), [Plain(kx), Element("0", Position(1))], b, name) ==
      Failure(ObjectToArrayConflict(ConflictPrefix + name))
  {
    var arr := Arr([Str(a)], map[]);
    var parts := [Plain(kx), Element("0", Position(1))];
    OneElementReads(a);
    ElementOverObjectThrows(arr, parts[1..], b, name, "0", Position(1));
    PlainStepReuses(Obj(map[kx := arr]), parts, b, name, kx);
  }

  /** `[x, length-0]` into `{x: [a]}`: the length 1 is truthy and not an array. */
  lemma ElementBelowLength(kx: string, a: string, b: string, name: string)
    ensures SetPath(Obj(map[kx := Arr([Str(a)], map[])]), [Plain(kx), Element("length", Position(0))], b, name) ==
      Failure(ObjectToArrayConflict(ConflictPrefix + name))
  {
    var arr := Arr([Str(a)], map[]);
    var parts := [Plain(kx), Element("length", Position(0))];
    OneElementReads(a);
    ElementOverObjectThrows(arr, parts[1..], b, name, "length", Position(0));
    PlainStepReuses(Obj(map[kx := arr]), parts, b, name, kx);
  }

  /** `[x, 0, y]` into `{x: [a]}` with `a` non-empty: `x[0]` is a string, and a write on it throws. */
  lemma PlainBelowStringElement(kx: string, ky: string, a: string, b: string, name: string)
    requires a != ""
    ensures SetPath(Obj(map[kx := Arr([Str(a)], map[])]), [Plain(kx), Plain("0"), Plain(ky)], b, name) == Failure(TypeError)
  {
    var arr := Arr([Str(a)], map[]);
    var parts := [Plain(kx), Plain("0"), Plain(ky)];
    OneElementReads(a);
    assert parts[1..][1..] == [Plain(ky)];
    assert SetPath(Str(a), [Plain(ky)], b, name) == Failure(TypeError);
    PlainStepReuses(arr, parts[1..], b, name, "0");
    PlainStepReuses(Obj(map[kx := arr]), parts, b, name, kx);
  }

  /** `X__0-1` is the path `[x, 0-1]`. */
  lemma ElementKeyEntry(x: string, acc: Value, v: string)
    requires Word(x)
    ensures SetEntry(acc, (x + "__0-1", v)) ==
      SetPath(acc, [Plain(Lower(x)), Element("0", Position(1))], v, Join([Lower(x), "0-1"], "__"))
  {
    WordLower(x);
    assert x + "__0-1" == x + "__" + "0-1";
    assert Lower("0-1") == "0-1";
    DecodeTwoParts(x, "0-1");
    ZeroElementPart();
    WordPlain(x);
    DecodedTwo(Lower(x), "0-1");
  }

  /** `LENGTH` is a word, and lower-cases to `length`. */
  lemma LengthWord()
    ensures Word("LENGTH") && Lower("LENGTH") == "length"
  {
  }

  /** `X__LENGTH-0` is the path `[x, length-0]`. */
  lemma LengthKeyEntry(x: string, acc: Value, v: string)
    requires Word(x)
    ensures SetEntry(acc, (x + "__LENGTH-0", v)) ==
      SetPath(acc, [Plain(Lower(x)), Element("length", Position(0))], v, Join([Lower(x), "length-0"], "__"))
  {
    LengthWord();
    assert x + "__LENGTH-0" == x + "__" + "LENGTH" + "-0";
    PairElementEntry(x, "LENGTH", "0", "-0", acc, v);
    assert "length" + "-0" == "length-0";
  }

  lemma DecodedThree(p0: string, p1: string, p2: string)
    ensures Decoded([p0, p1, p2]) == [ParsePathPart(p0), ParsePathPart(p1), ParsePathPart(p2)]
  {
  }

  /** `0` has no `-<digits>` suffix: a plain key. */
  lemma ZeroPlain()
    ensures ParsePathPart("0") == Plain("0")
  {
    ParsePathPartKind("0");
  }

  /** `X__0__Y` decodes to the parts `x`, `0` and `y`. */
  lemma StringElementName(x: string, y: string)
    requires Word(x) && Word(y)
    ensures TransformKey(x + "__0__" + y) == [Lower(x), "0", Lower(y)]
  {
    WordLower(x);
    WordLower(y);
    assert x + "__0__" + y == x + "__" + "0" + "__" + y;
    assert Lower("0") == "0";
    DecodeThreeParts(x, "0", y);
  }

  /** `X__0__Y` is the path `[x, 0, y]`. */
  lemma StringElementEntry(x: string, y: string, acc: Value, v: string)
    requires Word(x) && Word(y)
    ensures SetEntry(acc, (x + "__0__" + y, v)) ==
      SetPath(acc, [Plain(Lower(x)), Plain("0"), Plain(Lower(y))], v, Join([Lower(x), "0", Lower(y)], "__"))
  {
    StringElementName(x, y);
    WordPlain(x);
    WordPlain(y);
    ZeroPlain();
    DecodedThree(Lower(x), "0", Lower(y));
  }

  /**
   * `X-0=a` with `a` non-empty, then `X__0-1=b`: `x[0]` is the string `a`, so
   * an array part at the key `0` of the array is the conflict.
   */
  lemma ElementKeyConflict(x: string, a: string, b: string)
    requires Word(x) && a != ""
    ensures BuildTree([(x + "-0", a), (x + "__0-1", b)]) ==
      Failure(ObjectToArrayConflict(ConflictPrefix + Join([Lower(x), "0-1"], "__")))
  {
    var acc := Obj(map[Lower(x) := Arr([Str(a)], map[])]);
    ElementIntoEmpty(x, a);
    ElementKeyEntry(x, acc, b);
    ElementBelowElement(Lower(x), a, b, Join([Lower(x), "0-1"], "__"));
    BuildTwo((x + "-0", a), (x + "__0-1", b), acc);
  }

  /**
   * `X-0=a`, then `X__LENGTH-0=b`: the array's `length` is the truthy number
   * 1, so an array part at the key `length` is the conflict.
   */
  lemma LengthKeyConflict(x: string, a: string, b: string)
    requires Word(x)
    ensures BuildTree([(x + "-0", a), (x + "__LENGTH-0", b)]) ==
      Failure(ObjectToArrayConflict(ConflictPrefix + Join([Lower(x), "length-0"], "__")))
  {
    var acc := Obj(map[Lower(x) := Arr([Str(a)], map[])]);
    ElementIntoEmpty(x, a);
    LengthKeyEntry(x, acc, b);
    ElementBelowLength(Lower(x), a, b, Join([Lower(x), "length-0"], "__"));
    BuildTwo((x + "-0", a), (x + "__LENGTH-0", b), acc);
  }

  /**
   * `X-0=a` with `a` non-empty, then `X__0__Y=b`: the plain part `0` reaches
   * the string element `a`, and writing a property on it throws.
   */
  lemma IntoStringElement(x: string, y: string, a: string, b: string)
    requires Word(x) && Word(y) && a != ""
    ensures BuildTree([(x + "-0", a), (x + "__0__" + y, b)]) == Failure(TypeError)
  {
    var acc := Obj(map[Lower(x) := Arr([Str(a)], map[])]);
    ElementIntoEmpty(x, a);
    StringElementEntry(x, y, acc, b);
    PlainBelowStringElement(Lower(x), Lower(y), a, b, Join([Lower(x), "0", Lower(y)], "__"));
    BuildTwo((x + "-0", a), (x + "__0__" + y, b), acc);
  }
}
