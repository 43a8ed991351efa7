/**
 * The deep merge the configuration service applies with lodash `_.merge`:
 * every parsed file is merged into the accumulated configuration, and the
 * environment tree is merged over the result.
 *
 * A source value is merged into the destination found at the same place:
 * - a scalar source (string, number, boolean, `null`) replaces it;
 * - an object source merges its keys, one by one, into the destination
 *   object or array found there, or into a fresh `{}` when the destination
 *   is missing or a scalar;
 * - an array source merges its elements index by index (and its named
 *   properties key by key) into the destination array found there, or into
 *   a fresh `[]` when the destination is not an array. Arrays are therefore
 *   not replaced wholesale: a shorter source array leaves the destination's
 *   later elements in place.
 *
 * The source mutates the destination in place; here the merge returns the
 * new tree.
 */
module Merge {
  import opened Wrappers
  import opened Text
  import opened PlainData

  function Max(a: nat, b: nat): nat {
    if a < b then b else a
  }

  /** The value at a key of a destination, or `undefined`. */
  function Entry(m: map<string, Value>, k: string): Option<Value> {
    if k in m then Some(m[k]) else None
  }

  /** The value at an index of a destination array, or `undefined`. */
  function Element(s: seq<Value>, i: nat): Option<Value> {
    if i < |s| then Some(s[i]) else None
  }

  /** `baseMergeDeep` (or the plain assignment for a scalar): `src` merged into the destination `dst`. */
  function MergeValue(dst: Option<Value>, src: Value): (r: Value)
    ensures IsScalar(src) ==> r == src
    ensures src.Obj? ==> IsContainer(r) && (dst.Some? && dst.value.Arr? <==> r.Arr?)
    ensures src.Arr? ==> r.Arr? && |r.elems| == Max(if dst.Some? && dst.value.Arr? then |dst.value.elems| else 0, |src.elems|)
    decreases src, 1
  {
    match src
    case Obj(sf) =>
      if dst.Some? && dst.value.Arr? then Arr(dst.value.elems, MergeFields(dst.value.props, sf, src))
      else Obj(MergeFields(if dst.Some? && dst.value.Obj? then dst.value.fields else map[], sf, src))
    case Arr(es, ps) =>
      var base := if dst.Some? && dst.value.Arr? then dst.value else Arr([], map[]);
      Arr(MergeElems(base.elems, es, src), MergeFields(base.props, ps, src))
    case _ => src
  }

  /**
   * `baseMerge` over keys: every key of `src` is merged into the value at the
   * same key of `dst`; the other keys of `dst` stay. `whole` is the source
   * value whose keys these are.
   */
  function MergeFields(dst: map<string, Value>, src: map<string, Value>, ghost whole: Value): (r: map<string, Value>)
    requires whole == Obj(src) || (whole.Arr? && whole.props == src)
    ensures r.Keys == dst.Keys + src.Keys
    ensures forall k :: k in dst && k !in src ==> r[k] == dst[k]
    ensures forall k :: k in src ==> r[k] == MergeValue(Entry(dst, k), src[k])
    decreases whole, 0
  {
    map k | k in dst.Keys + src.Keys :: if k in src then MergeValue(Entry(dst, k), src[k]) else dst[k]
  }

  /** `baseMerge` over the indices of a source array: elements merge pairwise; the destination's tail stays. */
  function MergeElems(dst: seq<Value>, src: seq<Value>, ghost whole: Value): (r: seq<Value>)
    requires whole.Arr? && whole.elems == src
    ensures |r| == Max(|dst|, |src|)
    ensures forall i :: |src| <= i < |dst| ==> r[i] == dst[i]
    ensures forall i :: 0 <= i < |src| ==> r[i] == MergeValue(Element(dst, i), src[i])
    decreases whole, 0
  {
    seq(Max(|dst|, |src|), i requires 0 <= i < Max(|dst|, |src|) =>
      if i < |src| then MergeValue(Element(dst, i), src[i]) else dst[i])
  }

  /** The keys `keysIn` lists for an array or a string source at the top level: its indices as numerals. */
  function IndexEntries(es: seq<Value>): (r: map<string, Value>)
    ensures forall i :: 0 <= i < |es| ==> NatToDecimal(i) in r && r[NatToDecimal(i)] == es[i]
    ensures forall k :: k in r ==> exists i :: 0 <= i < |es| && k == NatToDecimal(i)
  {
    NatToDecimalInjective();
    map i | 0 <= i < |es| :: NatToDecimal(i) := es[i]
  }

  /**
   * The key/value pairs `_.merge` reads from a top-level source: an object's
   * own keys, an array's indices and named properties, a string's characters
   * by index; a number or `true` has none.
   */
  function SourceEntries(src: Value): map<string, Value>
  {
    match src
    case Obj(sf) => sf
    case Arr(es, ps) => IndexEntries(es) + ps
    case Str(s) => IndexEntries(seq(|s|, i requires 0 <= i < |s| => Str([s[i]])))
    case _ => map[]
  }

  /**
   * `_.merge(acc, src)` for the configuration object `acc`: a falsy source is
   * skipped, any other source has its entries merged key by key.
   */
  function MergeTop(acc: map<string, Value>, src: Value): (r: map<string, Value>)
    ensures !Truthy(src) ==> r == acc
    ensures Truthy(src) ==> r.Keys == acc.Keys + SourceEntries(src).Keys
    ensures src.Obj? ==> Obj(r) == MergeValue(Some(Obj(acc)), src)
  {
    if !Truthy(src) then acc
    else MergeFields(acc, SourceEntries(src), Obj(SourceEntries(src)))
  }

  // ---------------------------------------------------------------------
  // Merging into nothing copies

  /** Merging into a missing destination yields (a deep copy equal to) the source. */
  lemma {:induction false} MergeIntoNothing(src: Value)
    ensures MergeValue(None, src) == src
    decreases src, 1
  {
    match src
    case Obj(sf) => FieldsIntoNothing(sf, src);
    case Arr(es, ps) =>
      FieldsIntoNothing(ps, src);
      ElemsIntoNothing(es, src);
    case _ =>
  }

  lemma {:induction false} FieldsIntoNothing(src: map<string, Value>, whole: Value)
    requires whole == Obj(src) || (whole.Arr? && whole.props == src)
    ensures MergeFields(map[], src, whole) == src
    decreases whole, 0
  {
    var r := MergeFields(map[], src, whole);
    forall k | k in src ensures r[k] == src[k] {
      MergeIntoNothing(src[k]);
    }
  }

  lemma {:induction false} ElemsIntoNothing(src: seq<Value>, whole: Value)
    requires whole.Arr? && whole.elems == src
    ensures MergeElems([], src, whole) == src
    decreases whole, 0
  {
    var r := MergeElems([], src, whole);
    forall i | 0 <= i < |src| ensures r[i] == src[i] {
      MergeIntoNothing(src[i]);
    }
  }

  // ---------------------------------------------------------------------
  // Merging a tree into itself

  /** Merging a tree into an equal tree changes nothing. */
  lemma {:induction false} MergeSelf(v: Value)
    ensures MergeValue(Some(v), v) == v
    decreases v, 1
  {
    match v
    case Obj(f) => FieldsSelf(f, v);
    case Arr(es, ps) =>
      FieldsSelf(ps, v);
      ElemsSelf(es, v);
    case _ =>
  }

  lemma {:induction false} FieldsSelf(f: map<string, Value>, whole: Value)
    requires whole == Obj(f) || (whole.Arr? && whole.props == f)
    ensures MergeFields(f, f, whole) == f
    decreases whole, 0
  {
    var r := MergeFields(f, f, whole);
    forall k | k in f ensures r[k] == f[k] {
      MergeSelf(f[k]);
    }
  }

  lemma {:induction false} ElemsSelf(es: seq<Value>, whole: Value)
    requires whole.Arr? && whole.elems == es
    ensures MergeElems(es, es, whole) == es
    decreases whole, 0
  {
    var r := MergeElems(es, es, whole);
    forall i | 0 <= i < |es| ensures r[i] == es[i] {
      MergeSelf(es[i]);
    }
  }

  // ---------------------------------------------------------------------
  // The source wins at its scalar leaves; the destination keeps the rest

  /** One step down: the merged tree's child is the source's child merged into some destination child. */
  lemma KeyStep(dst: Option<Value>, src: Value, k: string)
    requires Lookup(src, k).Some?
    ensures Lookup(MergeValue(dst, src), k).Some?
    ensures exists d :: Lookup(MergeValue(dst, src), k).value == MergeValue(d, Lookup(src, k).value)
  {
    var r := MergeValue(dst, src);
    match src
    case Obj(sf) =>
      var base := if dst.Some? && dst.value.Arr? then dst.value.props
        else if dst.Some? && dst.value.Obj? then dst.value.fields else map[];
      assert Lookup(r, k).value == MergeValue(Entry(base, k), sf[k]);
    case Arr(es, ps) =>
      var base := if dst.Some? && dst.value.Arr? then dst.value else Arr([], map[]);
      assert Lookup(r, k).value == MergeValue(Entry(base.props, k), ps[k]);
  }

  lemma IndexStep(dst: Option<Value>, src: Value, i: nat)
    requires src.Arr? && i < |src.elems|
    ensures MergeValue(dst, src).Arr? && i < |MergeValue(dst, src).elems|
    ensures exists d :: MergeValue(dst, src).elems[i] == MergeValue(d, src.elems[i])
  {
    var base := if dst.Some? && dst.value.Arr? then dst.value else Arr([], map[]);
    assert MergeValue(dst, src).elems[i] == MergeValue(Element(base.elems, i), src.elems[i]);
  }

  /**
   * Wherever the source holds a scalar, the merged tree holds the same
   * scalar at the same path, whatever the destination held there.
   */
  lemma {:induction false} ScalarWins(dst: Option<Value>, src: Value, path: seq<Step>, x: Value)
    requires At(src, path) == Some(x) && IsScalar(x)
    ensures At(MergeValue(dst, src), path) == Some(x)
    decreases |path|
  {
    var r := MergeValue(dst, src);
    if |path| > 0 {
      match path[0]
      case Key(k) =>
        KeyStep(dst, src, k);
        var d :| Lookup(r, k).value == MergeValue(d, Lookup(src, k).value);
        ScalarWins(d, Lookup(src, k).value, path[1..], x);
      case Index(i) =>
        IndexStep(dst, src, i);
        var d :| r.elems[i] == MergeValue(d, src.elems[i]);
        ScalarWins(d, src.elems[i], path[1..], x);
    }
  }

  /**
   * Keys the source does not mention keep the destination's value, when the
   * destination is reused (an object source over an object or an array, an
   * array source over an array).
   */
  lemma UntouchedKeyKept(dst: Value, src: Value, k: string)
    requires (src.Obj? && IsContainer(dst)) || (src.Arr? && dst.Arr?)
    requires Lookup(src, k).None?
    ensures Lookup(MergeValue(Some(dst), src), k) == Lookup(dst, k)
  {
  }

  /** Elements past the end of a source array keep the destination's elements. */
  lemma TailKept(dst: Value, src: Value, i: nat)
    requires src.Arr? && dst.Arr? && |src.elems| <= i < |dst.elems|
    ensures MergeValue(Some(dst), src).elems[i] == dst.elems[i]
  {
  }

  /** An array source over anything but an array starts from `[]`: the old value is discarded. */
  lemma ArrayOverNonArray(dst: Value, src: Value)
    requires src.Arr? && !dst.Arr?
    ensures MergeValue(Some(dst), src) == src
  {
    MergeIntoNothing(src);
  }

  /** An object source over a scalar starts from `{}`: the scalar is discarded. */
  lemma ObjectOverScalar(dst: Value, src: Value)
    requires src.Obj? && IsScalar(dst)
    ensures MergeValue(Some(dst), src) == src
  {
    MergeIntoNothing(src);
  }

  // ---------------------------------------------------------------------
  // Worked examples

  lemma InnerObjectsCombine()
    ensures MergeValue(Some(Obj(map["x" := Num(1)])), Obj(map["y" := Num(2)])) == Obj(map["x" := Num(1), "y" := Num(2)])
  {
    var f := MergeValue(Some(Obj(map["x" := Num(1)])), Obj(map["y" := Num(2)])).fields;
    assert f.Keys == {"x", "y"};
    assert f["x"] == Num(1) && f["y"] == Num(2);
    assert f == map["x" := Num(1), "y" := Num(2)];
  }

  /** Merging an object with one key touches only that key. */
  lemma SingleKeyMerge(acc: map<string, Value>, k: string, v: Value)
    ensures MergeTop(acc, Obj(map[k := v])) == acc[k := MergeValue(Entry(acc, k), v)]
  {
    var r := MergeTop(acc, Obj(map[k := v]));
    assert r.Keys == acc.Keys + {k};
  }

  /** The first source merged into the empty configuration is copied. */
  lemma TopIntoEmpty(f: map<string, Value>)
    ensures MergeTop(map[], Obj(f)) == f
  {
    FieldsIntoNothing(f, Obj(f));
  }

  /** `_.merge({}, {a: 1, b: {x: 1}}, {b: {y: 2}})` is `{a: 1, b: {x: 1, y: 2}}`. */
  lemma NestedObjectsCombine()
    ensures MergeTop(MergeTop(map[], Obj(map["a" := Num(1), "b" := Obj(map["x" := Num(1)])])),
                     Obj(map["b" := Obj(map["y" := Num(2)])]))
      == map["a" := Num(1), "b" := Obj(map["x" := Num(1), "y" := Num(2)])]
  {
    var inner := Obj(map["x" := Num(1)]);
    var acc := map["a" := Num(1), "b" := inner];
    TopIntoEmpty(acc);
    assert Entry(acc, "b") == Some(inner);
    InnerObjectsCombine();
    SingleKeyMerge(acc, "b", Obj(map["y" := Num(2)]));
  }

  /** `_.merge({a: [1, 2, 3]}, {a: [9]})` is `{a: [9, 2, 3]}`: arrays merge by index. */
  lemma ArraysMergeByIndex()
    ensures MergeTop(map["a" := Arr([Num(1), Num(2), Num(3)], map[])], Obj(map["a" := Arr([Num(9)], map[])]))
      == map["a" := Arr([Num(9), Num(2), Num(3)], map[])]
  {
    var d := Arr([Num(1), Num(2), Num(3)], map[]);
    var s := Arr([Num(9)], map[]);
    var m := MergeValue(Some(d), s);
    assert m.elems == [Num(9), Num(2), Num(3)];
    FieldsIntoNothing(map[], s);
    assert m == Arr([Num(9), Num(2), Num(3)], map[]);
    var r := MergeTop(map["a" := d], Obj(map["a" := s]));
    assert r.Keys == {"a"};
    assert r["a"] == m;
  }
}
