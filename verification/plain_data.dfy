/**
 * The plain-data tree every parser and source produces: the JavaScript values
 * that JSON, YAML and the environment decoder can yield.
 */
module PlainData {
  import opened Wrappers
  import opened Text

  /**
   * A JavaScript plain value. Arrays carry, beside their elements, the named
   * properties that the environment decoder can set on them (an array that a
   * later plain key descends into, or an element written at index `NaN`).
   * Numbers are modelled as integers.
   */
  datatype Value =
    | Str(s: string)
    | Num(n: int)
    | Bool(b: bool)
    | Null
    | Obj(fields: map<string, Value>)
    | Arr(elems: seq<Value>, props: map<string, Value>)

  /** JavaScript truthiness: `""`, `0`, `false` and `null` are falsy; objects and arrays are truthy. */
  predicate Truthy(v: Value) {
    match v
    case Str(s) => s != ""
    case Num(n) => n != 0
    case Bool(b) => b
    case Null => false
    case _ => true
  }

  /** Truthiness of a property read, where a missing property reads as `undefined`. */
  predicate TruthyRead(o: Option<Value>) {
    o.Some? && Truthy(o.value)
  }

  predicate IsContainer(v: Value) {
    v.Obj? || v.Arr?
  }

  predicate IsScalar(v: Value) {
    !IsContainer(v)
  }

  /**
   * The value under a named key, as `_.merge` lists an entry: an own field of
   * an object, a named property of an array (array elements are reached by
   * index, with `Step.Index`).
   */
  function Lookup(v: Value, k: string): (r: Option<Value>)
    ensures r.Some? ==> IsContainer(v)
  {
    match v
    case Obj(fs) => if k in fs then Some(fs[k]) else None
    case Arr(_, ps) => if k in ps then Some(ps[k]) else None
    case _ => None
  }

  /** The largest length a JavaScript array can have, 2^32 - 1. */
  const MaxArrayLength: nat := 4294967295

  /**
   * The array index a property key denotes: a decimal numeral without a
   * leading zero whose value is below 2^32 - 1 (a canonical array index).
   * Every other key names an ordinary property.
   */
  function IndexOfKey(k: string): (r: Option<nat>)
    ensures r.Some? ==> r.value < MaxArrayLength && k == NatToDecimal(r.value)
  {
    if |k| >= 1 && AllDigits(k) && (|k| == 1 || k[0] != '0') && DecimalValue(k) < MaxArrayLength then
      CanonicalNumeral(k);
      Some(DecimalValue(k))
    else None
  }

  /** The numeral of an index below 2^32 - 1 is the key of that index. */
  lemma IndexOfNumeral(n: nat)
    ensures n < MaxArrayLength ==> IndexOfKey(NatToDecimal(n)) == Some(n)
  {
    DecimalRoundTrip(n);
  }

  /**
   * `v[k]` in JavaScript, over the own properties the model represents;
   * `None` is `undefined`. An array reads an element for an index key and its
   * element count for `length`; a string reads a one-character string for an
   * index key and its length for `length`; numbers and booleans have no own
   * properties. (`null` has none either; reading one throws, which the
   * environment decoder reports itself.)
   */
  function Get(v: Value, k: string): Option<Value>
  {
    match v
    case Obj(fs) => if k in fs then Some(fs[k]) else None
    case Arr(es, ps) =>
      if k == "length" then Some(Num(|es|))
      else
        (match IndexOfKey(k)
         case Some(n) => if n < |es| then Some(es[n]) else None
         case None => if k in ps then Some(ps[k]) else None)
    case Str(s) =>
      if k == "length" then Some(Num(|s|))
      else
        (match IndexOfKey(k)
         case Some(n) => if n < |s| then Some(Str([s[n]])) else None
         case None => None)
    case _ => None
  }

  /** On an object, and on an array for a key that is neither an index nor `length`, a read finds the named entry. */
  lemma GetNamed(v: Value, k: string)
    requires v.Obj? || (v.Arr? && k != "length" && IndexOfKey(k).None?)
    ensures Get(v, k) == Lookup(v, k)
  {
  }

  /** On an array, the key of an index reads that element, or `undefined` past the end. */
  lemma GetElement(v: Value, n: nat)
    requires v.Arr? && n < MaxArrayLength
    ensures Get(v, NatToDecimal(n)) == if n < |v.elems| then Some(v.elems[n]) else None
  {
    IndexOfNumeral(n);
  }

  /** `v[k0][k1]…`: property reads one after another; `undefined` ends the chain. */
  function Reach(v: Value, keys: seq<string>): Option<Value>
    decreases |keys|
  {
    if |keys| == 0 then Some(v)
    else
      match Get(v, keys[0])
      case Some(child) => Reach(child, keys[1..])
      case None => None
  }

  /** `v[k] = x` for a named key on an object or an array. */
  function Put(v: Value, k: string, x: Value): (r: Value)
    requires IsContainer(v)
    ensures IsContainer(r) && r.Obj? == v.Obj?
    ensures Lookup(r, k) == Some(x)
    ensures forall j :: j != k ==> Lookup(r, j) == Lookup(v, j)
    ensures r.Arr? ==> r.elems == v.elems
  {
    match v
    case Obj(fs) => Obj(fs[k := x])
    case Arr(es, ps) => Arr(es, ps[k := x])
  }

  /** An environment: variable names and values, in the order `Object.keys` lists them. */
  type Env = seq<(string, string)>

  /** One step of a path into a tree: a named key, or an array element. */
  datatype Step = Key(name: string) | Index(i: nat)

  /** The value reached by following `path` from `v`, if every step exists. */
  function At(v: Value, path: seq<Step>): Option<Value>
    decreases |path|
  {
    if |path| == 0 then Some(v)
    else match path[0]
      case Key(k) =>
        (match Lookup(v, k)
         case Some(child) => At(child, path[1..])
         case None => None)
      case Index(i) =>
        if v.Arr? && i < |v.elems| then At(v.elems[i], path[1..]) else None
  }
}
