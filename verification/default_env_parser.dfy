/**
 * The tree builder of `DefaultEnvParser`: `setValue` writes one variable's
 * value into the tree along its decoded path, creating objects and arrays on
 * the way down, and `parse` applies it to every variable in turn.
 *
 * Every property access of `setValue` is JavaScript's: `acc[k]` reads an
 * array's element for an index key and its length for `length`, reads a
 * string's character or length, and `acc[k] = x` on a string or a number
 * throws (class bodies are strict-mode code).
 *
 * The source mutates one tree in place; here the tree is a value and every
 * write returns the new tree. Nothing is lost: every object and array of the
 * tree is created by `setValue` itself, so no two paths share a node.
 */
module DefaultEnvParser {
  import opened Wrappers
  import opened Text
  import opened PlainData
  import opened EnvKey

  /** The ways `setValue` stops. */
  datatype EnvError =
    | ObjectToArrayConflict(message: string)  // the conflict `setValue` throws
    | TypeError    // a write on a string or a number, or a read below `undefined` or `null`
    | RangeError   // an array's `length` set to an object, or an array pushed past 2^32 - 1 elements
    | NotModelled  // a write that would leave holes in an array, or set `length` to a string or a non-empty array

  const ConflictPrefix: string := "Cannot turn object into array. Key: "

  function Placeholders(n: nat): (r: seq<Value>)
    ensures |r| == n && forall i :: 0 <= i < n ==> r[i] == Obj(map[])
  {
    seq(n, _ => Obj(map[]))
  }

  /** The elements after `push({})` has been repeated until the length exceeds `index`. */
  function Padded(elems: seq<Value>, index: nat): (r: seq<Value>)
    ensures |r| == if |elems| > index then |elems| else index + 1
    ensures forall i :: 0 <= i < |elems| ==> r[i] == elems[i]
    ensures forall i :: |elems| <= i < |r| ==> r[i] == Obj(map[])
  {
    if |elems| > index then elems else elems + Placeholders(index + 1 - |elems|)
  }

  /** The property key of `acc[key][arrayIndex]`: the index's numeral, or `"NaN"`. */
  function IndexKey(idx: ArrayIndex): (r: string)
    ensures r != "length"
    ensures idx.Position? && idx.n < MaxArrayLength ==> IndexOfKey(r) == Some(idx.n)
    ensures idx.NotANumber? ==> IndexOfKey(r).None?
  {
    match idx
    case Position(n) =>
      IndexOfNumeral(n);
      assert IsDigit(NatToDecimal(n)[0]);
      NatToDecimal(n)
    case NotANumber => "NaN"
  }

  /**
   * `v[k] = x` in strict-mode JavaScript. On an object, and on an array for
   * a key that is neither an index nor `length`, it sets the named entry. On
   * an array, an index key sets an element: one past the end appends, and
   * further out the array would get holes, which the model does not
   * represent. Setting `length` to an object is a `RangeError`, to `[]`
   * empties the array, to anything else is not modelled. On a primitive it
   * throws a `TypeError`.
   */
  function Assign(v: Value, k: string, x: Value): (r: Result<Value, EnvError>)
    ensures r.Success? <==>
      && IsContainer(v)
      && !(v.Arr? && k == "length" && !(x.Arr? && x.elems == []))
      && !(v.Arr? && IndexOfKey(k).Some? && IndexOfKey(k).value > |v.elems|)
    ensures r.Failure? ==>
      r.error == (if !IsContainer(v) then TypeError else if k == "length" && x.Obj? then RangeError else NotModelled)
    ensures r.Success? ==> IsContainer(r.value) && r.value.Obj? == v.Obj?
    ensures r.Success? && !(v.Arr? && k == "length") ==> Get(r.value, k) == Some(x)
    ensures r.Success? && v.Arr? && k == "length" ==> r.value == Arr([], v.props)
  {
    match v
    case Obj(_) => Success(Put(v, k, x))
    case Arr(es, ps) =>
      if k == "length" then
        (match x
         case Obj(_) => Failure(RangeError)
         case Arr(xs, _) => if xs == [] then Success(Arr([], ps)) else Failure(NotModelled)
         case _ => Failure(NotModelled))
      else
        (match IndexOfKey(k)
         case Some(n) =>
           if n < |es| then Success(Arr(es[n := x], ps))
           else if n == |es| then Success(Arr(es + [x], ps))
           else Failure(NotModelled)
         case None => Success(Put(v, k, x)))
    case _ => Failure(TypeError)
  }

  /** A write at `k` leaves every other key's value as it was (an array's `length` aside). */
  lemma AssignFrame(v: Value, k: string, x: Value, j: string)
    requires Assign(v, k, x).Success? && j != k
    requires !(v.Arr? && (k == "length" || j == "length"))
    ensures Get(Assign(v, k, x).value, j) == Get(v, j)
  {
    match v
    case Obj(_) =>
    case Arr(es, ps) =>
      var r := Assign(v, k, x).value;
      match IndexOfKey(j)
      case None =>
      case Some(m) =>
        if IndexOfKey(k).Some? {
          assert IndexOfKey(k).value != m;
        }
  }

  /** On an array, the key of an index the array covers writes that element. */
  lemma AssignElement(v: Value, n: nat, x: Value)
    requires v.Arr? && n < |v.elems| && n < MaxArrayLength
    ensures Assign(v, NatToDecimal(n), x) == Success(Arr(v.elems[n := x], v.props))
  {
    IndexOfNumeral(n);
    assert IsDigit(NatToDecimal(n)[0]);
  }

  /** The array found at an element part's key, grown to cover the index. */
  function Grown(arr: Value, idx: ArrayIndex): (r: Value)
    requires arr.Arr?
    ensures r.Arr? && r.props == arr.props
    ensures idx.Position? ==> idx.n < |r.elems|
  {
    match idx
    case Position(n) => Arr(Padded(arr.elems, n), arr.props)
    case NotANumber => arr
  }

  /** Every part of a path, classified by `parsePathPart`. */
  function Decoded(path: seq<string>): (r: seq<PathPart>)
    ensures |r| == |path| && forall i :: 0 <= i < |path| ==> r[i] == ParsePathPart(path[i])
  {
    seq(|path|, i requires 0 <= i < |path| => ParsePathPart(path[i]))
  }

  /**
   * The effect of the `reduce` in `setValue` from the value `acc` on, for
   * the remaining (classified) path `parts`; `name` is the whole path joined
   * with `__`, as the error message shows it.
   */
  function SetPath(acc: Value, parts: seq<PathPart>, value: string, name: string): Result<Value, EnvError>
    decreases |parts|, 2
  {
    if |parts| == 0 then Success(acc)
    else if acc.Null? then Failure(TypeError)
    else
      match parts[0]
      case Plain(k) => SetField(acc, k, parts, value, name)
      case Element(k, idx) => SetElement(acc, k, idx, parts, value, name)
  }

  /** A plain part: the last one stores the value; any other puts `{}` at a falsy key and descends. */
  function SetField(acc: Value, k: string, parts: seq<PathPart>, value: string, name: string): Result<Value, EnvError>
    requires |parts| >= 1
    decreases |parts|, 1
  {
    if |parts| == 1 then Assign(acc, k, Str(value))
    else
      var holder :- if TruthyRead(Get(acc, k)) then Success(acc) else Assign(acc, k, Obj(map[]));
      Descend(holder, k, parts, value, name)
  }

  /**
   * `return holder[key]` and the rest of the path from there. The child is
   * changed in place, so `holder` sees the new child.
   */
  function Descend(holder: Value, key: string, parts: seq<PathPart>, value: string, name: string): Result<Value, EnvError>
    requires |parts| >= 2
    decreases |parts|, 0
  {
    match Get(holder, key)
    case None => Failure(TypeError)
    case Some(child) =>
      var newChild :- SetPath(child, parts[1..], value, name);
      Assign(holder, key, newChild)
  }

  /**
   * The `while` loop that pushes `{}` onto `holder[k]` until it covers the
   * index. An array never holds more than 2^32 - 1 elements, so from that
   * index on the loop pushes past the bound and `push` throws. A number (the
   * `length` read of an emptied array) has no `length`, so the loop does not
   * run. A string too short for the index has no `push` and throws; from
   * `SetElement` that case is unreachable, since a truthy string at the key
   * is the conflict and an empty one is replaced by `[]` first.
   */
  function Grow(holder: Value, k: string, idx: ArrayIndex): (r: Result<Value, EnvError>)
    ensures r.Success? ==> r.value.Obj? == holder.Obj? && IsContainer(r.value) == IsContainer(holder)
    ensures r.Success? && Get(holder, k).Some? && Get(holder, k).value.Arr? ==>
      Get(r.value, k) == Some(Grown(Get(holder, k).value, idx))
    ensures r.Failure? && Get(holder, k).Some? && Get(holder, k).value.Arr? ==>
      idx.Position? && idx.n >= MaxArrayLength && r.error == RangeError
  {
    match Get(holder, k)
    case None => Failure(TypeError)
    case Some(t) =>
      if t.Arr? && idx.Position? then
        if idx.n >= MaxArrayLength then Failure(RangeError)
        else if |t.elems| <= idx.n then Assign(holder, k, Arr(Padded(t.elems, idx.n), t.props))
        else Success(holder)
      else if t.Str? && idx.Position? && |t.s| <= idx.n then Failure(TypeError)
      else Success(holder)
  }

  /**
   * An element part: a truthy non-array at the key is the conflict the
   * source throws; otherwise a falsy value there is replaced by `[]`, the
   * array is grown to cover the index, and the last part stores the value in
   * the element while any other descends into it.
   */
  function SetElement(acc: Value, k: string, idx: ArrayIndex, parts: seq<PathPart>, value: string, name: string): Result<Value, EnvError>
    requires |parts| >= 1
    decreases |parts|, 1
  {
    var cur := Get(acc, k);
    if TruthyRead(cur) && !cur.value.Arr? then Failure(ObjectToArrayConflict(ConflictPrefix + name))
    else
      var holder :- if TruthyRead(cur) then Success(acc) else Assign(acc, k, Arr([], map[]));
      var grown :- Grow(holder, k, idx);
      match Get(grown, k)
      case None => Failure(TypeError)
      case Some(target) =>
        var newTarget :-
          if |parts| == 1 then Assign(target, IndexKey(idx), Str(value))
          else Descend(target, IndexKey(idx), parts, value, name);
        Assign(grown, k, newTarget)
  }

  /** The effect of `setValue(obj, path, value)`. */
  function SetEntry(obj: Value, entry: (string, string)): Result<Value, EnvError>
  {
    var path := TransformKey(entry.0);
    SetPath(obj, Decoded(path), entry.1, Join(path, "__"))
  }

  /** The tree after `setValue` has run, in order, for every entry of `env` starting from `acc`. */
  function BuildFrom(acc: Value, env: Env): Result<Value, EnvError>
    decreases |env|
  {
    if |env| == 0 then Success(acc)
    else
      var t :- BuildFrom(acc, env[..|env| - 1]);
      SetEntry(t, env[|env| - 1])
  }

  /** The result of `parse(env)`: start from `{}`. */
  function BuildTree(env: Env): Result<Value, EnvError>
  {
    BuildFrom(Obj(map[]), env)
  }

  // ---------------------------------------------------------------------
  // Reading a decoded path back

  /** The property keys a path part reads: its key, then for an element part the index's key. */
  function PartKeys(p: PathPart): seq<string>
  {
    match p
    case Plain(k) => [k]
    case Element(k, idx) => [k, IndexKey(idx)]
  }

  /** The keys of a whole path, in order. */
  function PathKeys(parts: seq<PathPart>): seq<string>
    decreases |parts|
  {
    if |parts| == 0 then [] else PartKeys(parts[0]) + PathKeys(parts[1..])
  }

  /** The key a path part writes in the tree it is applied to. */
  function PartKey(p: PathPart): string
  {
    match p
    case Plain(k) => k
    case Element(k, _) => k
  }

  /** Reading `[k] + rest` is reading `k`, then `rest` from there. */
  lemma ReachCons(v: Value, k: string, rest: seq<string>)
    ensures Reach(v, [k] + rest) == if Get(v, k).Some? then Reach(Get(v, k).value, rest) else None
  {
    assert ([k] + rest)[1..] == rest;
  }

  /** A successful write starts from an object or an array and keeps its kind. */
  lemma SetPathKind(acc: Value, parts: seq<PathPart>, value: string, name: string)
    requires |parts| >= 1
    ensures SetPath(acc, parts, value, name).Success? ==>
      && IsContainer(acc)
      && IsContainer(SetPath(acc, parts, value, name).value)
      && SetPath(acc, parts, value, name).value.Obj? == acc.Obj?
  {
    var r := SetPath(acc, parts, value, name);
    if r.Success? {
      match parts[0]
      case Plain(k) =>
        assert r == SetField(acc, k, parts, value, name);
        if |parts| > 1 {
          var h := if TruthyRead(Get(acc, k)) then Success(acc) else Assign(acc, k, Obj(map[]));
          assert h.Success?;
          assert r == Descend(h.value, k, parts, value, name);
        }
      case Element(k, idx) =>
        assert r == SetElement(acc, k, idx, parts, value, name);
        var h := if TruthyRead(Get(acc, k)) then Success(acc) else Assign(acc, k, Arr([], map[]));
        assert h.Success?;
        var g := Grow(h.value, k, idx);
        assert g.Success?;
    }
  }

  /** An array's `length` cannot be the first key of a successful write. */
  lemma LengthKeyFails(acc: Value, parts: seq<PathPart>, value: string, name: string)
    requires |parts| >= 1
    ensures acc.Arr? && PartKey(parts[0]) == "length" ==> SetPath(acc, parts, value, name).Failure?
  {
    if acc.Arr? && PartKey(parts[0]) == "length" {
      var len := Num(|acc.elems|);
      assert Get(acc, "length") == Some(len);
      match parts[0]
      case Plain(k) =>
        if |parts| >= 2 {
          SetPathKind(len, parts[1..], value, name);
          if TruthyRead(Some(len)) {
            assert SetPath(acc, parts, value, name) == Descend(acc, k, parts, value, name);
          }
        }
      case Element(k, idx) =>
        if !TruthyRead(Some(len)) {
          var holder := Assign(acc, k, Arr([], map[])).value;
          assert holder == acc;
          assert Grow(holder, k, idx) == Success(holder);
          assert Get(holder, k) == Some(Num(0));
          if |parts| >= 2 {
            assert Descend(Num(0), IndexKey(idx), parts, value, name) == Failure(TypeError);
          }
          assert SetPath(acc, parts, value, name) == SetElement(acc, k, idx, parts, value, name);
        }
    }
  }

  /** What a successful `Descend` did: the child existed, the rest of the path succeeded on it, and the holder now holds the new child. */
  lemma DescendShape(holder: Value, key: string, parts: seq<PathPart>, value: string, name: string)
    requires |parts| >= 2 && Descend(holder, key, parts, value, name).Success?
    ensures IsContainer(holder) && Get(holder, key).Some?
    ensures !(holder.Arr? && key == "length")
    ensures SetPath(Get(holder, key).value, parts[1..], value, name).Success?
    ensures Get(Descend(holder, key, parts, value, name).value, key) ==
      Some(SetPath(Get(holder, key).value, parts[1..], value, name).value)
  {
    SetPathKind(Get(holder, key).value, parts[1..], value, name);
  }

  /** The intermediate trees of a successful element write. */
  lemma ElementShape(acc: Value, k: string, idx: ArrayIndex, parts: seq<PathPart>, value: string, name: string)
    requires |parts| >= 1 && parts[0] == Element(k, idx)
    requires SetPath(acc, parts, value, name).Success?
    ensures !acc.Null? && !(TruthyRead(Get(acc, k)) && !Get(acc, k).value.Arr?)
    ensures var holder := if TruthyRead(Get(acc, k)) then Success(acc) else Assign(acc, k, Arr([], map[]));
      && holder.Success? && Grow(holder.value, k, idx).Success?
      && var grown := Grow(holder.value, k, idx).value;
      && Get(grown, k).Some? && IsContainer(Get(grown, k).value)
      && !(grown.Arr? && k == "length")
      && (if |parts| == 1 then Assign(Get(grown, k).value, IndexKey(idx), Str(value))
          else Descend(Get(grown, k).value, IndexKey(idx), parts, value, name)).Success?
      && SetPath(acc, parts, value, name) == Assign(grown, k,
           (if |parts| == 1 then Assign(Get(grown, k).value, IndexKey(idx), Str(value))
            else Descend(Get(grown, k).value, IndexKey(idx), parts, value, name)).value)
  {
    var holder := if TruthyRead(Get(acc, k)) then acc else Assign(acc, k, Arr([], map[])).value;
    var grown := Grow(holder, k, idx).value;
    var target := Get(grown, k).value;
    if |parts| > 1 {
      DescendShape(target, IndexKey(idx), parts, value, name);
    }
  }

  /** After a successful write, reading the path's keys in turn finds the value. */
  lemma {:induction false} SetPathReadBack(acc: Value, parts: seq<PathPart>, value: string, name: string)
    requires |parts| >= 1
    requires SetPath(acc, parts, value, name).Success?
    ensures Reach(SetPath(acc, parts, value, name).value, PathKeys(parts)) == Some(Str(value))
    decreases |parts|
  {
    var t := SetPath(acc, parts, value, name).value;
    var rest := PathKeys(parts[1..]);
    assert PathKeys(parts) == PartKeys(parts[0]) + rest;
    if |parts| == 1 {
      assert rest == [];
    }
    match parts[0]
    case Plain(k) =>
      ReachCons(t, k, rest);
      if |parts| > 1 {
        var holder := if TruthyRead(Get(acc, k)) then acc else Assign(acc, k, Obj(map[])).value;
        DescendShape(holder, k, parts, value, name);
        SetPathReadBack(Get(holder, k).value, parts[1..], value, name);
      }
    case Element(k, idx) =>
      ElementShape(acc, k, idx, parts, value, name);
      var holder := if TruthyRead(Get(acc, k)) then acc else Assign(acc, k, Arr([], map[])).value;
      var grown := Grow(holder, k, idx).value;
      var target := Get(grown, k).value;
      var key := IndexKey(idx);
      assert PartKeys(parts[0]) + rest == [k] + ([key] + rest);
      ReachCons(t, k, [key] + rest);
      if |parts| == 1 {
        var newTarget := Assign(target, key, Str(value)).value;
        assert Get(t, k) == Some(newTarget);
        ReachCons(newTarget, key, rest);
      } else {
        DescendShape(target, key, parts, value, name);
        var newTarget := Descend(target, key, parts, value, name).value;
        assert Get(t, k) == Some(newTarget);
        ReachCons(newTarget, key, rest);
        SetPathReadBack(Get(target, key).value, parts[1..], value, name);
      }
  }

  /** A write changes only the value under the first part's key (and an array's `length`), and keeps an object an object. */
  lemma SetPathFrame(acc: Value, parts: seq<PathPart>, value: string, name: string)
    requires |parts| >= 1
    requires SetPath(acc, parts, value, name).Success?
    ensures IsContainer(acc)
    ensures SetPath(acc, parts, value, name).value.Obj? == acc.Obj?
    ensures forall j :: j != PartKey(parts[0]) && !(acc.Arr? && j == "length") ==>
      Get(SetPath(acc, parts, value, name).value, j) == Get(acc, j)
  {
    SetPathKind(acc, parts, value, name);
    LengthKeyFails(acc, parts, value, name);
    var t := SetPath(acc, parts, value, name).value;
    var k := PartKey(parts[0]);
    forall j | j != k && !(acc.Arr? && j == "length")
      ensures Get(t, j) == Get(acc, j)
    {
      match parts[0]
      case Plain(_) =>
        if |parts| == 1 {
          AssignFrame(acc, k, Str(value), j);
        } else {
          var holder := if TruthyRead(Get(acc, k)) then acc else Assign(acc, k, Obj(map[])).value;
          if !TruthyRead(Get(acc, k)) {
            AssignFrame(acc, k, Obj(map[]), j);
          }
          DescendShape(holder, k, parts, value, name);
          AssignFrame(holder, k, SetPath(Get(holder, k).value, parts[1..], value, name).value, j);
        }
      case Element(_, idx) =>
        ElementShape(acc, k, idx, parts, value, name);
        var holder := if TruthyRead(Get(acc, k)) then acc else Assign(acc, k, Arr([], map[])).value;
        if !TruthyRead(Get(acc, k)) {
          AssignFrame(acc, k, Arr([], map[]), j);
        }
        GrowFrame(holder, k, idx, j);
        var grown := Grow(holder, k, idx).value;
        var target := Get(grown, k).value;
        var newTarget := (if |parts| == 1 then Assign(target, IndexKey(idx), Str(value))
          else Descend(target, IndexKey(idx), parts, value, name)).value;
        AssignFrame(grown, k, newTarget, j);
    }
  }

  /** Growing the array at `k` leaves every other key's value as it was. */
  lemma GrowFrame(holder: Value, k: string, idx: ArrayIndex, j: string)
    requires Grow(holder, k, idx).Success? && j != k
    requires !(holder.Arr? && (k == "length" || j == "length"))
    ensures Get(Grow(holder, k, idx).value, j) == Get(holder, j)
  {
    var t := Get(holder, k);
    if t.Some? && t.value.Arr? && idx.Position? && idx.n < MaxArrayLength && |t.value.elems| <= idx.n {
      AssignFrame(holder, k, Arr(Padded(t.value.elems, idx.n), t.value.props), j);
    }
  }

  /**
   * An element part grows the array at its key to cover the index: existing
   * elements other than the one written are kept, and every new slot other
   * than the one written holds `{}`. The index is below 2^32 - 1.
   */
  lemma ElementStepGrowsArray(acc: Value, parts: seq<PathPart>, value: string, name: string, k: string, n: nat)
    requires |parts| >= 1 && parts[0] == Element(k, Position(n))
    requires SetPath(acc, parts, value, name).Success?
    ensures n < MaxArrayLength
    ensures TruthyRead(Get(acc, k)) ==> Get(acc, k).value.Arr?
    ensures var cur := Get(acc, k);
      var before := if TruthyRead(cur) && cur.value.Arr? then cur.value.elems else [];
      var after := Get(SetPath(acc, parts, value, name).value, k);
      && after.Some? && after.value.Arr?
      && |after.value.elems| == (if |before| > n then |before| else n + 1)
      && (forall i :: 0 <= i < |before| && i != n ==> after.value.elems[i] == before[i])
      && (forall i :: |before| <= i < |after.value.elems| && i != n ==> after.value.elems[i] == Obj(map[]))
  {
    ElementShape(acc, k, Position(n), parts, value, name);
    LengthKeyFails(acc, parts, value, name);
    var cur := Get(acc, k);
    var holder := if TruthyRead(cur) then acc else Assign(acc, k, Arr([], map[])).value;
    var before := if TruthyRead(cur) && cur.value.Arr? then cur.value.elems else [];
    assert Get(holder, k).Some? && Get(holder, k).value.Arr? && Get(holder, k).value.elems == before;
    var grown := Grow(holder, k, Position(n)).value;
    var target := Get(grown, k).value;
    assert target == Grown(Get(holder, k).value, Position(n));
    assert target.elems == Padded(before, n);
    var key := IndexKey(Position(n));
    AssignElement(target, n, Str(value));
    var newTarget := (if |parts| == 1 then Assign(target, key, Str(value))
      else Descend(target, key, parts, value, name)).value;
    if |parts| > 1 {
      DescendShape(target, key, parts, value, name);
      AssignElement(target, n, SetPath(Get(target, key).value, parts[1..], value, name).value);
    }
    assert newTarget.Arr? && newTarget.elems == target.elems[n := newTarget.elems[n]];
  }

  /** An element part over a truthy value that is not an array throws, naming the whole path: an object, a string, or an array's element or `length`. */
  lemma ElementOverObjectThrows(acc: Value, parts: seq<PathPart>, value: string, name: string, k: string, idx: ArrayIndex)
    requires !acc.Null?
    requires |parts| >= 1 && parts[0] == Element(k, idx)
    requires TruthyRead(Get(acc, k)) && !Get(acc, k).value.Arr?
    ensures SetPath(acc, parts, value, name) == Failure(ObjectToArrayConflict(ConflictPrefix + name))
  {
  }

  /** An element part over a falsy value (`""`, `0`) behaves as if an empty array had been written there first. */
  lemma ElementOverFalsyReplaces(acc: Value, parts: seq<PathPart>, value: string, name: string, k: string, idx: ArrayIndex)
    requires !acc.Null?
    requires |parts| >= 1 && parts[0] == Element(k, idx)
    requires !TruthyRead(Get(acc, k))
    ensures var created := Assign(acc, k, Arr([], map[]));
      SetPath(acc, parts, value, name) ==
        if created.Success? then SetPath(created.value, parts, value, name) else Failure(created.error)
  {
    var created := Assign(acc, k, Arr([], map[]));
    if created.Success? {
      var a := created.value;
      if acc.Arr? && k == "length" {
        assert a == acc;
      } else {
        assert Get(a, k) == Some(Arr([], map[]));
      }
    }
  }

  /** A non-last plain part descends into whatever truthy value is there, arrays, strings and numbers included. */
  lemma PlainStepReuses(acc: Value, parts: seq<PathPart>, value: string, name: string, k: string)
    requires !acc.Null?
    requires |parts| >= 2 && parts[0] == Plain(k)
    requires TruthyRead(Get(acc, k))
    ensures var sub := SetPath(Get(acc, k).value, parts[1..], value, name);
      SetPath(acc, parts, value, name) == if sub.Success? then Assign(acc, k, sub.value) else Failure(sub.error)
  {
    assert SetPath(acc, parts, value, name) == Descend(acc, k, parts, value, name);
  }

  /** The last part overwrites whatever an object held at its key. */
  lemma LastPlainOverwrites(acc: Value, k: string, value: string, name: string)
    requires acc.Obj?
    ensures SetPath(acc, [Plain(k)], value, name) == Success(Put(acc, k, Str(value)))
  {
  }

  // ---------------------------------------------------------------------
  // parse

  lemma {:induction false} BuildFromIsObject(acc: Value, env: Env)
    requires acc.Obj?
    requires BuildFrom(acc, env).Success?
    ensures BuildFrom(acc, env).value.Obj?
    decreases |env|
  {
    if |env| > 0 {
      BuildFromIsObject(acc, env[..|env| - 1]);
      var t := BuildFrom(acc, env[..|env| - 1]).value;
      var path := TransformKey(env[|env| - 1].0);
      if |path| >= 1 {
        SetPathKind(t, Decoded(path), env[|env| - 1].1, Join(path, "__"));
      }
    }
  }

  /** A throw stops `parse`: once a prefix fails, the whole run fails with the same error. */
  lemma {:induction false} BuildFromStops(acc: Value, env: Env, i: nat)
    requires i <= |env|
    requires BuildFrom(acc, env[..i]).Failure?
    ensures BuildFrom(acc, env) == BuildFrom(acc, env[..i])
    decreases |env|
  {
    if i < |env| {
      assert env[..|env| - 1][..i] == env[..i];
      BuildFromStops(acc, env[..|env| - 1], i);
    } else {
      assert env[..i] == env;
    }
  }

  /** The last variable wins: reading its decoded path in the finished tree finds its value. */
  lemma LastVariableWins(env: Env)
    requires |env| >= 1
    requires BuildTree(env).Success?
    ensures Reach(BuildTree(env).value, PathKeys(Decoded(TransformKey(env[|env| - 1].0)))) == Some(Str(env[|env| - 1].1))
  {
    var t := BuildFrom(Obj(map[]), env[..|env| - 1]).value;
    var path := TransformKey(env[|env| - 1].0);
    SetPathReadBack(t, Decoded(path), env[|env| - 1].1, Join(path, "__"));
  }

  /** The result of `parse` is always an object. */
  lemma BuildTreeIsObject(env: Env)
    requires BuildTree(env).Success?
    ensures BuildTree(env).value.Obj?
  {
    BuildFromIsObject(Obj(map[]), env);
  }

  // ---------------------------------------------------------------------
  // The imperative operations

  /** The `while` loop of `setValue` that pushes `{}` until the array covers `index`. */
  method PadArray(elems: seq<Value>, index: nat) returns (padded: seq<Value>)
    ensures padded == Padded(elems, index)
    ensures |padded| > index && |padded| >= |elems|
    ensures padded[..|elems|] == elems
    ensures forall i :: |elems| <= i < |padded| ==> padded[i] == Obj(map[])
  {
    padded := elems;
    while |padded| <= index
      invariant |elems| <= |padded| <= (if |elems| > index then |elems| else index + 1)
      invariant padded == elems + Placeholders(|padded| - |elems|)
      decreases index + 1 - |padded|
    {
      padded := padded + [Obj(map[])];
    }
  }

  /** One call of the `reduce` callback, and the rest of the path after it. */
  method SetFrom(acc: Value, parts: seq<string>, value: string, name: string) returns (r: Result<Value, EnvError>)
    ensures r == SetPath(acc, Decoded(parts), value, name)
    decreases |parts|, 2
  {
    if |parts| == 0 {
      return Success(acc);
    }
    if acc.Null? {
      return Failure(TypeError);
    }
    var partData := ParsePathPart(parts[0]);
    match partData {
      case Plain(k) =>
        r := FieldFrom(acc, k, parts, value, name);
      case Element(k, idx) =>
        r := ElementFrom(acc, k, idx, parts, value, name);
    }
  }

  /** A plain part: store the value, or make sure `acc[k]` is truthy and descend. */
  method FieldFrom(acc: Value, k: string, parts: seq<string>, value: string, name: string) returns (r: Result<Value, EnvError>)
    requires |parts| >= 1
    ensures r == SetField(acc, k, Decoded(parts), value, name)
    decreases |parts|, 1
  {
    if |parts| == 1 {
      return Assign(acc, k, Str(value));
    }
    var holder := acc;
    if !TruthyRead(Get(acc, k)) {
      var created := Assign(acc, k, Obj(map[]));
      if created.Failure? {
        return Failure(created.error);
      }
      holder := created.value;
    }
    r := DescendFrom(holder, k, parts, value, name);
  }

  /** An element part: check for the conflict, make `acc[k]` an array that covers the index, and write the element. */
  method ElementFrom(acc: Value, k: string, idx: ArrayIndex, parts: seq<string>, value: string, name: string) returns (r: Result<Value, EnvError>)
    requires |parts| >= 1
    ensures r == SetElement(acc, k, idx, Decoded(parts), value, name)
    decreases |parts|, 1
  {
    var cur := Get(acc, k);
    if TruthyRead(cur) && !cur.value.Arr? {
      return Failure(ObjectToArrayConflict(ConflictPrefix + name));
    }
    var holder := acc;
    if !TruthyRead(cur) {
      var created := Assign(acc, k, Arr([], map[]));
      if created.Failure? {
        return Failure(created.error);
      }
      holder := created.value;
    }
    var grown := GrowFrom(holder, k, idx);
    if grown.Failure? {
      return Failure(grown.error);
    }
    holder := grown.value;
    var target := Get(holder, k);
    if target.None? {
      return Failure(TypeError);
    }
    var newTarget;
    if |parts| == 1 {
      newTarget := Assign(target.value, IndexKey(idx), Str(value));
    } else {
      newTarget := DescendFrom(target.value, IndexKey(idx), parts, value, name);
    }
    if newTarget.Failure? {
      return Failure(newTarget.error);
    }
    return Assign(holder, k, newTarget.value);
  }

  /** `return holder[key]`, then the rest of the path below that child. */
  method DescendFrom(holder: Value, key: string, parts: seq<string>, value: string, name: string) returns (r: Result<Value, EnvError>)
    requires |parts| >= 2
    ensures r == Descend(holder, key, Decoded(parts), value, name)
    decreases |parts|, 0
  {
    var child := Get(holder, key);
    if child.None? {
      return Failure(TypeError);
    }
    assert Decoded(parts)[1..] == Decoded(parts[1..]);
    var sub := SetFrom(child.value, parts[1..], value, name);
    if sub.Failure? {
      return Failure(sub.error);
    }
    return Assign(holder, key, sub.value);
  }

  /** The padding loop of `setValue`, run on the array at `holder[k]`. */
  method GrowFrom(holder: Value, k: string, idx: ArrayIndex) returns (r: Result<Value, EnvError>)
    ensures r == Grow(holder, k, idx)
  {
    var found := Get(holder, k);
    if found.None? {
      return Failure(TypeError);
    }
    var arr := found.value;
    if arr.Arr? && idx.Position? {
      if idx.n >= MaxArrayLength {
        return Failure(RangeError);
      }
      if |arr.elems| <= idx.n {
        var elems := PadArray(arr.elems, idx.n);
        return Assign(holder, k, Arr(elems, arr.props));
      }
    } else if arr.Str? && idx.Position? && |arr.s| <= idx.n {
      return Failure(TypeError);
    }
    return Success(holder);
  }

  /** `setValue(obj, path, value)`. */
  method SetValue(obj: Value, path: seq<string>, value: string) returns (r: Result<Value, EnvError>)
    ensures r == SetPath(obj, Decoded(path), value, Join(path, "__"))
    ensures r.Success? && |path| >= 1 ==> Reach(r.value, PathKeys(Decoded(path))) == Some(Str(value))
  {
    r := SetFrom(obj, path, value, Join(path, "__"));
    if r.Success? && |path| >= 1 {
      SetPathReadBack(obj, Decoded(path), value, Join(path, "__"));
    }
  }

  /** `parse(envVariables)`: `setValue` for every variable, in key order, into a fresh `{}`. */
  method Parse(env: Env) returns (r: Result<Value, EnvError>)
    ensures r == BuildTree(env)
    ensures r.Success? ==> r.value.Obj?
  {
    var result := Obj(map[]);
    var i := 0;
    while i < |env|
      invariant 0 <= i <= |env|
      invariant BuildFrom(Obj(map[]), env[..i]) == Success(result)
    {
      var path := TransformKey(env[i].0);
      var step := SetValue(result, path, env[i].1);
      assert env[..i + 1][..i] == env[..i];
      if step.Failure? {
        BuildFromStops(Obj(map[]), env, i + 1);
        return Failure(step.error);
      }
      result := step.value;
      i := i + 1;
    }
    assert env[..i] == env;
    BuildTreeIsObject(env);
    return Success(result);
  }
}
