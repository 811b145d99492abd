/**
 * The JavaScript values that flow through the query compiler, with the parts of
 * the language's semantics the compiler depends on: truthiness, `typeof`,
 * `String(v)`, `Number(v)`, `isNaN`, `Math.max`/`Math.min`, the `<=` operator and
 * the SameValueZero equality used by `Set`.
 */
module JsValues {
  import opened Wrappers
  import opened JsStrings

  /** An object is an association list; its keys are its own enumerable properties. */
  datatype Value =
    | Undefined
    | Null
    | Num(n: int)
    | NaN
    | Str(s: string)
    | Arr(items: seq<Value>)
    | Obj(entries: seq<(string, Value)>)

  /** JavaScript truthiness: `undefined`, `null`, `0`, `NaN` and `''` are falsy. */
  predicate Truthy(v: Value) {
    match v
    case Undefined => false
    case Null => false
    case Num(n) => n != 0
    case NaN => false
    case Str(s) => s != ""
    case Arr(_) => true
    case Obj(_) => true
  }

  /** `typeof v === 'object'` (true of `null` and of arrays too). */
  predicate IsObjectType(v: Value) {
    v.Null? || v.Arr? || v.Obj?
  }

  /** `typeof v === 'number'` (true of `NaN` too). */
  predicate IsNumberType(v: Value) {
    v.Num? || v.NaN?
  }

  /** `String(v)`; an array joins its elements with commas, writing `null`/`undefined` as empty. */
  function ToStr(v: Value): string
    decreases v, 1
  {
    match v
    case Undefined => "undefined"
    case Null => "null"
    case Num(n) => IntToString(n)
    case NaN => "NaN"
    case Str(s) => s
    case Arr(items) => JoinItems(v, items)
    case Obj(_) => "[object Object]"
  }

  function JoinItems(ghost whole: Value, items: seq<Value>): string
    requires whole.Arr? && items <= whole.items
    decreases whole, 0, |items|
  {
    if items == [] then ""
    else
      var last := items[|items| - 1];
      var piece := if last.Null? || last.Undefined? then "" else ToStr(last);
      var init := items[..|items| - 1];
      if init == [] then piece else JoinItems(whole, init) + "," + piece
  }

  /** `Number(s)` on a string, integers only. */
  function NumberOfString(s: string): (r: Value)
    ensures r.Num? || r.NaN?
  {
    match ParseInteger(s)
    case Some(n) => Num(n)
    case None => NaN
  }

  /** `Number(v)`. */
  function ToNumber(v: Value): (r: Value)
    ensures r.Num? || r.NaN?
  {
    match v
    case Undefined => NaN
    case Null => Num(0)
    case Num(n) => Num(n)
    case NaN => NaN
    case Str(s) => NumberOfString(s)
    case Arr(_) => NumberOfString(ToStr(v))
    case Obj(_) => NaN
  }

  /** The global `isNaN(v)`. */
  predicate IsNaN(v: Value) {
    ToNumber(v).NaN?
  }

  /** The decimal form of an integer reads back as that integer. */
  lemma NumberOfIntString(n: int)
    ensures ToNumber(Str(ToStr(Num(n)))) == Num(n)
  {
    ParseIntToString(n);
  }

  /** Reading a number ignores white space around it. */
  lemma NumberOfTrim(s: string)
    ensures NumberOfString(Trim(s)) == NumberOfString(s)
  {
    ParseIntegerOfTrim(s);
  }

  function Max(a: int, b: int): int { if a < b then b else a }
  function Min(a: int, b: int): int { if a < b then a else b }

  /** `Math.max(...vs)` for at least one argument: `NaN` as soon as one argument is not a number. */
  function MathMax(vs: seq<Value>): (r: Value)
    requires |vs| > 0
    ensures r.NaN? <==> exists k :: 0 <= k < |vs| && ToNumber(vs[k]).NaN?
    ensures r.Num? ==> forall k :: 0 <= k < |vs| ==> ToNumber(vs[k]).n <= r.n
    ensures r.Num? ==> exists k :: 0 <= k < |vs| && ToNumber(vs[k]) == r
  {
    var head := ToNumber(vs[0]);
    if |vs| == 1 then head
    else
      var rest := MathMax(vs[1..]);
      assert forall k :: 1 <= k < |vs| ==> vs[k] == vs[1..][k - 1];
      if head.NaN? || rest.NaN? then NaN else Num(Max(head.n, rest.n))
  }

  /** `Math.min(...vs)` for at least one argument. */
  function MathMin(vs: seq<Value>): (r: Value)
    requires |vs| > 0
    ensures r.NaN? <==> exists k :: 0 <= k < |vs| && ToNumber(vs[k]).NaN?
    ensures r.Num? ==> forall k :: 0 <= k < |vs| ==> r.n <= ToNumber(vs[k]).n
    ensures r.Num? ==> exists k :: 0 <= k < |vs| && ToNumber(vs[k]) == r
  {
    var head := ToNumber(vs[0]);
    if |vs| == 1 then head
    else
      var rest := MathMin(vs[1..]);
      assert forall k :: 1 <= k < |vs| ==> vs[k] == vs[1..][k - 1];
      if head.NaN? || rest.NaN? then NaN else Num(Min(head.n, rest.n))
  }

  /** The primitive a value turns into before a comparison (arrays and objects become strings). */
  function ToPrimitive(v: Value): (r: Value)
    ensures !r.Arr? && !r.Obj?
  {
    if v.Arr? || v.Obj? then Str(ToStr(v)) else v
  }

  /** Lexicographic order of strings, character by character. */
  predicate StrLess(a: string, b: string) {
    if a == [] then b != []
    else if b == [] then false
    else if a[0] != b[0] then a[0] < b[0]
    else StrLess(a[1..], b[1..])
  }

  /**
   * `a <= b`: two strings compare lexicographically, anything else numerically,
   * and a comparison with `NaN` is false.
   */
  predicate LessEq(a: Value, b: Value) {
    var pa := ToPrimitive(a);
    var pb := ToPrimitive(b);
    if pa.Str? && pb.Str? then !StrLess(pb.s, pa.s)
    else
      var na := ToNumber(pa);
      var nb := ToNumber(pb);
      na.Num? && nb.Num? && na.n <= nb.n
  }

  /**
   * SameValueZero, the equality of `Set`: primitives by value, `NaN` equal to itself;
   * each array or object is taken to be a distinct allocation, equal to nothing else.
   */
  predicate Same(a: Value, b: Value) {
    !a.Arr? && !a.Obj? && a == b
  }

  lemma SameIsPartialEquivalence(a: Value, b: Value, c: Value)
    ensures Same(a, b) ==> Same(b, a)
    ensures Same(a, b) && Same(b, c) ==> Same(a, c)
  {
  }

  /** `obj[key]` for an object literal: the first entry with that key, else `undefined`. */
  function Prop(entries: seq<(string, Value)>, key: string): (r: Value)
    ensures r == Undefined || exists k :: 0 <= k < |entries| && entries[k] == (key, r)
  {
    if entries == [] then Undefined
    else if entries[0].0 == key then entries[0].1
    else
      var r := Prop(entries[1..], key);
      assert r != Undefined ==> exists k :: 1 <= k < |entries| && entries[k] == (key, r) by {
        if r != Undefined {
          var k :| 0 <= k < |entries[1..]| && entries[1..][k] == (key, r);
          assert entries[k + 1] == (key, r);
        }
      }
      r
  }

  /**
   * Reading a key gives the value of the first entry with that key, and `undefined`
   * exactly when no entry has it.
   */
  lemma {:induction false} PropFirst(entries: seq<(string, Value)>, key: string)
    ensures (forall k :: 0 <= k < |entries| ==> entries[k].0 != key) ==> Prop(entries, key) == Undefined
    ensures forall k :: 0 <= k < |entries| && entries[k].0 == key && (forall j :: 0 <= j < k ==> entries[j].0 != key)
                        ==> Prop(entries, key) == entries[k].1
  {
    if entries != [] && entries[0].0 != key {
      var rest := entries[1..];
      PropFirst(rest, key);
      assert forall k :: 1 <= k < |entries| ==> entries[k] == rest[k - 1];
    }
  }

  /** An object's keys in enumeration order. */
  function Keys(entries: seq<(string, Value)>): (r: seq<string>)
    ensures |r| == |entries|
  {
    seq(|entries|, k requires 0 <= k < |entries| => entries[k].0)
  }

  /** Reading a property of an object with a first entry in front of the rest. */
  lemma PropCons(e: (string, Value), rest: seq<(string, Value)>, key: string)
    ensures Prop([e] + rest, key) == if e.0 == key then e.1 else Prop(rest, key)
  {
    assert ([e] + rest)[1..] == rest;
  }

  lemma KeysCons(e: (string, Value), rest: seq<(string, Value)>)
    ensures Keys([e] + rest) == [e.0] + Keys(rest)
  {
    assert forall k :: 0 <= k < |rest| ==> ([e] + rest)[k + 1] == rest[k];
  }

  lemma KeysSnoc(entries: seq<(string, Value)>, e: (string, Value))
    ensures Keys(entries + [e]) == Keys(entries) + [e.0]
  {
  }

  /** `obj[key] = v`: an existing key keeps its place and takes the new value, a new key goes last. */
  function SetProp(entries: seq<(string, Value)>, key: string, v: Value): seq<(string, Value)> {
    if entries == [] then [(key, v)]
    else if entries[0].0 == key then [(key, v)] + entries[1..]
    else [entries[0]] + SetProp(entries[1..], key, v)
  }

  /** After `obj[key] = v` the key reads `v` and every other key reads as before. */
  lemma {:induction false} SetPropGet(entries: seq<(string, Value)>, key: string, v: Value, other: string)
    ensures Prop(SetProp(entries, key, v), other) == if other == key then v else Prop(entries, other)
  {
    if entries != [] {
      assert entries == [entries[0]] + entries[1..];
      PropCons(entries[0], entries[1..], other);
      if entries[0].0 == key {
        PropCons((key, v), entries[1..], other);
      } else {
        SetPropGet(entries[1..], key, v, other);
        PropCons(entries[0], SetProp(entries[1..], key, v), other);
      }
    }
  }

  /** `obj[key] = v` keeps the keys in their order and adds a new key last. */
  lemma {:induction false} SetPropKeys(entries: seq<(string, Value)>, key: string, v: Value)
    ensures Keys(SetProp(entries, key, v)) == if key in Keys(entries) then Keys(entries) else Keys(entries) + [key]
  {
    if entries != [] {
      KeysCons(entries[0], entries[1..]);
      assert entries == [entries[0]] + entries[1..];
      if entries[0].0 == key {
        KeysCons((key, v), entries[1..]);
        assert Keys(entries)[0] == key;
      } else {
        SetPropKeys(entries[1..], key, v);
        KeysCons(entries[0], SetProp(entries[1..], key, v));
      }
    }
  }
}
