/**
 * Value coercion and accumulation: `default_transfn` and `transform_value`
 * (src/index.js:315-391). Raw values are split on `|`, coerced one by one, and
 * added to the field's slot for the operator: appended to a list slot, folded
 * into the running maximum (gt, gte) or minimum (lte, lt) of a scalar slot.
 */
module Transform {
  import opened Wrappers
  import opened JsStrings
  import opened JsValues
  import opened Operators
  import opened Variables
  import opened State

  /** `default_transfn(x)`: numeric non-numbers become numbers, other strings are trimmed, the rest passes. */
  function DefaultCoerce(x: Value): Value {
    if !IsNumberType(x) && !IsNaN(x) then ToNumber(x)
    else if x.Str? then Str(Trim(x.s))
    else x
  }

  /**
   * What the default coercion gives: the number for anything that reads as one,
   * the trimmed text for any other string, and anything else unchanged.
   */
  lemma DefaultCoerceCases(x: Value)
    ensures !IsNaN(x) ==> DefaultCoerce(x) == ToNumber(x)
    ensures IsNaN(x) && x.Str? ==> DefaultCoerce(x) == Str(Trim(x.s))
    ensures IsNaN(x) && !x.Str? ==> DefaultCoerce(x) == x
  {
  }

  /** Coercing an already coerced value changes nothing. */
  lemma DefaultCoerceIdempotent(x: Value)
    ensures DefaultCoerce(DefaultCoerce(x)) == DefaultCoerce(x)
  {
    if IsNaN(x) && x.Str? {
      NumberOfTrim(x.s);
      TrimIdempotent(x.s);
    }
  }

  /** Under the default coercion, trimming a string first makes no difference. */
  lemma DefaultCoerceOfTrim(s: string)
    ensures DefaultCoerce(Str(Trim(s))) == DefaultCoerce(Str(s))
  {
    NumberOfTrim(s);
    TrimIdempotent(s);
  }

  /** Applying a descriptor's coercion to one value. */
  function Apply(t: TransFn, v: Value): Value {
    match t
    case DefaultTransFn => DefaultCoerce(v)
    case NumberFn => ToNumber(v)
    case Custom(f) => f(v)
  }

  /** The coerced pieces, in order. */
  function ApplyAll(t: TransFn, pieces: seq<string>): (r: seq<Value>)
    ensures |r| == |pieces|
  {
    if pieces == [] then [] else ApplyAll(t, pieces[..|pieces| - 1]) + [Apply(t, Str(pieces[|pieces| - 1]))]
  }

  /** The trimmed and coerced pieces, in order. */
  function ApplyAllTrimmed(t: TransFn, pieces: seq<string>): (r: seq<Value>)
    ensures |r| == |pieces|
  {
    if pieces == [] then [] else ApplyAllTrimmed(t, pieces[..|pieces| - 1]) + [Apply(t, Str(Trim(pieces[|pieces| - 1])))]
  }

  /** Piece `k` of the result is piece `k` of the input, coerced. */
  lemma {:induction false} ApplyAllAt(t: TransFn, pieces: seq<string>, k: nat)
    requires k < |pieces|
    ensures ApplyAll(t, pieces)[k] == Apply(t, Str(pieces[k]))
  {
    var init := pieces[..|pieces| - 1];
    var r := ApplyAll(t, pieces);
    assert r == ApplyAll(t, init) + [Apply(t, Str(pieces[|pieces| - 1]))];
    if k < |init| {
      ApplyAllAt(t, init, k);
      assert r[k] == ApplyAll(t, init)[k];
      assert pieces[k] == init[k];
    }
  }

  /** Piece `k` of the result is piece `k` of the input, trimmed and coerced. */
  lemma {:induction false} ApplyAllTrimmedAt(t: TransFn, pieces: seq<string>, k: nat)
    requires k < |pieces|
    ensures ApplyAllTrimmed(t, pieces)[k] == Apply(t, Str(Trim(pieces[k])))
  {
    var init := pieces[..|pieces| - 1];
    var r := ApplyAllTrimmed(t, pieces);
    assert r == ApplyAllTrimmed(t, init) + [Apply(t, Str(Trim(pieces[|pieces| - 1])))];
    if k < |init| {
      ApplyAllTrimmedAt(t, init, k);
      assert r[k] == ApplyAllTrimmed(t, init)[k];
      assert pieces[k] == init[k];
    }
  }

  /** Under the default coercion, trimming the pieces first changes nothing. */
  lemma {:induction false} ApplyAllTrimmedDefault(pieces: seq<string>)
    ensures ApplyAll(DefaultTransFn, pieces) == ApplyAllTrimmed(DefaultTransFn, pieces)
  {
    if pieces != [] {
      ApplyAllTrimmedDefault(pieces[..|pieces| - 1]);
      DefaultCoerceOfTrim(pieces[|pieces| - 1]);
    }
  }

  /** One element of an array value: split on `|` (untrimmed) when it is a string holding one. */
  function CoercePart(t: TransFn, part: Value): (r: seq<Value>)
    ensures |r| >= 1
  {
    if part.Str? && Includes(part.s, "|") then ApplyAll(t, Split(part.s, "|")) else [Apply(t, part)]
  }

  /** The elements of an array value, each coerced (and split), concatenated in order. */
  function CoerceParts(t: TransFn, parts: seq<Value>): (r: seq<Value>)
    ensures |r| >= |parts|
  {
    if parts == [] then [] else CoerceParts(t, parts[..|parts| - 1]) + CoercePart(t, parts[|parts| - 1])
  }

  /** The list of coerced values `transform_value` builds from a raw value (src/index.js:330-354). */
  function Coerce(t: TransFn, value: Value, op: Op): seq<Value> {
    if value.Arr? then CoerceParts(t, value.items)
    else if op != Regex && value.Str? && Includes(value.s, "|") then ApplyAllTrimmed(t, Split(value.s, "|"))
    else [Apply(t, if value.Str? then Str(Trim(value.s)) else value)]
  }

  /** Coercion yields nothing only for an empty array: the one silent no-op of `transform_value`. */
  lemma CoerceEmpty(t: TransFn, value: Value, op: Op)
    ensures Coerce(t, value, op) == [] <==> value == Arr([])
  {
  }

  /** Each value coerced on its own, in order. */
  function ApplyEach(t: TransFn, parts: seq<Value>): (r: seq<Value>)
    ensures |r| == |parts|
  {
    if parts == [] then [] else ApplyEach(t, parts[..|parts| - 1]) + [Apply(t, parts[|parts| - 1])]
  }

  /** An array of strings without `|` yields exactly one coerced value per element, in order. */
  lemma {:induction false} CoercePlainArray(t: TransFn, parts: seq<Value>)
    requires forall k :: 0 <= k < |parts| ==> parts[k].Str? && '|' !in parts[k].s
    ensures CoerceParts(t, parts) == ApplyEach(t, parts)
  {
    if parts != [] {
      var init := parts[..|parts| - 1];
      var last := parts[|parts| - 1];
      assert forall k :: 0 <= k < |init| ==> init[k] == parts[k];
      CoercePlainArray(t, init);
      MissingFirstChar(last.s, "|");
    }
  }

  /** A string holding `|` (outside `regex`) yields one value per piece between the bars. */
  lemma PipeCount(t: TransFn, s: string, op: Op)
    requires op != Regex
    ensures |Coerce(t, Str(s), op)| == |Split(s, "|")|
  {
    SplitSingle(s, "|");
  }

  /**
   * With the default coercion, `x=a|b` and `x[]=a|b` give the same values: pieces of an
   * array element are not trimmed, but the default coercion trims anyway.
   */
  lemma PipeInArrayAgrees(s: string, op: Op)
    requires op != Regex
    ensures Coerce(DefaultTransFn, Arr([Str(s)]), op) == Coerce(DefaultTransFn, Str(s), op)
  {
    var t := DefaultTransFn;
    assert CoerceParts(t, [Str(s)]) == CoercePart(t, Str(s)) by {
      assert [Str(s)][..0] == [];
    }
    if Includes(s, "|") {
      var pieces := Split(s, "|");
      assert Coerce(t, Str(s), op) == ApplyAllTrimmed(t, pieces);
      assert CoercePart(t, Str(s)) == ApplyAll(t, pieces);
      ApplyAllTrimmedDefault(pieces);
    } else {
      DefaultCoerceOfTrim(s);
    }
  }

  /** Every value in `vs` is left unchanged by the default coercion. */
  predicate AllCoerced(vs: seq<Value>) {
    forall k :: 0 <= k < |vs| ==> DefaultCoerce(vs[k]) == vs[k]
  }

  lemma AllCoercedAppend(a: seq<Value>, b: seq<Value>)
    requires AllCoerced(a) && AllCoerced(b)
    ensures AllCoerced(a + b)
  {
    forall k | 0 <= k < |a| + |b|
      ensures DefaultCoerce((a + b)[k]) == (a + b)[k]
    {
      if k < |a| {
        assert (a + b)[k] == a[k];
      } else {
        assert (a + b)[k] == b[k - |a|];
      }
    }
  }

  lemma {:induction false} ApplyAllCoerced(pieces: seq<string>)
    ensures AllCoerced(ApplyAll(DefaultTransFn, pieces))
  {
    if pieces != [] {
      var p := pieces[|pieces| - 1];
      ApplyAllCoerced(pieces[..|pieces| - 1]);
      DefaultCoerceIdempotent(Str(p));
      AllCoercedAppend(ApplyAll(DefaultTransFn, pieces[..|pieces| - 1]), [Apply(DefaultTransFn, Str(p))]);
    }
  }

  lemma {:induction false} ApplyAllTrimmedCoerced(pieces: seq<string>)
    ensures AllCoerced(ApplyAllTrimmed(DefaultTransFn, pieces))
  {
    if pieces != [] {
      var p := pieces[|pieces| - 1];
      ApplyAllTrimmedCoerced(pieces[..|pieces| - 1]);
      DefaultCoerceIdempotent(Str(Trim(p)));
      AllCoercedAppend(ApplyAllTrimmed(DefaultTransFn, pieces[..|pieces| - 1]), [Apply(DefaultTransFn, Str(Trim(p)))]);
    }
  }

  lemma {:induction false} CoercePartsCoerced(parts: seq<Value>)
    ensures AllCoerced(CoerceParts(DefaultTransFn, parts))
  {
    if parts != [] {
      var last := parts[|parts| - 1];
      CoercePartsCoerced(parts[..|parts| - 1]);
      if last.Str? && Includes(last.s, "|") {
        ApplyAllCoerced(Split(last.s, "|"));
      } else {
        DefaultCoerceIdempotent(last);
      }
      AllCoercedAppend(CoerceParts(DefaultTransFn, parts[..|parts| - 1]), CoercePart(DefaultTransFn, last));
    }
  }

  /** Every value the default coercion produces is already coerced: coercion is a projection. */
  lemma DefaultCoerceFixed(value: Value, op: Op)
    ensures AllCoerced(Coerce(DefaultTransFn, value, op))
  {
    if value.Arr? {
      CoercePartsCoerced(value.items);
    } else if op != Regex && value.Str? && Includes(value.s, "|") {
      ApplyAllTrimmedCoerced(Split(value.s, "|"));
    } else {
      DefaultCoerceIdempotent(if value.Str? then Str(Trim(value.s)) else value);
    }
  }

  /** The list a list slot holds, empty when the slot was never written. */
  function ListItems(slot: Slot): seq<Value>
    requires !slot.Scalar?
  {
    if slot.List? then slot.items else []
  }

  /** The slot for `op` after adding the non-empty coerced list `vals` (src/index.js:365-389). */
  function Accumulate(slot: Slot, op: Op, vals: seq<Value>): (r: Slot)
    requires |vals| > 0
    requires IsScalar(op) ==> !slot.List?
    requires !IsScalar(op) ==> !slot.Scalar?
    ensures IsScalar(op) ==> r.Scalar?
    ensures !IsScalar(op) ==> r.List?
  {
    var index := Index(op);
    if IsScalarIndex(index) then
      if !SlotTruthy(slot) then
        if |vals| == 1 then Scalar(vals[0])
        else if index > 4 then Scalar(MathMin(vals))
        else Scalar(MathMax(vals))
      else if index > 4 then Scalar(MathMin([slot.v] + vals))
      else Scalar(MathMax([slot.v] + vals))
    else if !SlotTruthy(slot) then assert [] + vals == vals; List(vals)
    else List(slot.items + vals)
  }

  /**
   * A list slot gets the new values after the old ones; a scalar slot whose stored value
   * is falsy (undefined, 0, '', null, NaN) takes a single new value as it is; otherwise a
   * scalar slot takes the maximum (gt, gte) or minimum (lte, lt) of the stored value, when
   * truthy, and the new ones.
   */
  lemma AccumulateCases(slot: Slot, op: Op, vals: seq<Value>)
    requires |vals| > 0
    requires IsScalar(op) ==> !slot.List?
    requires !IsScalar(op) ==> !slot.Scalar?
    ensures var r := Accumulate(slot, op, vals);
      && (!IsScalar(op) ==> r == List(ListItems(slot) + vals))
      && (IsScalar(op) && !SlotTruthy(slot) && |vals| == 1 ==> r == Scalar(vals[0]))
      && (IsScalar(op) && SlotTruthy(slot) ==>
            r == Scalar(if op == Gt || op == Gte then MathMax([slot.v] + vals) else MathMin([slot.v] + vals)))
      && (IsScalar(op) && !SlotTruthy(slot) && |vals| > 1 ==>
            r == Scalar(if op == Gt || op == Gte then MathMax(vals) else MathMin(vals)))
  {
  }

  /**
   * A bound slot holding a falsy value (0, '', null, NaN) counts as empty: the new values
   * are taken as if the slot were unset, so a single value replaces the stored one.
   */
  lemma FalsyBoundReplaced(v: Value, op: Op, vals: seq<Value>)
    requires IsScalar(op) && |vals| > 0 && !Truthy(v)
    ensures Accumulate(Scalar(v), op, vals) == Accumulate(Unset, op, vals)
    ensures |vals| == 1 ==> Accumulate(Scalar(v), op, vals) == Scalar(vals[0])
  {
  }

  /** A slot after several `transform_value` calls with the same operator. */
  function AccumulateAll(slot: Slot, op: Op, batches: seq<seq<Value>>): (r: Slot)
    requires forall k :: 0 <= k < |batches| ==> |batches[k]| > 0
    requires IsScalar(op) ==> !slot.List?
    requires !IsScalar(op) ==> !slot.Scalar?
    ensures IsScalar(op) ==> !r.List?
    ensures !IsScalar(op) ==> !r.Scalar?
  {
    if batches == [] then slot
    else Accumulate(AccumulateAll(slot, op, batches[..|batches| - 1]), op, batches[|batches| - 1])
  }

  function Flatten(batches: seq<seq<Value>>): seq<Value> {
    if batches == [] then [] else Flatten(batches[..|batches| - 1]) + batches[|batches| - 1]
  }

  /** A list slot collects every value of every call, in order. */
  lemma {:induction false} ListCollectsAll(op: Op, batches: seq<seq<Value>>)
    requires !IsScalar(op)
    requires forall k :: 0 <= k < |batches| ==> |batches[k]| > 0
    ensures AccumulateAll(Unset, op, batches) == if batches == [] then Unset else List(Flatten(batches))
  {
    if |batches| > 1 {
      ListCollectsAll(op, batches[..|batches| - 1]);
    }
  }

  predicate NonZeroNumbers(vs: seq<Value>) {
    forall k :: 0 <= k < |vs| ==> vs[k].Num? && vs[k].n != 0
  }

  lemma FlattenSnoc(init: seq<seq<Value>>, last: seq<Value>)
    ensures Flatten(init + [last]) == Flatten(init) + last
  {
    assert (init + [last])[..|init|] == init;
  }

  /** One more gt/gte call on a stored non-zero number: the new maximum bounds both and is one of them. */
  lemma MaxStep(p: Value, last: seq<Value>)
    requires p.Num? && p.n != 0 && |last| > 0 && NonZeroNumbers(last)
    ensures var m := MathMax([p] + last);
      && m.Num? && p.n <= m.n && (forall k :: 0 <= k < |last| ==> last[k].n <= m.n)
      && (m == p || exists k :: 0 <= k < |last| && last[k] == m)
  {
    var vs := [p] + last;
    assert vs[0] == p;
    assert forall k :: 0 <= k < |last| ==> vs[k + 1] == last[k];
    assert forall k :: 0 <= k < |vs| ==> vs[k].Num?;
    var m := MathMax(vs);
    var j :| 0 <= j < |vs| && ToNumber(vs[j]) == m;
    if j > 0 {
      assert last[j - 1] == m;
    }
  }

  /** One more lt/lte call on a stored non-zero number. */
  lemma MinStep(p: Value, last: seq<Value>)
    requires p.Num? && p.n != 0 && |last| > 0 && NonZeroNumbers(last)
    ensures var m := MathMin([p] + last);
      && m.Num? && m.n <= p.n && (forall k :: 0 <= k < |last| ==> m.n <= last[k].n)
      && (m == p || exists k :: 0 <= k < |last| && last[k] == m)
  {
    var vs := [p] + last;
    assert vs[0] == p;
    assert forall k :: 0 <= k < |last| ==> vs[k + 1] == last[k];
    assert forall k :: 0 <= k < |vs| ==> vs[k].Num?;
    var m := MathMin(vs);
    var j :| 0 <= j < |vs| && ToNumber(vs[j]) == m;
    if j > 0 {
      assert last[j - 1] == m;
    }
  }

  /** The first gt/gte call on an empty slot keeps the maximum of its values. */
  lemma MaxFirst(op: Op, last: seq<Value>)
    requires op == Gt || op == Gte
    requires |last| > 0 && NonZeroNumbers(last)
    ensures var r := Accumulate(Unset, op, last);
      && r.Scalar? && r.v.Num?
      && (forall k :: 0 <= k < |last| ==> last[k].n <= r.v.n)
      && (exists k :: 0 <= k < |last| && last[k] == r.v)
  {
    assert forall k :: 0 <= k < |last| ==> ToNumber(last[k]) == last[k];
    if |last| > 1 {
      var m := MathMax(last);
      var j :| 0 <= j < |last| && ToNumber(last[j]) == m;
    }
  }

  /** The first lt/lte call on an empty slot keeps the minimum of its values. */
  lemma MinFirst(op: Op, last: seq<Value>)
    requires op == Lt || op == Lte
    requires |last| > 0 && NonZeroNumbers(last)
    ensures var r := Accumulate(Unset, op, last);
      && r.Scalar? && r.v.Num?
      && (forall k :: 0 <= k < |last| ==> r.v.n <= last[k].n)
      && (exists k :: 0 <= k < |last| && last[k] == r.v)
  {
    assert forall k :: 0 <= k < |last| ==> ToNumber(last[k]) == last[k];
    if |last| > 1 {
      var m := MathMin(last);
      var j :| 0 <= j < |last| && ToNumber(last[j]) == m;
    }
  }

  /**
   * `x>a`, `x>b`, ... leave the greatest of all the values in the gt (or gte) slot,
   * as long as no value is 0 (a stored 0 is falsy and would be overwritten).
   */
  lemma {:induction false} RunningMax(op: Op, batches: seq<seq<Value>>)
    requires op == Gt || op == Gte
    requires |batches| > 0 && forall k :: 0 <= k < |batches| ==> |batches[k]| > 0
    requires NonZeroNumbers(Flatten(batches))
    ensures var r := AccumulateAll(Unset, op, batches);
      && r.Scalar? && r.v.Num?
      && (forall k :: 0 <= k < |Flatten(batches)| ==> Flatten(batches)[k].n <= r.v.n)
      && (exists k :: 0 <= k < |Flatten(batches)| && Flatten(batches)[k] == r.v)
  {
    var init := batches[..|batches| - 1];
    var last := batches[|batches| - 1];
    assert batches == init + [last];
    FlattenSnoc(init, last);
    var all := Flatten(batches);
    var n := |Flatten(init)|;
    assert forall k :: 0 <= k < |last| ==> last[k] == all[n + k];
    assert forall k :: 0 <= k < n ==> Flatten(init)[k] == all[k];
    assert NonZeroNumbers(last);
    if init == [] {
      assert all == last;
      MaxFirst(op, last);
    } else {
      assert NonZeroNumbers(Flatten(init));
      RunningMax(op, init);
      var prev := AccumulateAll(Unset, op, init);
      var j :| 0 <= j < n && Flatten(init)[j] == prev.v;
      MaxStep(prev.v, last);
      var m := MathMax([prev.v] + last);
      assert AccumulateAll(Unset, op, batches) == Scalar(m);
      if m == prev.v {
        assert all[j] == m;
      } else {
        var k :| 0 <= k < |last| && last[k] == m;
        assert all[n + k] == m;
      }
    }
  }

  /** `x<a`, `x<b`, ... leave the least of all the values in the lt (or lte) slot, no value being 0. */
  lemma {:induction false} RunningMin(op: Op, batches: seq<seq<Value>>)
    requires op == Lt || op == Lte
    requires |batches| > 0 && forall k :: 0 <= k < |batches| ==> |batches[k]| > 0
    requires NonZeroNumbers(Flatten(batches))
    ensures var r := AccumulateAll(Unset, op, batches);
      && r.Scalar? && r.v.Num?
      && (forall k :: 0 <= k < |Flatten(batches)| ==> r.v.n <= Flatten(batches)[k].n)
      && (exists k :: 0 <= k < |Flatten(batches)| && Flatten(batches)[k] == r.v)
  {
    var init := batches[..|batches| - 1];
    var last := batches[|batches| - 1];
    assert batches == init + [last];
    FlattenSnoc(init, last);
    var all := Flatten(batches);
    var n := |Flatten(init)|;
    assert forall k :: 0 <= k < |last| ==> last[k] == all[n + k];
    assert forall k :: 0 <= k < n ==> Flatten(init)[k] == all[k];
    assert NonZeroNumbers(last);
    if init == [] {
      assert all == last;
      MinFirst(op, last);
    } else {
      assert NonZeroNumbers(Flatten(init));
      RunningMin(op, init);
      var prev := AccumulateAll(Unset, op, init);
      var j :| 0 <= j < n && Flatten(init)[j] == prev.v;
      MinStep(prev.v, last);
      var m := MathMin([prev.v] + last);
      assert AccumulateAll(Unset, op, batches) == Scalar(m);
      if m == prev.v {
        assert all[j] == m;
      } else {
        var k :| 0 <= k < |last| && last[k] == m;
        assert all[n + k] == m;
      }
    }
  }

  /** `name_values` after adding the non-empty coerced list `vals` under `op`. */
  function AddValues(m: FieldMap, name: string, op: Op, vals: seq<Value>): (r: FieldMap)
    requires FieldsValid(m) && |vals| > 0
    ensures FieldsValid(r)
    ensures name in r.slots
    ensures Lookup(r, name)[Index(op)] == Accumulate(Lookup(m, name)[Index(op)], op, vals)
    ensures forall i :: 0 <= i < 8 && i != Index(op) ==> Lookup(r, name)[i] == Lookup(m, name)[i]
    ensures forall n :: n != name ==> (n in r.slots <==> n in m.slots) && Lookup(r, n) == Lookup(m, n)
    ensures r.names == if name in m.slots then m.names else m.names + [name]
  {
    var acc := Lookup(m, name);
    var i := Index(op);
    var acc' := acc[i := Accumulate(acc[i], op, vals)];
    assert WellShaped(acc') by {
      assert WellShaped(acc);
    }
    Put(m, name, acc')
  }

  /** `name_values` after `transform_value(variable, name, value, op, name_values)`. */
  function Transformed(m: FieldMap, t: TransFn, name: string, value: Value, op: Op): (r: FieldMap)
    requires FieldsValid(m)
    ensures FieldsValid(r)
  {
    var vals := Coerce(t, value, op);
    if vals == [] then m else AddValues(m, name, op, vals)
  }

  lemma ApplyAllSnoc(t: TransFn, pieces: seq<string>, j: nat)
    requires j < |pieces|
    ensures ApplyAll(t, pieces[..j + 1]) == ApplyAll(t, pieces[..j]) + [Apply(t, Str(pieces[j]))]
    ensures ApplyAllTrimmed(t, pieces[..j + 1]) == ApplyAllTrimmed(t, pieces[..j]) + [Apply(t, Str(Trim(pieces[j])))]
  {
    assert pieces[..j + 1][..j] == pieces[..j];
  }

  lemma CoercePartsSnoc(t: TransFn, parts: seq<Value>, i: nat)
    requires i < |parts|
    ensures CoerceParts(t, parts[..i + 1]) == CoerceParts(t, parts[..i]) + CoercePart(t, parts[i])
  {
    assert parts[..i + 1][..i] == parts[..i];
  }

  /** The inner loop over the `|`-separated pieces of one array element (src/index.js:334-338). */
  method CoercePieces(t: TransFn, pieces: seq<string>) returns (vals: seq<Value>)
    ensures vals == ApplyAll(t, pieces)
  {
    vals := [];
    var j := 0;
    while j < |pieces|
      invariant 0 <= j <= |pieces|
      invariant vals == ApplyAll(t, pieces[..j])
    {
      ApplyAllSnoc(t, pieces, j);
      vals := vals + [Apply(t, Str(pieces[j]))];
      j := j + 1;
    }
    assert pieces[..j] == pieces;
  }

  /** The coercion loop over an array value's elements (src/index.js:330-343). */
  method CoerceArray(t: TransFn, parts: seq<Value>) returns (vals: seq<Value>)
    ensures vals == CoerceParts(t, parts)
  {
    vals := [];
    var i := 0;
    while i < |parts|
      invariant 0 <= i <= |parts|
      invariant vals == CoerceParts(t, parts[..i])
    {
      var part := parts[i];
      CoercePartsSnoc(t, parts, i);
      var more: seq<Value>;
      if part.Str? && Includes(part.s, "|") {
        more := CoercePieces(t, Split(part.s, "|"));
      } else {
        more := [Apply(t, part)];
      }
      assert more == CoercePart(t, part);
      vals := vals + more;
      i := i + 1;
    }
    assert parts[..i] == parts;
  }

  /** The coerced list `transform_value` builds before touching `name_values` (src/index.js:327-354). */
  method CoerceValue(t: TransFn, value: Value, op: Op) returns (vals: seq<Value>)
    ensures vals == Coerce(t, value, op)
  {
    if value.Arr? {
      vals := CoerceArray(t, value.items);
    } else if op != Regex && value.Str? && Includes(value.s, "|") {
      var pieces := Split(value.s, "|");
      vals := [];
      var j := 0;
      while j < |pieces|
        invariant 0 <= j <= |pieces|
        invariant vals == ApplyAllTrimmed(t, pieces[..j])
      {
        ApplyAllSnoc(t, pieces, j);
        vals := vals + [Apply(t, Str(Trim(pieces[j])))];
        j := j + 1;
      }
      assert pieces[..j] == pieces;
    } else {
      var v := if value.Str? then Str(Trim(value.s)) else value;
      vals := [Apply(t, v)];
    }
  }

  /**
   * `transform_value` (src/index.js:325-391): coerce the raw value and add it to the
   * field's slot for `op`; false, with nothing changed, only for an empty array.
   */
  method TransformValue(variable: Variable, name: string, value: Value, op: Op, nameValues: Fields)
    returns (ok: bool)
    requires nameValues.Valid()
    modifies nameValues
    ensures nameValues.Valid()
    ensures ok <==> value != Arr([])
    ensures nameValues.Model() == Transformed(old(nameValues.Model()), variable.transfn, name, value, op)
  {
    var vals := CoerceValue(variable.transfn, value, op);
    CoerceEmpty(variable.transfn, value, op);
    if |vals| == 0 {
      return false;
    }
    var acc := Lookup(nameValues.Model(), name);
    var index := Index(op);
    var slot := acc[index];
    assert WellShaped(acc);
    var updated: Slot;
    if IsScalarIndex(index) {
      if !SlotTruthy(slot) {
        if |vals| == 1 {
          updated := Scalar(vals[0]);
        } else if index > 4 {
          updated := Scalar(MathMin(vals));
        } else {
          updated := Scalar(MathMax(vals));
        }
      } else if index > 4 {
        updated := Scalar(MathMin([slot.v] + vals));
      } else {
        updated := Scalar(MathMax([slot.v] + vals));
      }
    } else if !SlotTruthy(slot) {
      updated := List(vals);
    } else {
      updated := List(slot.items + vals);
    }
    assert updated == Accumulate(slot, op, vals);
    nameValues.Set(name, acc[index := updated]);
    ok := true;
  }
}
