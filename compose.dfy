/**
 * The output stage: the matrix read back as an object of operator objects
 * (`get_matrix_query`), that object without the pagination keys (`get_query`),
 * the pagination object (`get_pagination`) and the pairing of a flat array into
 * an object (`convert_array_to_object`), src/index.js:110-136 and 393-442.
 */
module Compose {
  import opened Wrappers
  import opened JsValues
  import opened Operators
  import opened State
  import opened Sort
  import opened Defaults

  /** A plain object: its properties in enumeration order. */
  type Object = seq<(string, Value)>

  /** Distinct operators have distinct names. */
  lemma NameInjective(a: Op, b: Op)
    ensures Name(a) == Name(b) ==> a == b
  {
  }

  /** The operator object of an accumulator, from slot `i` on: each truthy slot under its operator's name. */
  function SlotEntries(acc: Accumulator, i: nat): Object
    requires i <= 8
    decreases 8 - i
  {
    if i == 8 then []
    else (if SlotTruthy(acc[i]) then [(Name(Operators.Operators[i]), SlotValue(acc[i]))] else []) + SlotEntries(acc, i + 1)
  }

  /** The operator object of a whole accumulator (src/index.js:114-119). */
  function OperatorObject(acc: Accumulator): Object {
    SlotEntries(acc, 0)
  }

  /** The operator at position `i` is named `Name(op)` exactly when it is `op`. */
  lemma NameAt(i: nat, op: Op)
    requires i < 8
    ensures Name(Operators.Operators[i]) == Name(op) <==> i == Index(op)
  {
    NameInjective(Operators.Operators[i], op);
  }

  lemma {:induction false} SlotEntriesFrom(acc: Accumulator, i: nat, op: Op)
    requires i <= 8
    ensures Prop(SlotEntries(acc, i), Name(op)) ==
            if i <= Index(op) && SlotTruthy(acc[Index(op)]) then SlotValue(acc[Index(op)]) else Undefined
    decreases 8 - i
  {
    if i < 8 {
      SlotEntriesFrom(acc, i + 1, op);
      if SlotTruthy(acc[i]) {
        NameAt(i, op);
        PropCons((Name(Operators.Operators[i]), SlotValue(acc[i])), SlotEntries(acc, i + 1), Name(op));
      } else {
        assert SlotEntries(acc, i) == SlotEntries(acc, i + 1);
      }
    }
  }

  lemma {:induction false} SlotEntriesEmpty(acc: Accumulator, i: nat)
    requires i <= 8
    ensures SlotEntries(acc, i) == [] <==> forall j :: i <= j < 8 ==> !SlotTruthy(acc[j])
    decreases 8 - i
  {
    if i < 8 {
      SlotEntriesEmpty(acc, i + 1);
    }
  }

  /**
   * The operator object holds, under each operator's name, the value of that slot when it
   * is truthy, and nothing under any other key; so a `0` bound is dropped from the output.
   * It is empty exactly when no slot is truthy.
   */
  lemma OperatorObjectProp(acc: Accumulator, key: string)
    ensures Prop(OperatorObject(acc), key) ==
            match OpNamed(Str(key))
            case Some(op) => if SlotTruthy(acc[Index(op)]) then SlotValue(acc[Index(op)]) else Undefined
            case None => Undefined
    ensures OperatorObject(acc) == [] <==> forall j :: 0 <= j < 8 ==> !SlotTruthy(acc[j])
  {
    SlotEntriesEmpty(acc, 0);
    match OpNamed(Str(key))
    case Some(op) =>
      SlotEntriesFrom(acc, 0, op);
    case None =>
      OperatorKeysOnly(acc, 0, key);
  }

  lemma {:induction false} OperatorKeysOnly(acc: Accumulator, i: nat, key: string)
    requires i <= 8 && OpNamed(Str(key)).None?
    ensures Prop(SlotEntries(acc, i), key) == Undefined
    decreases 8 - i
  {
    if i < 8 {
      OperatorKeysOnly(acc, i + 1, key);
      if SlotTruthy(acc[i]) {
        assert Str(key) != Str(Name(Operators.Operators[i]));
        PropCons((Name(Operators.Operators[i]), SlotValue(acc[i])), SlotEntries(acc, i + 1), key);
      } else {
        assert SlotEntries(acc, i) == SlotEntries(acc, i + 1);
      }
    }
  }

  /** The rows of `matrix_query` for the given names, in order; a field with no truthy slot has none. */
  function Rows(m: FieldMap, names: seq<string>): Object {
    if names == [] then []
    else
      var entries := OperatorObject(Lookup(m, names[0]));
      (if entries != [] then [(names[0], Obj(entries))] else []) + Rows(m, names[1..])
  }

  /** `get_matrix_query(matrix)`. */
  function MatrixQuery(m: FieldMap): Object {
    Rows(m, m.names)
  }

  lemma {:induction false} RowsProp(m: FieldMap, names: seq<string>, key: string)
    ensures Prop(Rows(m, names), key) ==
            if key in names && OperatorObject(Lookup(m, key)) != [] then Obj(OperatorObject(Lookup(m, key))) else Undefined
  {
    if names != [] {
      RowsProp(m, names[1..], key);
      var entries := OperatorObject(Lookup(m, names[0]));
      assert key in names <==> key == names[0] || key in names[1..];
      if entries != [] {
        PropCons((names[0], Obj(entries)), Rows(m, names[1..]), key);
      } else {
        assert Rows(m, names) == Rows(m, names[1..]);
      }
    }
  }

  lemma {:induction false} RowsNotEmpty(m: FieldMap, names: seq<string>)
    ensures forall k :: 0 <= k < |Rows(m, names)| ==> Rows(m, names)[k].1.Obj? && Rows(m, names)[k].1.entries != []
  {
    if names != [] {
      RowsNotEmpty(m, names[1..]);
    }
  }

  /**
   * A field of the matrix reads back as its operator object when some slot is truthy;
   * a field without one, or a name not in the matrix, is absent; and no row is an empty object.
   */
  lemma MatrixQueryProp(m: FieldMap, key: string)
    requires FieldsValid(m)
    ensures Prop(MatrixQuery(m), key) ==
            if key in m.slots && OperatorObject(m.slots[key]) != [] then Obj(OperatorObject(m.slots[key])) else Undefined
    ensures forall k :: 0 <= k < |MatrixQuery(m)| ==> MatrixQuery(m)[k].1.Obj? && MatrixQuery(m)[k].1.entries != []
  {
    RowsProp(m, m.names, key);
    RowsNotEmpty(m, m.names);
  }

  /** `get_query(matrix_query)`: every row but those of the pagination keys. */
  function GetQuery(mq: Object): Object {
    if mq == [] then []
    else (if IsPaginationKey(mq[0].0) then [] else [mq[0]]) + GetQuery(mq[1..])
  }

  /** The query is the matrix query with the pagination keys removed, and nothing else changed. */
  lemma {:induction false} GetQueryProp(mq: Object, key: string)
    ensures Prop(GetQuery(mq), key) == if IsPaginationKey(key) then Undefined else Prop(mq, key)
    ensures key in Keys(GetQuery(mq)) <==> key in Keys(mq) && !IsPaginationKey(key)
  {
    if mq != [] {
      GetQueryProp(mq[1..], key);
      var rest := GetQuery(mq[1..]);
      KeysCons(mq[0], mq[1..]);
      PropCons(mq[0], mq[1..], key);
      assert mq == [mq[0]] + mq[1..];
      if IsPaginationKey(mq[0].0) {
        assert GetQuery(mq) == rest;
      } else {
        KeysCons(mq[0], rest);
        PropCons(mq[0], rest, key);
      }
    }
  }

  /** The characters of a string, each as a one-character string (what indexing a string gives). */
  function Chars(s: string): (r: seq<Value>)
    ensures |r| == |s| && forall k :: 0 <= k < |s| ==> r[k] == Str([s[k]])
  {
    seq(|s|, k requires 0 <= k < |s| => Str([s[k]]))
  }

  /** The loop of `convert_array_to_object`: `object[array[i]] = array[i + 1]` for i = 0, 2, 4, ... */
  function ConvertPairs(obj: Object, items: seq<Value>): Object
    decreases |items|
  {
    if items == [] then obj
    else if |items| == 1 then SetProp(obj, ToStr(items[0]), Undefined)
    else ConvertPairs(SetProp(obj, ToStr(items[0]), items[1]), items[2..])
  }

  /**
   * `convert_array_to_object(arr)`: an array or a string is read in pairs, a last key
   * without a partner gets `undefined`; anything without a length gives `{}`.
   */
  function ConvertArrayToObject(arr: Value): Object {
    match arr
    case Arr(items) => ConvertPairs([], items)
    case Str(s) => ConvertPairs([], Chars(s))
    case _ => []
  }

  /** Setting a key the object does not have adds it at the end. */
  lemma {:induction false} SetPropNew(obj: Object, key: string, v: Value)
    requires key !in Keys(obj)
    ensures SetProp(obj, key, v) == obj + [(key, v)]
  {
    if obj != [] {
      KeysCons(obj[0], obj[1..]);
      assert obj == [obj[0]] + obj[1..];
      SetPropNew(obj[1..], key, v);
      assert SetProp(obj, key, v) == [obj[0]] + SetProp(obj[1..], key, v);
    }
  }

  /** Keys that appear once each. */
  predicate DistinctKeys(entries: Object) {
    forall i, j :: 0 <= i < j < |entries| ==> entries[i].0 != entries[j].0
  }

  /** A pair added at the end of an even-length array is set last. */
  lemma {:induction false} ConvertSnoc(obj: Object, items: seq<Value>, a: Value, b: Value)
    requires |items| % 2 == 0
    ensures ConvertPairs(obj, items + [a, b]) == SetProp(ConvertPairs(obj, items), ToStr(a), b)
    decreases |items|
  {
    if items == [] {
      assert ([] + [a, b])[2..] == [];
    } else {
      assert (items + [a, b])[2..] == items[2..] + [a, b];
      ConvertSnoc(SetProp(obj, ToStr(items[0]), items[1]), items[2..], a, b);
    }
  }

  lemma {:induction false} FlattenLength(entries: Object)
    ensures |FlattenEntries(entries)| == 2 * |entries|
  {
    if entries != [] {
      FlattenLength(entries[..|entries| - 1]);
    }
  }

  lemma LastKeyFresh(entries: Object)
    requires entries != [] && DistinctKeys(entries)
    ensures DistinctKeys(entries[..|entries| - 1])
    ensures entries[|entries| - 1].0 !in Keys(entries[..|entries| - 1])
  {
    var init := entries[..|entries| - 1];
    assert forall k :: 0 <= k < |init| ==> Keys(init)[k] == entries[k].0;
  }

  lemma {:induction false} ConvertFlattened(entries: Object)
    requires DistinctKeys(entries)
    ensures ConvertPairs([], FlattenEntries(entries)) == entries
  {
    if entries != [] {
      var init := entries[..|entries| - 1];
      var last := entries[|entries| - 1];
      LastKeyFresh(entries);
      ConvertFlattened(init);
      FlattenLength(init);
      ConvertSnoc([], FlattenEntries(init), Str(last.0), last.1);
      SetPropNew(init, last.0, last.1);
      assert init + [last] == entries;
    }
  }

  /**
   * Reading the flattened form of an object (a `sort` default, `[k1, v1, k2, v2, ...]`)
   * back in pairs gives the object again.
   */
  lemma RoundTrip(entries: Object)
    requires DistinctKeys(entries)
    ensures ConvertArrayToObject(Arr(FlattenEntries(entries))) == entries
  {
    ConvertFlattened(entries);
  }

  /** Every property holds a sort direction. */
  ghost predicate DirectionsOnly(obj: Object) {
    forall key :: Prop(obj, key) == Undefined || IsDirection(Prop(obj, key))
  }

  /** Directions at the odd positions of an even-length array. */
  predicate DirectedPairs(items: seq<Value>) {
    |items| % 2 == 0 && forall k :: 0 <= k < |items| && k % 2 == 1 ==> IsDirection(items[k])
  }

  lemma DirectedPairsRest(items: seq<Value>)
    requires items != [] && DirectedPairs(items)
    ensures |items| >= 2 && IsDirection(items[1]) && DirectedPairs(items[2..])
  {
    forall k | 0 <= k < |items[2..]| && k % 2 == 1
      ensures IsDirection(items[2..][k])
    {
      assert items[2..][k] == items[k + 2] && (k + 2) % 2 == 1;
    }
  }

  /** The keys an array of pairs sets: its elements at even positions, as strings. */
  function PairKeys(items: seq<Value>): set<string>
    decreases |items|
  {
    if items == [] then {}
    else {ToStr(items[0])} + PairKeys(if |items| >= 2 then items[2..] else [])
  }

  lemma {:induction false} PairKeysAt(items: seq<Value>, k: nat)
    requires k < |items| && k % 2 == 0
    ensures ToStr(items[k]) in PairKeys(items)
    decreases k
  {
    if k >= 2 {
      assert items[2..][k - 2] == items[k] && (k - 2) % 2 == 0;
      PairKeysAt(items[2..], k - 2);
    }
  }

  lemma {:induction false} ConvertKeepsDirections(obj: Object, items: seq<Value>)
    requires DirectionsOnly(obj) && DirectedPairs(items)
    ensures DirectionsOnly(ConvertPairs(obj, items))
    decreases |items|
  {
    if items != [] {
      DirectedPairsRest(items);
      forall other {
        SetPropGet(obj, ToStr(items[0]), items[1], other);
      }
      ConvertKeepsDirections(SetProp(obj, ToStr(items[0]), items[1]), items[2..]);
    }
  }

  lemma {:induction false} ConvertDefinesKeys(obj: Object, items: seq<Value>, key: string)
    requires DirectedPairs(items)
    requires Prop(obj, key) != Undefined || key in PairKeys(items)
    ensures Prop(ConvertPairs(obj, items), key) != Undefined
    decreases |items|
  {
    if items != [] {
      DirectedPairsRest(items);
      SetPropGet(obj, ToStr(items[0]), items[1], key);
      ConvertDefinesKeys(SetProp(obj, ToStr(items[0]), items[1]), items[2..], key);
    }
  }

  /**
   * A sort list in which every field is followed by its direction reads as an object that
   * maps every field to a direction and holds nothing else.
   */
  lemma SortObject(result: seq<Value>)
    requires DirectedPairs(result)
    ensures DirectionsOnly(ConvertArrayToObject(Arr(result)))
    ensures forall k :: 0 <= k < |result| && k % 2 == 0 ==> IsDirection(Prop(ConvertArrayToObject(Arr(result)), ToStr(result[k])))
  {
    ConvertKeepsDirections([], result);
    forall k | 0 <= k < |result| && k % 2 == 0
      ensures Prop(ConvertPairs([], result), ToStr(result[k])) != Undefined
    {
      PairKeysAt(result, k);
      ConvertDefinesKeys([], result, ToStr(result[k]));
    }
  }

  /** A key no pair sets reads as it did before the conversion. */
  lemma {:induction false} ConvertUntouched(obj: Object, items: seq<Value>, key: string)
    requires key !in PairKeys(items)
    ensures Prop(ConvertPairs(obj, items), key) == Prop(obj, key)
    decreases |items|
  {
    if |items| == 1 {
      SetPropGet(obj, ToStr(items[0]), Undefined, key);
    } else if items != [] {
      SetPropGet(obj, ToStr(items[0]), items[1], key);
      ConvertUntouched(SetProp(obj, ToStr(items[0]), items[1]), items[2..], key);
    }
  }

  /** Later pairs win: a key reads the partner of its last pair. */
  lemma {:induction false} ConvertLastPair(obj: Object, items: seq<Value>, k: nat)
    requires k % 2 == 0 && k + 1 < |items|
    requires ToStr(items[k]) !in PairKeys(items[k + 2..])
    ensures Prop(ConvertPairs(obj, items), ToStr(items[k])) == items[k + 1]
    decreases k
  {
    var next := SetProp(obj, ToStr(items[0]), items[1]);
    if k == 0 {
      SetPropGet(obj, ToStr(items[0]), items[1], ToStr(items[0]));
      ConvertUntouched(next, items[2..], ToStr(items[0]));
    } else {
      assert items[2..][k - 2] == items[k] && items[2..][k - 1] == items[k + 1];
      assert items[2..][k..] == items[k + 2..];
      ConvertLastPair(next, items[2..], k - 2);
    }
  }

  /** The keys of the reference sort list are the field names of the raw list. */
  lemma {:induction false} PermissiveSortKeys(values: seq<Value>, key: string)
    requires key in PairKeys(PermissiveSort(values))
    ensures exists q :: 0 <= q < |values| && IsNaN(values[q]) && ToStr(values[q]) == key
  {
    var rest := values[1..];
    if IsNaN(values[0]) {
      var items := [values[0], LeadDirection(rest)] + PermissiveSort(rest);
      assert items[2..] == PermissiveSort(rest);
      if key != ToStr(values[0]) {
        PermissiveSortKeys(rest, key);
        var q :| 0 <= q < |rest| && IsNaN(rest[q]) && ToStr(rest[q]) == key;
        assert values[q + 1] == rest[q];
      }
    } else {
      PermissiveSortKeys(rest, key);
      var q :| 0 <= q < |rest| && IsNaN(rest[q]) && ToStr(rest[q]) == key;
      assert values[q + 1] == rest[q];
    }
  }

  /**
   * Converting the reference sort list maps the last field of each name to the direction
   * that follows it.
   */
  lemma {:induction false} PermissiveSortEntry(obj: Object, values: seq<Value>, p: nat)
    requires p < |values| && IsNaN(values[p]) && LastNamed(values, p)
    ensures Prop(ConvertPairs(obj, PermissiveSort(values)), ToStr(values[p])) == LeadDirection(values[p + 1..])
    decreases p
  {
    var rest := values[1..];
    var key := ToStr(values[p]);
    if IsNaN(values[0]) {
      var items := [values[0], LeadDirection(rest)] + PermissiveSort(rest);
      assert items[2..] == PermissiveSort(rest);
      var next := SetProp(obj, ToStr(values[0]), LeadDirection(rest));
      if p == 0 {
        if key in PairKeys(PermissiveSort(rest)) {
          PermissiveSortKeys(rest, key);
          assert false;
        }
        SetPropGet(obj, key, LeadDirection(rest), key);
        ConvertUntouched(next, PermissiveSort(rest), key);
      } else {
        assert rest[p - 1] == values[p] && rest[p..] == values[p + 1..];
        assert forall q :: p - 1 < q < |rest| ==> rest[q] == values[q + 1];
        PermissiveSortEntry(next, rest, p - 1);
      }
    } else {
      assert p > 0;
      assert rest[p - 1] == values[p] && rest[p..] == values[p + 1..];
      assert forall q :: p - 1 < q < |rest| ==> rest[q] == values[q + 1];
      PermissiveSortEntry(obj, rest, p - 1);
    }
  }


  /**
   * The reference sort list reads as an object mapping the last field of each name to the
   * direction that follows it.
   */
  lemma PermissiveSortObject(values: seq<Value>)
    ensures forall p :: 0 <= p < |values| && IsNaN(values[p]) && LastNamed(values, p) ==>
      Prop(ConvertArrayToObject(Arr(PermissiveSort(values))), ToStr(values[p])) == LeadDirection(values[p + 1..])
  {
    forall p | 0 <= p < |values| && IsNaN(values[p]) && LastNamed(values, p)
      ensures Prop(ConvertPairs([], PermissiveSort(values)), ToStr(values[p])) == LeadDirection(values[p + 1..])
    {
      PermissiveSortEntry([], values, p);
    }
  }

  /** A value without a length, an object included, converts to `{}`. */
  lemma ConvertWithoutLength(v: Value)
    requires !v.Arr? && !v.Str?
    ensures ConvertArrayToObject(v) == []
  {
  }

  /** `value.eq` for a row of the matrix query (`undefined` for anything but an object). */
  function EqOf(value: Value): Value {
    if value.Obj? then Prop(value.entries, "eq") else Undefined
  }

  /** `x.length` for an array or a string. */
  function JsLength(x: Value): Option<nat> {
    match x
    case Arr(items) => Some(|items|)
    case Str(s) => Some(|s|)
    case _ => None
  }

  /** `x[x.length - 1]`: the last element of an array or string, else `undefined`. */
  function LastItem(x: Value): Value {
    match x
    case Arr(items) => if items == [] then Undefined else items[|items| - 1]
    case Str(s) => if s == [] then Undefined else Str([s[|s| - 1]])
    case _ => Undefined
  }

  /** `!value || !value.eq || value.eq.length === 0`: the row gives no `eq` values. */
  predicate NoEqValues(value: Value) {
    !Truthy(value) || !Truthy(EqOf(value)) || JsLength(EqOf(value)) == Some(0)
  }

  /** `has_page_key`: the matrix query has a row for `page_no` or for `page_size`. */
  predicate HasPageKey(mq: Object) {
    Truthy(Prop(mq, "page_no")) || Truthy(Prop(mq, "page_size"))
  }

  /** What `get_pagination` writes under one pagination key, if anything. */
  function PaginationEntry(mq: Object, cfg: Object, hasPageKey: bool, key: string): Option<Value> {
    var value := Prop(mq, key);
    if NoEqValues(value) then
      if key == "sort" then
        if Truthy(Prop(cfg, key)) then Some(Obj(ConvertArrayToObject(Prop(cfg, key)))) else None
      else if hasPageKey then
        Some(if Truthy(Prop(cfg, key)) then Prop(cfg, key) else Num(PageSizeDefault))
      else None
    else if key == "sort" then Some(Obj(ConvertArrayToObject(EqOf(value))))
    else if hasPageKey then Some(LastItem(EqOf(value)))
    else None
  }

  /** The pagination object after the given keys have been handled, in order. */
  function PaginationOf(mq: Object, cfg: Object, hasPageKey: bool, keys: seq<string>): Object {
    if keys == [] then []
    else
      var obj := PaginationOf(mq, cfg, hasPageKey, keys[..|keys| - 1]);
      match PaginationEntry(mq, cfg, hasPageKey, keys[|keys| - 1])
      case None => obj
      case Some(v) => SetProp(obj, keys[|keys| - 1], v)
  }

  /** `get_pagination(matrix_query, opts)`; never `null`, since `sort` is always seen first. */
  function Pagination(mq: Object, cfg: Object): Object {
    PaginationOf(mq, cfg, HasPageKey(mq), PaginationKeys)
  }

  lemma PaginationOfSnoc(mq: Object, cfg: Object, hasPageKey: bool, keys: seq<string>, k: string, key: string)
    ensures Prop(PaginationOf(mq, cfg, hasPageKey, keys + [k]), key) ==
            if key == k && PaginationEntry(mq, cfg, hasPageKey, k).Some? then PaginationEntry(mq, cfg, hasPageKey, k).value
            else Prop(PaginationOf(mq, cfg, hasPageKey, keys), key)
  {
    assert (keys + [k])[..|keys|] == keys;
    var obj := PaginationOf(mq, cfg, hasPageKey, keys);
    match PaginationEntry(mq, cfg, hasPageKey, k)
    case None =>
    case Some(v) => SetPropGet(obj, k, v, key);
  }

  /** Each pagination key holds what its rule gives it, and nothing else is set. */
  lemma PaginationProp(mq: Object, cfg: Object, key: string)
    ensures Prop(Pagination(mq, cfg), key) ==
            if key in PaginationKeys && PaginationEntry(mq, cfg, HasPageKey(mq), key).Some?
            then PaginationEntry(mq, cfg, HasPageKey(mq), key).value else Undefined
  {
    PaginationOfSnoc(mq, cfg, HasPageKey(mq), [], "sort", key);
    PaginationOfSnoc(mq, cfg, HasPageKey(mq), ["sort"], "page_no", key);
    PaginationOfSnoc(mq, cfg, HasPageKey(mq), ["sort", "page_no"], "page_size", key);
    assert [] + ["sort"] == ["sort"] && ["sort"] + ["page_no"] == ["sort", "page_no"];
    assert ["sort", "page_no"] + ["page_size"] == PaginationKeys;
  }

  /**
   * A page key whose row gives no `eq` values falls back to `cfg[key]`, else to
   * `page_size_default` (for `page_no` too), as soon as either page key has a row.
   */
  lemma PageKeyFallback(mq: Object, cfg: Object, key: string)
    requires key == "page_no" || key == "page_size"
    requires HasPageKey(mq) && NoEqValues(Prop(mq, key))
    ensures Prop(Pagination(mq, cfg), key) == if Truthy(Prop(cfg, key)) then Prop(cfg, key) else Num(1)
  {
    PaginationProp(mq, cfg, key);
  }

  /** A page key with `eq` values takes the last of them. */
  lemma PageKeyLast(mq: Object, cfg: Object, key: string)
    requires key == "page_no" || key == "page_size"
    requires !NoEqValues(Prop(mq, key))
    ensures Prop(Pagination(mq, cfg), key) == LastItem(EqOf(Prop(mq, key)))
  {
    PaginationProp(mq, cfg, key);
  }

  /** Without a row for either page key, the pagination holds no page key at all. */
  lemma NoPageKeyNoPage(mq: Object, cfg: Object)
    requires !HasPageKey(mq)
    ensures Prop(Pagination(mq, cfg), "page_no") == Undefined
    ensures Prop(Pagination(mq, cfg), "page_size") == Undefined
  {
    PaginationProp(mq, cfg, "page_no");
    PaginationProp(mq, cfg, "page_size");
  }

  /** `sort` is the parsed list read in pairs, else the converted `cfg.sort` when that is truthy. */
  lemma SortPagination(mq: Object, cfg: Object)
    ensures Prop(Pagination(mq, cfg), "sort") ==
            if !NoEqValues(Prop(mq, "sort")) then Obj(ConvertArrayToObject(EqOf(Prop(mq, "sort"))))
            else if Truthy(Prop(cfg, "sort")) then Obj(ConvertArrayToObject(Prop(cfg, "sort")))
            else Undefined
  {
    PaginationProp(mq, cfg, "sort");
  }

  /** `get_pagination` (src/index.js:393-434): the `has_*` flags, then one loop over the pagination keys. */
  method GetPagination(mq: Object, cfg: Object) returns (pagination: Object)
    ensures pagination == Pagination(mq, cfg)
  {
    var hasPageKey := false;
    var hasSortKey := false;
    for i := 0 to |PaginationKeys|
      invariant hasSortKey <==> 0 < i
      invariant !hasPageKey && forall j :: 1 <= j < i ==> !Truthy(Prop(mq, PaginationKeys[j]))
    {
      var key := PaginationKeys[i];
      if key == "sort" {
        hasSortKey := true;
        continue;
      }
      if Truthy(Prop(mq, key)) {
        assert 0 < i && (key == "page_no" || key == "page_size");
        hasPageKey := true;
        break;
      }
    }
    assert !hasPageKey ==> !Truthy(Prop(mq, PaginationKeys[1])) && !Truthy(Prop(mq, PaginationKeys[2]));
    assert hasSortKey && (hasPageKey <==> HasPageKey(mq));
    pagination := [];
    for i := 0 to |PaginationKeys|
      invariant pagination == PaginationOf(mq, cfg, hasPageKey, PaginationKeys[..i])
    {
      var key := PaginationKeys[i];
      assert PaginationKeys[..i + 1][..i] == PaginationKeys[..i];
      var value := Prop(mq, key);
      var eq := EqOf(value);
      if !Truthy(value) || !Truthy(eq) || JsLength(eq) == Some(0) {
        if key == "sort" {
          if hasSortKey && Truthy(Prop(cfg, key)) {
            pagination := SetProp(pagination, key, Obj(ConvertArrayToObject(Prop(cfg, key))));
          }
        } else if hasPageKey {
          if Truthy(Prop(cfg, key)) {
            pagination := SetProp(pagination, key, Prop(cfg, key));
          } else {
            pagination := SetProp(pagination, key, Num(PageSizeDefault));
          }
        }
      } else if key == "sort" {
        if hasSortKey {
          pagination := SetProp(pagination, key, Obj(ConvertArrayToObject(eq)));
        }
      } else if hasPageKey {
        pagination := SetProp(pagination, key, LastItem(eq));
      }
    }
    assert PaginationKeys[..|PaginationKeys|] == PaginationKeys;
  }
}
