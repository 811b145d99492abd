/**
 * Default values from a variable descriptor, `get_default_values`
 * (src/index.js:172-232): the descriptor's `default` replaces whatever the field
 * had, in the slot of its `default_op` (`eq` when missing).
 */
module Defaults {
  import opened Wrappers
  import opened JsValues
  import opened Operators
  import opened State

  const WrongDefaultPage := "wrong default in variable(1), pagination key takes eq operator only"
  const WrongDefaultItem := "wrong default in variable(2), object type not allowed"
  const WrongDefaultObject := "wrong default in variable(3), object type not allowed"

  /** The operator a default is stored under: `default_op` when truthy, else `'eq'`. */
  function DefaultOpOf(defaultOp: Value): (r: Value)
    ensures Truthy(r)
    ensures Truthy(defaultOp) ==> r == defaultOp
  {
    if Truthy(defaultOp) then defaultOp else Str("eq")
  }

  /** An object's properties laid out as `[key1, value1, key2, value2, ...]`. */
  function FlattenEntries(entries: seq<(string, Value)>): seq<Value> {
    if entries == [] then []
    else
      var last := entries[|entries| - 1];
      FlattenEntries(entries[..|entries| - 1]) + [Str(last.0), last.1]
  }

  /** The effect of one `get_default_values` call. */
  datatype Outcome = Outcome(fields: FieldMap, messages: seq<string>, ok: bool)

  /** The slot contents a default yields once its operator is known. */
  datatype Stored = Stored(slot: Slot, messages: seq<string>) | Refused(message: string)

  /** What the default is stored as in the slot of `op` (src/index.js:196-229). */
  function StoredDefault(name: string, op: Op, default: Value): (r: Stored)
    ensures r.Stored? && IsScalar(op) ==> r.slot.Scalar?
    ensures r.Stored? && !IsScalar(op) ==> r.slot.List?
    ensures r.Refused? ==> !IsScalar(op) && IsObjectType(default)
  {
    if IsScalar(op) then
      if default.Arr? then
        Stored(Scalar(if |default.items| > 0 then default.items[0] else Undefined), ["use default[0] only for " + name])
      else Stored(Scalar(default), [])
    else if default.Arr? then
      if exists k :: 0 <= k < |default.items| && IsObjectType(default.items[k]) then Refused(WrongDefaultItem)
      else Stored(List(default.items), [])
    else if IsObjectType(default) then
      if op == Eq && name == "sort" then Stored(List(if default.Obj? then FlattenEntries(default.entries) else []), [])
      else Refused(WrongDefaultObject)
    else Stored(List([default]), [])
  }

  /** The field is reset to a fresh accumulator, then the default goes into the slot of `op`. */
  function StoreOutcome(m: FieldMap, name: string, op: Op, default: Value): Outcome
    requires FieldsValid(m)
  {
    FreshWellShaped();
    match StoredDefault(name, op, default)
    case Refused(message) => Outcome(Put(m, name, FreshAccumulator), [message], false)
    case Stored(slot, messages) =>
      var acc := FreshAccumulator[Index(op) := slot];
      assert WellShaped(acc);
      Outcome(Put(m, name, acc), messages, true)
  }

  /** `get_default_values(name_values, name, {default, default_op}, messages)`. */
  function DefaultValues(m: FieldMap, name: string, default: Value, defaultOp: Value): (r: Outcome)
    requires FieldsValid(m)
  {
    var op := DefaultOpOf(defaultOp);
    if IsPaginationKey(name) && op != Str("eq") then Outcome(m, [WrongDefaultPage], false)
    else
      match OpNamed(op)
      case None => Outcome(m, ["not supported op: " + ToStr(op)], false)
      case Some(o) => StoreOutcome(m, name, o, default)
  }

  /**
   * The table stays well formed, no other field is touched, a failure leaves exactly one
   * message and a success at most one, and a page key only ever receives an `eq` default.
   */
  lemma DefaultValuesFrame(m: FieldMap, name: string, default: Value, defaultOp: Value)
    requires FieldsValid(m)
    ensures var r := DefaultValues(m, name, default, defaultOp);
      && FieldsValid(r.fields)
      && (!r.ok ==> |r.messages| == 1)
      && |r.messages| <= 1
      && (forall n :: n != name ==> (n in r.fields.slots <==> n in m.slots) && Lookup(r.fields, n) == Lookup(m, n))
      && (IsPaginationKey(name) && r.fields != m ==> DefaultOpOf(defaultOp) == Str("eq"))
  {
    var op := DefaultOpOf(defaultOp);
    if !(IsPaginationKey(name) && op != Str("eq")) && OpNamed(op).Some? {
      StoreOutcomeFrame(m, name, OpNamed(op).value, default);
    }
  }

  lemma StoreOutcomeFrame(m: FieldMap, name: string, op: Op, default: Value)
    requires FieldsValid(m)
    ensures var r := StoreOutcome(m, name, op, default);
      && FieldsValid(r.fields)
      && (!r.ok ==> |r.messages| == 1)
      && |r.messages| <= 1
      && (forall n :: n != name ==> (n in r.fields.slots <==> n in m.slots) && Lookup(r.fields, n) == Lookup(m, n))
  {
    FreshWellShaped();
  }

  /**
   * A stored default replaces the field: only the slot of the default's operator is
   * written, with the slot and messages the default's shape gives, whatever earlier
   * values the field had.
   */
  lemma DefaultReplaces(m: FieldMap, name: string, default: Value, defaultOp: Value)
    requires FieldsValid(m)
    ensures var r := DefaultValues(m, name, default, defaultOp);
      r.ok ==> && OpNamed(DefaultOpOf(defaultOp)).Some?
               && var op := OpNamed(DefaultOpOf(defaultOp)).value;
                  && StoredDefault(name, op, default).Stored?
                  && Lookup(r.fields, name)[Index(op)] == StoredDefault(name, op, default).slot
                  && r.messages == StoredDefault(name, op, default).messages
                  && forall j :: 0 <= j < 8 && j != Index(op) ==> Lookup(r.fields, name)[j] == Unset
  {
  }

  /**
   * A default refused for its shape (an object in a list default, an object default
   * outside `sort`) still wipes the field: the accumulator is replaced before the check.
   */
  lemma RefusedShapeWipes(m: FieldMap, name: string, default: Value, op: Op)
    requires FieldsValid(m)
    requires !IsScalar(op) && (op == Eq || !IsPaginationKey(name))
    requires || (default.Arr? && exists k :: 0 <= k < |default.items| && IsObjectType(default.items[k]))
             || ((default.Null? || default.Obj?) && !(op == Eq && name == "sort"))
    ensures var r := DefaultValues(m, name, default, Str(Name(op)));
      && !r.ok && name in r.fields.slots && Lookup(r.fields, name) == FreshAccumulator
      && r.messages == [if default.Arr? then WrongDefaultItem else WrongDefaultObject]
  {
    OpNamedName(op);
  }

  /** A refused operator changes nothing but the log. */
  lemma RefusedOpKeeps(m: FieldMap, name: string, default: Value, defaultOp: Value)
    requires FieldsValid(m)
    ensures var r := DefaultValues(m, name, default, defaultOp);
      (|| (IsPaginationKey(name) && DefaultOpOf(defaultOp) != Str("eq"))
       || OpNamed(DefaultOpOf(defaultOp)).None?) ==> r.fields == m && !r.ok
  {
  }

  /** A list default whose items are all primitives is stored as given, item for item. */
  lemma ListDefaultKept(m: FieldMap, name: string, items: seq<Value>, op: Op)
    requires FieldsValid(m)
    requires !IsScalar(op) && (op == Eq || !IsPaginationKey(name))
    requires forall k :: 0 <= k < |items| ==> !IsObjectType(items[k])
    ensures var r := DefaultValues(m, name, Arr(items), Str(Name(op)));
      r.ok && r.messages == [] && Lookup(r.fields, name)[Index(op)] == List(items)
  {
    OpNamedName(op);
  }

  /** A scalar operator keeps only the first item of a list default, and says so. */
  lemma ScalarDefaultFirst(m: FieldMap, name: string, items: seq<Value>, op: Op)
    requires FieldsValid(m)
    requires IsScalar(op) && !IsPaginationKey(name) && |items| > 0
    ensures var r := DefaultValues(m, name, Arr(items), Str(Name(op)));
      && r.ok && r.messages == ["use default[0] only for " + name]
      && Lookup(r.fields, name)[Index(op)] == Scalar(items[0])
  {
    OpNamedName(op);
  }

  /** The `sort` default `{a: 1, b: -1}` becomes the flat list `['a', 1, 'b', -1]` under `eq`. */
  lemma SortObjectFlattened(m: FieldMap, entries: seq<(string, Value)>)
    requires FieldsValid(m)
    ensures var r := DefaultValues(m, "sort", Obj(entries), Undefined);
      r.ok && r.messages == [] && Lookup(r.fields, "sort")[0] == List(FlattenEntries(entries))
  {
  }

  /** The loops of `get_default_values` that build the stored slot (src/index.js:196-229). */
  method StoreDefault(name: string, op: Op, default: Value) returns (r: Stored)
    ensures r == StoredDefault(name, op, default)
  {
    var index := Index(op);
    if IsScalarIndex(index) {
      if default.Arr? {
        var first := if |default.items| > 0 then default.items[0] else Undefined;
        return Stored(Scalar(first), ["use default[0] only for " + name]);
      }
      return Stored(Scalar(default), []);
    }
    var values: seq<Value> := [];
    if default.Arr? {
      var i := 0;
      while i < |default.items|
        invariant 0 <= i <= |default.items|
        invariant values == default.items[..i]
        invariant forall k :: 0 <= k < i ==> !IsObjectType(default.items[k])
      {
        if IsObjectType(default.items[i]) {
          return Refused(WrongDefaultItem);
        }
        values := values + [default.items[i]];
        i := i + 1;
      }
      assert default.items[..i] == default.items;
    } else if IsObjectType(default) {
      if index == 0 && name == "sort" {
        var entries := if default.Obj? then default.entries else [];
        var i := 0;
        while i < |entries|
          invariant 0 <= i <= |entries|
          invariant values == FlattenEntries(entries[..i])
        {
          assert entries[..i + 1][..i] == entries[..i];
          values := values + [Str(entries[i].0), entries[i].1];
          i := i + 1;
        }
        assert entries[..i] == entries;
      } else {
        return Refused(WrongDefaultObject);
      }
    } else {
      values := [default];
    }
    return Stored(List(values), []);
  }

  /**
   * `get_default_values` (src/index.js:181-232), updating `name_values` and pushing
   * onto `messages`; the result says whether a default was stored.
   */
  /** Resetting the field and storing the default (src/index.js:194-231). */
  method StoreInto(name: string, op: Op, default: Value, nameValues: Fields, log: Log) returns (ok: bool)
    requires nameValues.Valid()
    modifies nameValues, log
    ensures nameValues.Valid()
    ensures var r := StoreOutcome(old(nameValues.Model()), name, op, default);
      && nameValues.Model() == r.fields
      && log.messages == old(log.messages) + r.messages
      && ok == r.ok
  {
    ghost var m := nameValues.Model();
    FreshWellShaped();
    nameValues.Set(name, FreshAccumulator);
    var stored := StoreDefault(name, op, default);
    if stored.Refused? {
      log.Push(stored.message);
      return false;
    }
    var acc := FreshAccumulator[Index(op) := stored.slot];
    assert WellShaped(acc);
    PutPut(m, name, FreshAccumulator, acc);
    nameValues.Set(name, acc);
    if stored.messages != [] {
      log.Push(stored.messages[0]);
    }
    assert stored.messages == [] || stored.messages == [stored.messages[0]];
    return true;
  }

  method GetDefaultValues(name: string, default: Value, defaultOp: Value, nameValues: Fields, log: Log)
    returns (ok: bool)
    requires nameValues.Valid()
    modifies nameValues, log
    ensures nameValues.Valid()
    ensures var r := DefaultValues(old(nameValues.Model()), name, default, defaultOp);
      && nameValues.Model() == r.fields
      && log.messages == old(log.messages) + r.messages
      && ok == r.ok
  {
    ghost var m := nameValues.Model();
    var op := Str("eq");
    if Truthy(defaultOp) {
      op := defaultOp;
    }
    assert op == DefaultOpOf(defaultOp);
    if IsPaginationKey(name) && op != Str("eq") {
      log.Push(WrongDefaultPage);
      return false;
    }
    var found := OpNamed(op);
    if found.None? {
      log.Push("not supported op: " + ToStr(op));
      return false;
    }
    ok := StoreInto(name, found.value, default, nameValues, log);
  }
}
