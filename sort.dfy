/**
 * The `sort` parameter, `parse_sort_array` and `get_sort_values`
 * (src/index.js:268-313): the values given for `sort` become a list of field names,
 * each followed by its direction, 1 or -1.
 */
module Sort {
  import opened Wrappers
  import opened JsStrings
  import opened JsValues
  import opened Operators
  import opened Variables
  import opened State

  /** A sort direction: the number 1 or -1. */
  predicate IsDirection(v: Value) {
    v == Num(1) || v == Num(-1)
  }

  /** Field names are checked against the schema when both a lookup and a name transform are set. */
  predicate Strict(opts: Opts) {
    opts.lookup.Some? && opts.transformName.Some?
  }

  function UnexpectedMessage(value: Value): string {
    "skipped, unexpected " + ToStr(value)
  }

  function NotAllowedMessage(value: Value): string {
    "skipped, sort by field not allowed: " + ToStr(value)
  }

  const NoSortMessage := "skipped, due no value for sort"

  /** The parser's variables: the list built so far, whether a direction may come next, the messages. */
  datatype SortState = SortState(result: seq<Value>, expecting: bool, messages: seq<string>)

  /**
   * One value of the loop. A value that reads as a number is taken as the direction of
   * the field before it when it is 1 or -1 and a direction is expected, and is skipped
   * otherwise. Any other value is a field: a pending field first gets direction 1, then
   * the field is added (in strict mode under its transformed name, if the schema knows it).
   */
  function SortStep(opts: Opts, st: SortState, value: Value): SortState {
    if !IsNaN(value) then
      var number := ToNumber(value);
      if IsDirection(number) && st.expecting then SortState(st.result + [number], false, st.messages)
      else SortState(st.result, st.expecting, st.messages + [UnexpectedMessage(value)])
    else
      var result := if st.expecting then st.result + [Num(1)] else st.result;
      if Strict(opts) then
        var full := opts.transformName.value(ToStr(value));
        if opts.lookup.value(full).Some? then SortState(result + [Str(full)], true, st.messages)
        else SortState(result, st.expecting, st.messages + [NotAllowedMessage(value)])
      else SortState(result + [value], true, st.messages)
  }

  /** The parser's variables after the loop has seen `values`. */
  function SortFold(opts: Opts, values: seq<Value>): SortState {
    if values == [] then SortState([], false, [])
    else SortStep(opts, SortFold(opts, values[..|values| - 1]), values[|values| - 1])
  }

  /** `parse_sort_array(values, opts)`: the loop, then direction 1 for a last field still without one. */
  function ParsedSort(opts: Opts, values: seq<Value>): SortState {
    var st := SortFold(opts, values);
    SortState(if st.expecting then st.result + [Num(1)] else st.result, false, st.messages)
  }

  /** The list before a field is added: a field still waiting for its direction gets 1. */
  function Pending(st: SortState): seq<Value> {
    if st.expecting then st.result + [Num(1)] else st.result
  }

  /**
   * The four things one step can do to the list, for a value that is a field name
   * (`field`) or not: add a direction, skip the value, add a field (after a pending 1),
   * or, in strict mode, refuse the field (still settling a pending 1).
   */
  predicate StepShaped(st: SortState, r: SortState, field: bool, strict: bool, v: Value) {
    var p := Pending(st);
    || (!field && st.expecting && |r.result| == |st.result| + 1 && r.result[..|st.result|] == st.result
        && IsDirection(r.result[|st.result|]) && !r.expecting)
    || (!field && r.result == st.result && r.expecting == st.expecting)
    || (field && r.expecting && |r.result| == |p| + 1 && r.result[..|p|] == p
        && !IsDirection(r.result[|p|]) && (!strict ==> r.result[|p|] == v))
    || (field && strict && r.result == p && r.expecting == st.expecting)
  }

  lemma StepShape(opts: Opts, st: SortState, v: Value)
    ensures StepShaped(st, SortStep(opts, st, v), IsNaN(v), Strict(opts), v)
  {
  }

  /** The values that are field names (those `isNaN` holds of), in order. */
  function FieldTokens(values: seq<Value>): seq<Value> {
    if values == [] then []
    else FieldTokens(values[..|values| - 1]) + if IsNaN(values[|values| - 1]) then [values[|values| - 1]] else []
  }

  /** `result` is `f0, d0, f1, d1, ...`: the fields in order, each followed by a direction. */
  predicate Paired(result: seq<Value>, fields: seq<Value>) {
    && |result| == 2 * |fields|
    && (forall k :: 0 <= k < |fields| ==> result[2 * k] == fields[k])
    && (forall k :: 0 <= k < |result| && k % 2 == 1 ==> IsDirection(result[k]))
  }

  /** The list so far pairs `f` with directions, with the last field possibly still pending. */
  predicate PairedSoFar(st: SortState, f: seq<Value>) {
    && (st.expecting ==> |f| > 0 && |st.result| == 2 * |f| - 1)
    && (!st.expecting ==> |st.result| == 2 * |f|)
    && (forall k :: 0 <= k < |f| ==> st.result[2 * k] == f[k])
    && (forall k :: 0 <= k < |st.result| && k % 2 == 1 ==> IsDirection(st.result[k]))
  }

  lemma PermissiveStep(st: SortState, r: SortState, f: seq<Value>, field: bool, v: Value)
    requires PairedSoFar(st, f) && StepShaped(st, r, field, false, v)
    ensures PairedSoFar(r, if field then f + [v] else f)
  {
    var n := |st.result|;
    if field {
      var p := Pending(st);
      var f' := f + [v];
      assert |p| == 2 * |f| && |r.result| == |p| + 1;
      forall k | 0 <= k < |f'|
        ensures r.result[2 * k] == f'[k]
      {
        if k < |f| {
          assert 2 * k < n;
          assert r.result[..|p|][2 * k] == p[2 * k];
        }
      }
      forall k | 0 <= k < |r.result| && k % 2 == 1
        ensures IsDirection(r.result[k])
      {
        assert k < |p|;
        assert r.result[..|p|][k] == p[k];
      }
    } else if st.expecting && |r.result| == n + 1 && r.result[..n] == st.result {
      forall k | 0 <= k < |f|
        ensures r.result[2 * k] == f[k]
      {
        assert 2 * k < n;
        assert r.result[..n][2 * k] == st.result[2 * k];
      }
      forall k | 0 <= k < |r.result| && k % 2 == 1
        ensures IsDirection(r.result[k])
      {
        if k < n {
          assert r.result[..n][k] == st.result[k];
        }
      }
    }
  }

  lemma {:induction false} PermissiveFold(opts: Opts, values: seq<Value>)
    requires !Strict(opts)
    ensures PairedSoFar(SortFold(opts, values), FieldTokens(values))
  {
    if values != [] {
      var init := values[..|values| - 1];
      var v := values[|values| - 1];
      PermissiveFold(opts, init);
      StepShape(opts, SortFold(opts, init), v);
      PermissiveStep(SortFold(opts, init), SortFold(opts, values), FieldTokens(init), IsNaN(v), v);
      assert FieldTokens(values) == FieldTokens(init) + if IsNaN(v) then [v] else [];
    }
  }

  /**
   * Without a schema check, the parsed sort is exactly the field values in the order
   * given, each followed by a direction (which one: `PermissiveSortSpec`).
   */
  lemma PermissivePairs(opts: Opts, values: seq<Value>)
    requires !Strict(opts)
    ensures Paired(ParsedSort(opts, values).result, FieldTokens(values))
  {
    PermissiveFold(opts, values);
  }

  // ---------------------------------------------------------------------------
  // A reference reading of the permissive parse
  // ---------------------------------------------------------------------------

  /**
   * The direction a field gets from the values after it: the first 1 or -1 among the
   * numbers that come before the next field, else 1.
   */
  function LeadDirection(rest: seq<Value>): (d: Value)
    ensures IsDirection(d)
  {
    if rest == [] || IsNaN(rest[0]) then Num(1)
    else if IsDirection(ToNumber(rest[0])) then ToNumber(rest[0])
    else LeadDirection(rest[1..])
  }

  /** Every field of `values`, in order, each followed by its lead direction. */
  function PermissiveSort(values: seq<Value>): seq<Value> {
    if values == [] then []
    else if IsNaN(values[0]) then [values[0], LeadDirection(values[1..])] + PermissiveSort(values[1..])
    else PermissiveSort(values[1..])
  }

  /**
   * One "skipped, unexpected" message for every number that is not the first 1 or -1
   * after a field; `open` says that a field before `values` still awaits its direction.
   */
  function Unexpected(values: seq<Value>, open: bool): seq<string> {
    if values == [] then []
    else if IsNaN(values[0]) then Unexpected(values[1..], true)
    else if open && IsDirection(ToNumber(values[0])) then Unexpected(values[1..], false)
    else [UnexpectedMessage(values[0])] + Unexpected(values[1..], open)
  }

  /** The loop run from state `st` over `values`, first value first. */
  function SortRun(opts: Opts, st: SortState, values: seq<Value>): SortState
    decreases |values|
  {
    if values == [] then st else SortRun(opts, SortStep(opts, st, values[0]), values[1..])
  }

  lemma {:induction false} SortRunSnoc(opts: Opts, st: SortState, values: seq<Value>, v: Value)
    ensures SortRun(opts, st, values + [v]) == SortStep(opts, SortRun(opts, st, values), v)
    decreases |values|
  {
    if values == [] {
      assert [v][1..] == [];
    } else {
      assert (values + [v])[1..] == values[1..] + [v];
      SortRunSnoc(opts, SortStep(opts, st, values[0]), values[1..], v);
    }
  }

  lemma {:induction false} SortFoldRun(opts: Opts, values: seq<Value>)
    ensures SortFold(opts, values) == SortRun(opts, SortState([], false, []), values)
  {
    if values != [] {
      var init := values[..|values| - 1];
      SortFoldRun(opts, init);
      SortRunSnoc(opts, SortState([], false, []), init, values[|values| - 1]);
      assert init + [values[|values| - 1]] == values;
    }
  }

  /**
   * Without a schema check, running the loop from any state adds the lead direction of a
   * pending field, then every field with its lead direction, and the unexpected messages.
   */
  lemma {:induction false} PermissiveRun(opts: Opts, st: SortState, values: seq<Value>)
    requires !Strict(opts)
    ensures var r := SortRun(opts, st, values);
      && Pending(r) == st.result + (if st.expecting then [LeadDirection(values)] else []) + PermissiveSort(values)
      && r.messages == st.messages + Unexpected(values, st.expecting)
    decreases |values|
  {
    if values != [] {
      var v := values[0];
      var rest := values[1..];
      var next := SortStep(opts, st, v);
      PermissiveRun(opts, next, rest);
      if IsNaN(v) {
        assert next.result == st.result + (if st.expecting then [Num(1)] else []) + [v];
      } else if st.expecting && IsDirection(ToNumber(v)) {
        assert next.result == st.result + [ToNumber(v)];
      } else {
        assert next.messages == st.messages + [UnexpectedMessage(v)];
      }
    }
  }

  /**
   * Without a schema check, the parsed sort is every field of the raw list in order, each
   * followed by the first 1 or -1 after it (before the next field), else by 1; every
   * other number is reported as unexpected.
   */
  lemma PermissiveSortSpec(opts: Opts, values: seq<Value>)
    requires !Strict(opts)
    ensures ParsedSort(opts, values) == SortState(PermissiveSort(values), false, Unexpected(values, false))
  {
    SortFoldRun(opts, values);
    PermissiveRun(opts, SortState([], false, []), values);
  }

  /** No field after position `p` has the same name as the field at `p`. */
  predicate LastNamed(values: seq<Value>, p: nat)
    requires p < |values|
  {
    forall q :: p < q < |values| && IsNaN(values[q]) ==> ToStr(values[q]) != ToStr(values[p])
  }

  /** Every field is immediately followed by a direction, and a field is never left pending. */
  predicate Directed(result: seq<Value>) {
    forall k :: 0 <= k < |result| && !IsDirection(result[k]) ==> k + 1 < |result| && IsDirection(result[k + 1])
  }

  /** Every field but a pending last one is followed by a direction. */
  predicate DirectedSoFar(st: SortState) {
    && (forall k :: 0 <= k < |st.result| - 1 && !IsDirection(st.result[k]) ==> IsDirection(st.result[k + 1]))
    && (|st.result| > 0 && !IsDirection(st.result[|st.result| - 1]) ==> st.expecting)
  }

  lemma DirectedStep(st: SortState, r: SortState, field: bool, strict: bool, v: Value)
    requires DirectedSoFar(st) && StepShaped(st, r, field, strict, v)
    ensures DirectedSoFar(r)
  {
    var p := Pending(st);
    assert |p| > 0 ==> IsDirection(p[|p| - 1]);
    if field && r.expecting && |r.result| == |p| + 1 {
      assert forall k :: 0 <= k < |p| ==> r.result[k] == p[k];
    }
  }

  lemma {:induction false} DirectedFold(opts: Opts, values: seq<Value>)
    ensures DirectedSoFar(SortFold(opts, values))
  {
    if values != [] {
      var init := values[..|values| - 1];
      var v := values[|values| - 1];
      DirectedFold(opts, init);
      StepShape(opts, SortFold(opts, init), v);
      DirectedStep(SortFold(opts, init), SortFold(opts, values), IsNaN(v), Strict(opts), v);
    }
  }

  /** In either mode every field in the parsed sort has a direction right after it. */
  lemma ParsedDirected(opts: Opts, values: seq<Value>)
    ensures Directed(ParsedSort(opts, values).result)
  {
    DirectedFold(opts, values);
  }

  /** In strict mode, everything that is not a direction is a transformed name the schema knows. */
  predicate OnlyKnownFields(result: seq<Value>, lookup: string -> Option<Variable>) {
    forall k :: 0 <= k < |result| && !IsDirection(result[k]) ==> result[k].Str? && lookup(result[k].s).Some?
  }

  lemma {:induction false} StrictFold(opts: Opts, values: seq<Value>)
    requires Strict(opts)
    ensures OnlyKnownFields(SortFold(opts, values).result, opts.lookup.value)
  {
    if values != [] {
      StrictFold(opts, values[..|values| - 1]);
    }
  }

  /** Strict mode only ever sorts by fields the schema allows, named as the transform names them. */
  lemma StrictOnlyKnown(opts: Opts, values: seq<Value>)
    requires Strict(opts)
    ensures OnlyKnownFields(ParsedSort(opts, values).result, opts.lookup.value)
  {
    StrictFold(opts, values);
  }

  /**
   * In strict mode a refused field leaves the direction of the field before it pending,
   * so that field gets 1 and then also the direction written after the refused field:
   * `sort=a|b|-1` with only `a` known parses as `a, 1, -1`.
   */
  lemma StrictRefusedFieldKeepsDirection()
    ensures var opts := Opts(None, Some((x: string) => if x == "a" then Some(Plain) else None),
                             Some((x: string) => x), []);
      var p := ParsedSort(opts, [Str("a"), Str("b"), Num(-1)]);
      && p.result == [Str("a"), Num(1), Num(-1)]
      && p.messages == [NotAllowedMessage(Str("b"))]
  {
    var opts := Opts(None, Some((x: string) => if x == "a" then Some(Plain) else None), Some((x: string) => x), []);
    var values := [Str("a"), Str("b"), Num(-1)];
    NaNWord("a");
    NaNWord("b");
    assert values[..2][..1] == values[..1] == [Str("a")] && values[..1][..0] == [];
    var s1 := SortState([Str("a")], true, []);
    assert SortFold(opts, values[..1]) == SortStep(opts, SortState([], false, []), Str("a")) == s1;
    var s2 := SortState([Str("a"), Num(1)], true, [NotAllowedMessage(Str("b"))]);
    assert SortFold(opts, values[..2]) == SortStep(opts, s1, Str("b")) == s2;
    assert SortFold(opts, values) == SortStep(opts, s2, Num(-1));
  }

  /**
   * In strict mode, a field whose schema entry is missing settles a pending direction
   * with 1 but adds nothing else, leaves the parser still expecting a direction if it
   * was, and reports the field as not allowed.
   */
  lemma StrictRefusedField(opts: Opts, st: SortState, v: Value)
    requires Strict(opts) && IsNaN(v)
    requires opts.lookup.value(opts.transformName.value(ToStr(v))).None?
    ensures var r := SortStep(opts, st, v);
      && r.result == Pending(st)
      && r.expecting == st.expecting
      && r.messages == st.messages + [NotAllowedMessage(v)]
  {
  }

  /** A one-letter word that is not a digit does not read as a number. */
  lemma NaNWord(w: string)
    requires |w| == 1 && !('0' <= w[0] <= '9') && w[0] != ' '
    requires w[0] != '\t' && w[0] != '\n' && w[0] != '\r' && w[0] != '-' && w[0] != '+'
    requires w[0] < '\U{A0}' && w[0] != '\U{B}' && w[0] != '\U{C}'
    ensures IsNaN(Str(w))
  {
    assert Trim(w) == w;
  }

  /** The list a parse leaves in the matrix: `[new_value]`, with every other operator unset. */
  function SortAccumulator(result: seq<Value>): (acc: Accumulator)
    ensures WellShaped(acc)
  {
    FreshAccumulator[0 := List(result)]
  }

  /** The loop of `parse_sort_array` (src/index.js:268-301), pushing its messages. */
  method ParseSortArray(values: seq<Value>, opts: Opts, log: Log) returns (result: seq<Value>)
    modifies log
    ensures result == ParsedSort(opts, values).result
    ensures log.messages == old(log.messages) + ParsedSort(opts, values).messages
  {
    result := [];
    var expecting := false;
    ghost var msgs: seq<string> := [];
    for i := 0 to |values|
      invariant SortFold(opts, values[..i]) == SortState(result, expecting, msgs)
      invariant log.messages == old(log.messages) + msgs
    {
      var value := values[i];
      assert values[..i + 1][..i] == values[..i];
      if !IsNaN(value) {
        var number := ToNumber(value);
        if number == Num(1) || number == Num(-1) {
          if expecting {
            result := result + [number];
            expecting := false;
            continue;
          }
        }
        log.Push(UnexpectedMessage(value));
        AppendAssoc(old(log.messages), msgs, [UnexpectedMessage(value)]);
        msgs := msgs + [UnexpectedMessage(value)];
        continue;
      }
      if expecting {
        result := result + [Num(1)];
      }
      if opts.lookup.Some? && opts.transformName.Some? {
        var full := opts.transformName.value(ToStr(value));
        if opts.lookup.value(full).Some? {
          result := result + [Str(full)];
          expecting := true;
        } else {
          log.Push(NotAllowedMessage(value));
          AppendAssoc(old(log.messages), msgs, [NotAllowedMessage(value)]);
          msgs := msgs + [NotAllowedMessage(value)];
        }
      } else {
        result := result + [value];
        expecting := true;
      }
    }
    assert values[..|values|] == values;
    if expecting {
      result := result + [Num(1)];
    }
  }

  /**
   * `get_sort_values(name_values, matrix, opts)`: the parsed eq list of `sort` goes into
   * the matrix when it is not empty; otherwise the matrix is left alone and a message says so.
   */
  method GetSortValues(opts: Opts, nameValues: Fields, matrix: Fields, log: Log)
    requires nameValues.Valid() && matrix.Valid()
    requires nameValues != matrix
    requires "sort" in nameValues.slots && nameValues.slots["sort"][0].List?
    modifies matrix, log
    ensures matrix.Valid()
    ensures var p := ParsedSort(opts, nameValues.slots["sort"][0].items);
      && (p.result != [] ==> matrix.Model() == Put(old(matrix.Model()), "sort", SortAccumulator(p.result)))
      && (p.result == [] ==> matrix.Model() == old(matrix.Model()))
      && log.messages == old(log.messages) + p.messages + if p.result == [] then [NoSortMessage] else []
  {
    var newValue := ParseSortArray(nameValues.slots["sort"][0].items, opts, log);
    if |newValue| > 0 {
      matrix.Set("sort", SortAccumulator(newValue));
    } else {
      log.Push(NoSortMessage);
    }
  }
}
