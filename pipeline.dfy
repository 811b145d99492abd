/**
 * The compiler itself: `parse_query` (src/index.js:12-38) collects the query keys
 * into `name_values`, `build_matrix` (src/index.js:138-170) adds the template
 * defaults and turns every field into its matrix entry, and the result object is
 * `{query, ...cfg}` with the pagination attached.
 */
module Pipeline {
  import opened Wrappers
  import opened JsValues
  import opened Operators
  import opened Variables
  import opened State
  import opened Tokenizer
  import opened Transform
  import opened Defaults
  import opened Resolve
  import opened Sort
  import opened Compose

  /** A table together with the messages produced while building it. */
  datatype Build = Build(fields: FieldMap, messages: seq<string>)

  // ---------------------------------------------------------------------------
  // Collecting the query keys (src/index.js:21-28)
  // ---------------------------------------------------------------------------

  /** The name a query key is filed under: its parsed name, passed through `transform_name` when given. */
  function FieldName(opts: Opts, token: Token): string {
    if opts.transformName.Some? then opts.transformName.value(token.name) else token.name
  }

  /** One pass of the query loop: a rejected name leaves a message, an accepted one its values. */
  function CollectStep(opts: Opts, b: Build, key: string, value: Value): (r: Build)
    requires FieldsValid(b.fields)
    ensures FieldsValid(r.fields)
  {
    var token := NameValueOp(key, value);
    var name := FieldName(opts, token);
    match ValidateNameOp(name, token.op, opts)
    case Reject(message) => Build(b.fields, b.messages + [message])
    case Accept(variable) => Build(Transformed(b.fields, variable.transfn, name, token.value, token.op), b.messages)
  }

  /** `name_values` and the messages after the query keys, in enumeration order. */
  function Collected(opts: Opts, queryVars: seq<(string, Value)>): (r: Build)
    ensures FieldsValid(r.fields)
  {
    if queryVars == [] then Build(EmptyFields, [])
    else
      var last := queryVars[|queryVars| - 1];
      CollectStep(opts, Collected(opts, queryVars[..|queryVars| - 1]), last.0, last.1)
  }

  /** The verdict on the `i`-th query key. */
  function VerdictAt(opts: Opts, queryVars: seq<(string, Value)>, i: nat): Verdict
    requires i < |queryVars|
  {
    var token := NameValueOp(queryVars[i].0, queryVars[i].1);
    ValidateNameOp(FieldName(opts, token), token.op, opts)
  }

  /**
   * Every field of `name_values` comes from a query key whose name was accepted, and
   * each key adds at most one message.
   */
  lemma {:induction false} CollectedFromAccepted(opts: Opts, queryVars: seq<(string, Value)>, n: string)
    ensures |Collected(opts, queryVars).messages| <= |queryVars|
    ensures n in Collected(opts, queryVars).fields.slots ==>
      exists i :: 0 <= i < |queryVars| && VerdictAt(opts, queryVars, i).Accept?
        && FieldName(opts, NameValueOp(queryVars[i].0, queryVars[i].1)) == n
  {
    if queryVars != [] {
      var k := |queryVars| - 1;
      var init := queryVars[..k];
      CollectedFromAccepted(opts, init, n);
      var b := Collected(opts, init);
      var token := NameValueOp(queryVars[k].0, queryVars[k].1);
      var name := FieldName(opts, token);
      assert VerdictAt(opts, queryVars, k) == ValidateNameOp(name, token.op, opts);
      forall i | 0 <= i < k
        ensures VerdictAt(opts, init, i) == VerdictAt(opts, queryVars, i)
        ensures queryVars[i] == init[i]
      {
      }
      match ValidateNameOp(name, token.op, opts)
      case Reject(message) =>
      case Accept(variable) =>
        var vals := Coerce(variable.transfn, token.value, token.op);
        if n in Collected(opts, queryVars).fields.slots && n != name && vals != [] {
          assert n in AddValues(b.fields, name, token.op, vals).slots;
        }
    }
  }

  // ---------------------------------------------------------------------------
  // Template defaults (src/index.js:139-160)
  // ---------------------------------------------------------------------------

  /** `v[key]` for a descriptor taken from `cfg`: a property of an object, `undefined` on an array. */
  function Member(v: Value, key: string): Value {
    if v.Obj? then Prop(v.entries, key) else Undefined
  }

  /**
   * The `default` and `default_op` handed to `get_default_values` for a template entry,
   * or none when the entry is skipped: the field already has values, the entry has no
   * default, or `cfg` holds the parsed form of a pagination key. A truthy `cfg[name]`
   * replaces the entry's default (a plain value) or the whole descriptor (an object).
   */
  function DefaultFor(m: FieldMap, cfg: Object, name: string, variable: Variable): Option<(Value, Value)> {
    if name in m.slots || variable.default == Undefined then None
    else
      var c := Prop(cfg, name);
      if !Truthy(c) then Some((variable.default, variable.defaultOp))
      else if IsPaginationKey(name) then None
      else if !IsObjectType(c) then Some((c, Undefined))
      else Some((Member(c, "default"), Member(c, "default_op")))
  }

  /** One pass of the template loop: the entry's default, if it gets one, goes through `get_default_values`. */
  function DefaultStep(b: Build, cfg: Object, entry: (string, Variable)): (r: Build)
    requires FieldsValid(b.fields)
    ensures FieldsValid(r.fields)
  {
    match DefaultFor(b.fields, cfg, entry.0, entry.1)
    case None => b
    case Some(d) =>
      DefaultValuesFrame(b.fields, entry.0, d.0, d.1);
      var r := DefaultValues(b.fields, entry.0, d.0, d.1);
      Build(r.fields, b.messages + r.messages)
  }

  /** `name_values` and the messages after the template loop has seen the given entries. */
  function WithDefaults(m: FieldMap, cfg: Object, template: seq<(string, Variable)>): (r: Build)
    requires FieldsValid(m)
    ensures FieldsValid(r.fields)
  {
    if template == [] then Build(m, [])
    else DefaultStep(WithDefaults(m, cfg, template[..|template| - 1]), cfg, template[|template| - 1])
  }

  /** The template loop over one more entry is one more step. */
  lemma WithDefaultsSnoc(m: FieldMap, cfg: Object, template: seq<(string, Variable)>, k: nat)
    requires FieldsValid(m) && k < |template|
    ensures WithDefaults(m, cfg, template[..k + 1]) == DefaultStep(WithDefaults(m, cfg, template[..k]), cfg, template[k])
  {
    assert template[..k + 1][..k] == template[..k];
  }

  /** A field the query gave values keeps them: defaults never overwrite. */
  lemma {:induction false} DefaultsKeepPresent(m: FieldMap, cfg: Object, template: seq<(string, Variable)>, n: string)
    requires FieldsValid(m) && n in m.slots
    ensures var r := WithDefaults(m, cfg, template).fields;
      n in r.slots && Lookup(r, n) == Lookup(m, n)
  {
    if template != [] {
      var prev := WithDefaults(m, cfg, template[..|template| - 1]);
      DefaultsKeepPresent(m, cfg, template[..|template| - 1], n);
      var entry := template[|template| - 1];
      match DefaultFor(prev.fields, cfg, entry.0, entry.1)
      case None =>
      case Some(d) =>
        DefaultValuesFrame(prev.fields, entry.0, d.0, d.1);
    }
  }

  /** No template entry named `n` carries a default, or `cfg` holds `n` as a parsed pagination key. */
  predicate Undefaulted(cfg: Object, template: seq<(string, Variable)>, n: string) {
    || (IsPaginationKey(n) && Truthy(Prop(cfg, n)))
    || (forall k :: 0 <= k < |template| && template[k].0 == n ==> template[k].1.default == Undefined)
  }

  /** A name missing from the query gets a field only from a template entry with a default, never for a pagination key held by `cfg`. */
  lemma {:induction false} UndefaultedStaysAbsent(m: FieldMap, cfg: Object, template: seq<(string, Variable)>, n: string)
    requires FieldsValid(m) && n !in m.slots
    requires Undefaulted(cfg, template, n)
    ensures n !in WithDefaults(m, cfg, template).fields.slots
  {
    if template != [] {
      var init := template[..|template| - 1];
      assert Undefaulted(cfg, init, n) by {
        forall k | 0 <= k < |init|
          ensures init[k] == template[k]
        {
        }
      }
      UndefaultedStaysAbsent(m, cfg, init, n);
      var prev := WithDefaults(m, cfg, init);
      var entry := template[|template| - 1];
      match DefaultFor(prev.fields, cfg, entry.0, entry.1)
      case None =>
      case Some(d) =>
        DefaultValuesFrame(prev.fields, entry.0, d.0, d.1);
    }
  }

  /** A default goes through `get_default_values` exactly as the template or `cfg` describes it. */
  lemma DefaultApplied(m: FieldMap, cfg: Object, template: seq<(string, Variable)>, name: string, variable: Variable)
    requires FieldsValid(m)
    requires name !in WithDefaults(m, cfg, template).fields.slots && variable.default != Undefined
    requires !Truthy(Prop(cfg, name))
    ensures var prev := WithDefaults(m, cfg, template);
      WithDefaults(m, cfg, template + [(name, variable)]) ==
        var r := DefaultValues(prev.fields, name, variable.default, variable.defaultOp);
        Build(r.fields, prev.messages + r.messages)
  {
    assert (template + [(name, variable)])[..|template|] == template;
  }

  // ---------------------------------------------------------------------------
  // The matrix (src/index.js:161-169)
  // ---------------------------------------------------------------------------

  /** `name_values`, `matrix` and the messages while the matrix is being filled. */
  datatype Tables = Tables(nameValues: FieldMap, matrix: FieldMap, messages: seq<string>)

  /** The raw `sort` list when `build_matrix` hands the field to the sort parser (its eq slot is set). */
  function SortListOf(m: FieldMap): Option<seq<Value>>
    requires FieldsValid(m)
  {
    var acc := Lookup(m, "sort");
    LookupWellShaped(m, "sort");
    if SlotTruthy(acc[0]) then Some(acc[0].items) else None
  }

  /** The accumulator `get_query_values` leaves for a field. */
  function ResolvedField(m: FieldMap, name: string): Accumulator
    requires FieldsValid(m)
  {
    LookupWellShaped(m, name);
    Resolved(Lookup(m, name), name).acc
  }

  /**
   * One pass of the matrix loop: `sort` with an eq list goes to the sort parser, every
   * other field is resolved. Gives both tables and the messages of this pass.
   */
  function MatrixStep(opts: Opts, nameValues: FieldMap, matrix: FieldMap, name: string): (r: Tables)
    requires FieldsValid(nameValues) && FieldsValid(matrix)
    ensures FieldsValid(r.nameValues) && FieldsValid(r.matrix)
  {
    if name == "sort" && SortListOf(nameValues).Some? then
      var p := ParsedSort(opts, SortListOf(nameValues).value);
      if p.result != [] then Tables(nameValues, Put(matrix, "sort", SortAccumulator(p.result)), p.messages)
      else Tables(nameValues, matrix, p.messages + [NoSortMessage])
    else
      LookupWellShaped(nameValues, name);
      var s := Resolved(Lookup(nameValues, name), name);
      Tables(Put(nameValues, name, s.acc), Put(matrix, name, s.acc), s.messages)
  }

  /** The tables after the matrix loop has seen the given names. */
  function MatrixFold(opts: Opts, t: Tables, names: seq<string>): (r: Tables)
    requires FieldsValid(t.nameValues) && FieldsValid(t.matrix)
    ensures FieldsValid(r.nameValues) && FieldsValid(r.matrix)
  {
    if names == [] then t
    else
      var prev := MatrixFold(opts, t, names[..|names| - 1]);
      var s := MatrixStep(opts, prev.nameValues, prev.matrix, names[|names| - 1]);
      Tables(s.nameValues, s.matrix, prev.messages + s.messages)
  }

  /** The matrix loop over one more name is one more step. */
  lemma MatrixFoldSnoc(opts: Opts, t: Tables, names: seq<string>, j: nat)
    requires FieldsValid(t.nameValues) && FieldsValid(t.matrix) && j < |names|
    ensures var prev := MatrixFold(opts, t, names[..j]);
      var s := MatrixStep(opts, prev.nameValues, prev.matrix, names[j]);
      MatrixFold(opts, t, names[..j + 1]) == Tables(s.nameValues, s.matrix, prev.messages + s.messages)
  {
    assert names[..j + 1][..j] == names[..j];
  }

  /** `name_values` after the template defaults (none without a template). */
  function Defaulted(opts: Opts, m: FieldMap): (r: Build)
    requires FieldsValid(m)
    ensures FieldsValid(r.fields)
  {
    if opts.template.Some? then WithDefaults(m, opts.cfg, opts.template.value) else Build(m, [])
  }

  /** `build_matrix(name_values, opts)`: the final `name_values`, the matrix and the messages. */
  function BuiltMatrix(opts: Opts, m: FieldMap): (r: Tables)
    requires FieldsValid(m)
    ensures FieldsValid(r.nameValues) && FieldsValid(r.matrix)
  {
    var d := Defaulted(opts, m);
    var t := MatrixFold(opts, Tables(d.fields, EmptyFields, []), d.fields.names);
    Tables(t.nameValues, t.matrix, d.messages + t.messages)
  }

  predicate DistinctNames(names: seq<string>) {
    forall i, j :: 0 <= i < j < |names| ==> names[i] != names[j]
  }

  /** One step touches only its own name, in both tables. */
  lemma MatrixStepFrame(opts: Opts, nameValues: FieldMap, matrix: FieldMap, name: string, n: string)
    requires FieldsValid(nameValues) && FieldsValid(matrix) && n != name
    ensures var s := MatrixStep(opts, nameValues, matrix, name);
      && Lookup(s.nameValues, n) == Lookup(nameValues, n)
      && (n in s.matrix.slots <==> n in matrix.slots) && Lookup(s.matrix, n) == Lookup(matrix, n)
  {
  }

  /** What `build_matrix` leaves in the matrix for a name of `name_values` (`d` is that table before the loop). */
  predicate MatrixHolds(opts: Opts, d: FieldMap, matrix: FieldMap, n: string)
    requires FieldsValid(d)
  {
    if n == "sort" && SortListOf(d).Some? then
      var p := ParsedSort(opts, SortListOf(d).value);
      if p.result != [] then n in matrix.slots && Lookup(matrix, n) == SortAccumulator(p.result)
      else n !in matrix.slots
    else n in matrix.slots && Lookup(matrix, n) == ResolvedField(d, n)
  }

  /** A step on a name the loop has not touched yet leaves its matrix entry. */
  lemma MatrixStepOwn(opts: Opts, d: FieldMap, nameValues: FieldMap, matrix: FieldMap, n: string)
    requires FieldsValid(d) && FieldsValid(nameValues) && FieldsValid(matrix)
    requires Lookup(nameValues, n) == Lookup(d, n) && n !in matrix.slots
    ensures MatrixHolds(opts, d, MatrixStep(opts, nameValues, matrix, n).matrix, n)
  {
    if n == "sort" {
      assert SortListOf(nameValues) == SortListOf(d);
    }
  }

  /** Whether the matrix holds a name's entry depends on that entry alone. */
  lemma HoldsFrame(opts: Opts, d: FieldMap, a: FieldMap, b: FieldMap, n: string)
    requires FieldsValid(d) && MatrixHolds(opts, d, a, n)
    requires (n in b.slots <==> n in a.slots) && Lookup(b, n) == Lookup(a, n)
    ensures MatrixHolds(opts, d, b, n)
  {
  }

  /** A name the matrix loop has not reached is untouched and not yet in the matrix. */
  lemma {:induction false} MatrixFoldUnreached(opts: Opts, d: FieldMap, names: seq<string>, n: string)
    requires FieldsValid(d) && n !in names
    ensures var t := MatrixFold(opts, Tables(d, EmptyFields, []), names);
      Lookup(t.nameValues, n) == Lookup(d, n) && n !in t.matrix.slots
  {
    if names != [] {
      var init := names[..|names| - 1];
      MatrixFoldUnreached(opts, d, init, n);
      var prev := MatrixFold(opts, Tables(d, EmptyFields, []), init);
      MatrixStepFrame(opts, prev.nameValues, prev.matrix, names[|names| - 1], n);
    }
  }

  /**
   * What the matrix loop makes of a name it has reached: `sort` with an eq list holds its
   * parsed list when that is not empty and is absent otherwise; any other name holds its
   * resolved accumulator.
   */
  lemma {:induction false} MatrixFoldEntry(opts: Opts, d: FieldMap, names: seq<string>, n: string)
    requires FieldsValid(d) && DistinctNames(names) && n in names
    ensures MatrixHolds(opts, d, MatrixFold(opts, Tables(d, EmptyFields, []), names).matrix, n)
  {
    var init := names[..|names| - 1];
    var l := names[|names| - 1];
    var prev := MatrixFold(opts, Tables(d, EmptyFields, []), init);
    var s := MatrixStep(opts, prev.nameValues, prev.matrix, l);
    assert MatrixFold(opts, Tables(d, EmptyFields, []), names).matrix == s.matrix;
    assert l !in init;
    if n == l {
      MatrixFoldUnreached(opts, d, init, l);
      MatrixStepOwn(opts, d, prev.nameValues, prev.matrix, l);
    } else {
      assert DistinctNames(init);
      assert n in init;
      MatrixFoldEntry(opts, d, init, n);
      MatrixStepFrame(opts, prev.nameValues, prev.matrix, l, n);
      HoldsFrame(opts, d, prev.matrix, s.matrix, n);
    }
  }

  /**
   * `build_matrix` end to end: every field of `name_values` (after the defaults) reaches the
   * matrix as its resolved accumulator, except `sort` with an eq list, which holds its parsed
   * list or nothing; no other name enters the matrix.
   */
  lemma BuiltMatrixEntry(opts: Opts, m: FieldMap, n: string)
    requires FieldsValid(m)
    ensures var d := Defaulted(opts, m).fields; var b := BuiltMatrix(opts, m);
      && (n !in d.slots ==> n !in b.matrix.slots)
      && (n in d.slots ==> MatrixHolds(opts, d, b.matrix, n))
  {
    var d := Defaulted(opts, m).fields;
    if n in d.slots {
      MatrixFoldEntry(opts, d, d.names, n);
    } else {
      MatrixFoldUnreached(opts, d, d.names, n);
    }
  }

  /** The template loop of `build_matrix` (src/index.js:139-160). */
  method AddTemplateDefaults(nameValues: Fields, opts: Opts, log: Log)
    requires nameValues.Valid()
    modifies nameValues, log
    ensures nameValues.Valid()
    ensures var d := Defaulted(opts, old(nameValues.Model()));
      nameValues.Model() == d.fields && log.messages == old(log.messages) + d.messages
  {
    if opts.template.None? {
      return;
    }
    ghost var m0 := nameValues.Model();
    ghost var msgs: seq<string> := [];
    var template := opts.template.value;
    for k := 0 to |template|
      invariant nameValues.Valid()
      invariant WithDefaults(m0, opts.cfg, template[..k]) == Build(nameValues.Model(), msgs)
      invariant log.messages == old(log.messages) + msgs
    {
      WithDefaultsSnoc(m0, opts.cfg, template, k);
      var name := template[k].0;
      var variable := template[k].1;
      if name in nameValues.slots {
        continue;
      }
      if variable.default == Undefined {
        continue;
      }
      var default, defaultOp := variable.default, variable.defaultOp;
      var c := Prop(opts.cfg, name);
      if Truthy(c) {
        if IsPaginationKey(name) {
          continue;
        }
        if !IsObjectType(c) {
          default, defaultOp := c, Undefined;
        } else {
          default, defaultOp := Member(c, "default"), Member(c, "default_op");
        }
      }
      assert DefaultFor(nameValues.Model(), opts.cfg, name, variable) == Some((default, defaultOp));
      ghost var r := DefaultValues(nameValues.Model(), name, default, defaultOp);
      var stored := GetDefaultValues(name, default, defaultOp, nameValues, log);
      AppendAssoc(old(log.messages), msgs, r.messages);
      msgs := msgs + r.messages;
    }
    assert template[..|template|] == template;
  }

  /** One pass of the matrix loop (src/index.js:163-167) on a name of `name_values`. */
  method FillField(name: string, nameValues: Fields, matrix: Fields, opts: Opts, log: Log)
    requires nameValues.Valid() && matrix.Valid() && nameValues != matrix
    requires name in nameValues.slots
    modifies nameValues, matrix, log
    ensures nameValues.Valid() && matrix.Valid() && nameValues.names == old(nameValues.names)
    ensures var t := MatrixStep(opts, old(nameValues.Model()), old(matrix.Model()), name);
      && nameValues.Model() == t.nameValues && matrix.Model() == t.matrix
      && log.messages == old(log.messages) + t.messages
  {
    ghost var m := nameValues.Model();
    LookupWellShaped(m, name);
    if name == "sort" && SlotTruthy(nameValues.slots[name][0]) {
      assert SortListOf(m) == Some(nameValues.slots["sort"][0].items);
      GetSortValues(opts, nameValues, matrix, log);
    } else {
      assert !(name == "sort" && SortListOf(m).Some?);
      GetQueryValues(name, nameValues, matrix, log);
    }
  }

  /** The matrix loop of `build_matrix` (src/index.js:161-168) over the names of `name_values`. */
  method FillMatrix(nameValues: Fields, opts: Opts, log: Log) returns (matrix: Fields)
    requires nameValues.Valid()
    modifies nameValues, log
    ensures fresh(matrix) && nameValues.Valid() && matrix.Valid()
    ensures var t := MatrixFold(opts, Tables(old(nameValues.Model()), EmptyFields, []), old(nameValues.names));
      && nameValues.Model() == t.nameValues && matrix.Model() == t.matrix
      && log.messages == old(log.messages) + t.messages
  {
    ghost var d := nameValues.Model();
    matrix := new Fields();
    var names := nameValues.names;
    ghost var msgs: seq<string> := [];
    for j := 0 to |names|
      invariant nameValues.Valid() && matrix.Valid()
      invariant nameValues.names == names
      invariant MatrixFold(opts, Tables(d, EmptyFields, []), names[..j]) == Tables(nameValues.Model(), matrix.Model(), msgs)
      invariant log.messages == old(log.messages) + msgs
    {
      var name := names[j];
      assert name in nameValues.slots;
      ghost var s := MatrixStep(opts, nameValues.Model(), matrix.Model(), name);
      MatrixFoldSnoc(opts, Tables(d, EmptyFields, []), names, j);
      FillField(name, nameValues, matrix, opts, log);
      AppendAssoc(old(log.messages), msgs, s.messages);
      msgs := msgs + s.messages;
    }
    assert names[..|names|] == names;
  }

  /** `build_matrix` (src/index.js:138-170): the template loop, then the matrix loop. */
  method BuildMatrix(nameValues: Fields, opts: Opts, log: Log) returns (matrix: Fields)
    requires nameValues.Valid()
    modifies nameValues, log
    ensures fresh(matrix) && nameValues.Valid() && matrix.Valid()
    ensures var b := BuiltMatrix(opts, old(nameValues.Model()));
      && nameValues.Model() == b.nameValues && matrix.Model() == b.matrix
      && log.messages == old(log.messages) + b.messages
  {
    AddTemplateDefaults(nameValues, opts, log);
    ghost var before := log.messages;
    matrix := FillMatrix(nameValues, opts, log);
    AppendAssoc(old(log.messages), Defaulted(opts, old(nameValues.Model())).messages, log.messages[|before|..]);
  }

  // ---------------------------------------------------------------------------
  // The result object (src/index.js:29-37)
  // ---------------------------------------------------------------------------

  /** `{...obj, ...cfg}`: the entries of `cfg` set onto `obj`, in order. */
  function Spread(obj: Object, cfg: Object): Object
    decreases |cfg|
  {
    if cfg == [] then obj else Spread(SetProp(obj, cfg[0].0, cfg[0].1), cfg[1..])
  }

  /** After the spread a key of `cfg` reads as in `cfg`, any other key as before. */
  lemma {:induction false} SpreadProp(obj: Object, cfg: Object, key: string)
    requires DistinctKeys(cfg)
    ensures Prop(Spread(obj, cfg), key) == if key in Keys(cfg) then Prop(cfg, key) else Prop(obj, key)
    decreases |cfg|
  {
    if cfg != [] {
      var rest := cfg[1..];
      assert DistinctKeys(rest) by {
        forall i, j | 0 <= i < j < |rest|
          ensures rest[i].0 != rest[j].0
        {
          assert rest[i] == cfg[i + 1] && rest[j] == cfg[j + 1];
        }
      }
      SpreadProp(SetProp(obj, cfg[0].0, cfg[0].1), rest, key);
      SetPropGet(obj, cfg[0].0, cfg[0].1, key);
      KeysCons(cfg[0], rest);
      PropCons(cfg[0], rest, key);
      assert cfg == [cfg[0]] + rest;
      if key in Keys(rest) {
        var j :| 0 <= j < |rest| && Keys(rest)[j] == key;
        assert cfg[j + 1].0 == key;
      }
    }
  }

  /** `{query, ...cfg}` with `pagination` set on it (src/index.js:31-36). */
  function Assemble(mq: Object, cfg: Object): Object {
    SetProp(Spread([("query", Obj(GetQuery(mq)))], cfg), "pagination", Obj(Pagination(mq, cfg)))
  }

  /**
   * The result always carries the pagination object; `query` is the filtered matrix query
   * unless `cfg` supplies its own; every other key of `cfg` is copied unchanged.
   */
  lemma AssembleProp(mq: Object, cfg: Object, key: string)
    requires DistinctKeys(cfg)
    ensures Prop(Assemble(mq, cfg), key) ==
      if key == "pagination" then Obj(Pagination(mq, cfg))
      else if key in Keys(cfg) then Prop(cfg, key)
      else if key == "query" then Obj(GetQuery(mq))
      else Undefined
  {
    var spread := Spread([("query", Obj(GetQuery(mq)))], cfg);
    SetPropGet(spread, "pagination", Obj(Pagination(mq, cfg)), key);
    SpreadProp([("query", Obj(GetQuery(mq)))], cfg, key);
  }

  /** The query object never holds a pagination key, and holds each other field's operator object. */
  lemma QueryOfMatrix(m: FieldMap, key: string)
    requires FieldsValid(m)
    ensures Prop(GetQuery(MatrixQuery(m)), key) ==
      if IsPaginationKey(key) || key !in m.slots || OperatorObject(m.slots[key]) == [] then Undefined
      else Obj(OperatorObject(m.slots[key]))
  {
    GetQueryProp(MatrixQuery(m), key);
    MatrixQueryProp(m, key);
  }

  /** A parsed sort list in the matrix is what `pagination.sort` reads back, in pairs. */
  lemma SortRowPagination(matrix: FieldMap, cfg: Object, result: seq<Value>)
    requires FieldsValid(matrix) && "sort" in matrix.slots
    requires matrix.slots["sort"] == SortAccumulator(result) && result != []
    ensures Prop(Pagination(MatrixQuery(matrix), cfg), "sort") == Obj(ConvertArrayToObject(Arr(result)))
  {
    var row := OperatorObject(SortAccumulator(result));
    SortRowEq(result);
    MatrixQueryProp(matrix, "sort");
    var mq := MatrixQuery(matrix);
    assert Prop(mq, "sort") == Obj(row);
    SortPagination(mq, cfg);
  }

  /** The operator object of a sort row holds the parsed list under `eq`. */
  lemma SortRowEq(result: seq<Value>)
    requires result != []
    ensures OperatorObject(SortAccumulator(result)) != []
    ensures Prop(OperatorObject(SortAccumulator(result)), "eq") == Arr(result)
  {
    var acc := SortAccumulator(result);
    OpNamedName(Eq);
    OperatorObjectProp(acc, "eq");
    assert acc[Index(Eq)] == List(result);
  }

  /**
   * In permissive mode (no schema lookup or no name transform) a parsed sort list in the
   * matrix makes `pagination.sort` the pairing of the reference sort list: an object that
   * holds nothing but directions, maps every field token of the raw list to 1 or -1, and
   * maps the last field of each name to the first 1 or -1 written after it (before the
   * next field), else to 1.
   */
  lemma PermissiveSortPagination(opts: Opts, values: seq<Value>, matrix: FieldMap, cfg: Object)
    requires !Strict(opts) && FieldsValid(matrix) && "sort" in matrix.slots
    requires ParsedSort(opts, values).result != []
    requires matrix.slots["sort"] == SortAccumulator(ParsedSort(opts, values).result)
    ensures var sort := Prop(Pagination(MatrixQuery(matrix), cfg), "sort");
      && sort == Obj(ConvertArrayToObject(Arr(PermissiveSort(values))))
      && DirectionsOnly(sort.entries)
      && (forall f :: f in FieldTokens(values) ==> IsDirection(Prop(sort.entries, ToStr(f))))
      && forall p :: 0 <= p < |values| && IsNaN(values[p]) && LastNamed(values, p) ==>
           Prop(sort.entries, ToStr(values[p])) == LeadDirection(values[p + 1..])
  {
    var result := ParsedSort(opts, values).result;
    PermissivePairs(opts, values);
    PermissiveSortSpec(opts, values);
    assert result == PermissiveSort(values);
    SortRowPagination(matrix, cfg, result);
    PairedObject(result, FieldTokens(values));
    PermissiveSortObject(values);
  }

  /** Fields paired with directions read as an object mapping each field to its direction. */
  lemma PairedObject(result: seq<Value>, fields: seq<Value>)
    requires Paired(result, fields)
    ensures DirectionsOnly(ConvertArrayToObject(Arr(result)))
    ensures forall f :: f in fields ==> IsDirection(Prop(ConvertArrayToObject(Arr(result)), ToStr(f)))
  {
    assert DirectedPairs(result);
    SortObject(result);
    forall f | f in fields
      ensures IsDirection(Prop(ConvertArrayToObject(Arr(result)), ToStr(f)))
    {
      var k :| 0 <= k < |fields| && fields[k] == f;
      assert result[2 * k] == f && (2 * k) % 2 == 0;
    }
  }

  /** What `parse_query` returns, with the messages it pushes. */
  datatype QueryResult = QueryResult(result: Object, messages: seq<string>)

  /** The `opts` object `parse_query` builds (src/index.js:14-20). */
  function OptsOf(cfg: Object, template: Option<seq<(string, Variable)>>,
                  getVariables: Option<string -> Option<Variable>>, transformName: Option<string -> string>): Opts {
    Opts(template, EffectiveLookup(template, getVariables), transformName, cfg)
  }

  /** `parse_query(query_vars, cfg, variables_template, get_variables, transform_name, messages)`. */
  function ParsedQuery(queryVars: seq<(string, Value)>, cfg: Object, template: Option<seq<(string, Variable)>>,
                       getVariables: Option<string -> Option<Variable>>, transformName: Option<string -> string>): QueryResult
  {
    var opts := OptsOf(cfg, template, getVariables, transformName);
    var c := Collected(opts, queryVars);
    var b := BuiltMatrix(opts, c.fields);
    QueryResult(Assemble(MatrixQuery(b.matrix), cfg), c.messages + b.messages)
  }

  /**
   * End to end: the result's `query` holds, for every non-pagination field the query or the
   * template produced, that field's resolved operator object; pagination keys never appear in it.
   */
  lemma ParsedQueryField(queryVars: seq<(string, Value)>, cfg: Object, template: Option<seq<(string, Variable)>>,
                         getVariables: Option<string -> Option<Variable>>, transformName: Option<string -> string>, key: string)
    requires DistinctKeys(cfg) && "query" !in Keys(cfg)
    ensures var opts := OptsOf(cfg, template, getVariables, transformName);
      var d := Defaulted(opts, Collected(opts, queryVars).fields).fields;
      var query := Obj(GetQuery(MatrixQuery(BuiltMatrix(opts, Collected(opts, queryVars).fields).matrix)));
      && Prop(ParsedQuery(queryVars, cfg, template, getVariables, transformName).result, "query") == query
      && (IsPaginationKey(key) ==> Prop(query.entries, key) == Undefined)
      && (!IsPaginationKey(key) && key in d.slots && OperatorObject(ResolvedField(d, key)) != [] ==>
            Prop(query.entries, key) == Obj(OperatorObject(ResolvedField(d, key))))
  {
    var opts := OptsOf(cfg, template, getVariables, transformName);
    var m := Collected(opts, queryVars).fields;
    var b := BuiltMatrix(opts, m);
    AssembleProp(MatrixQuery(b.matrix), cfg, "query");
    QueryOfMatrix(b.matrix, key);
    BuiltMatrixEntry(opts, m, key);
  }

  /**
   * `parse_query` always attaches `pagination`, even over a `cfg.pagination`, because
   * `get_pagination` never returns `null`.
   */
  lemma AlwaysPaginated(queryVars: seq<(string, Value)>, cfg: Object, template: Option<seq<(string, Variable)>>,
                        getVariables: Option<string -> Option<Variable>>, transformName: Option<string -> string>)
    ensures var opts := OptsOf(cfg, template, getVariables, transformName);
      var mq := MatrixQuery(BuiltMatrix(opts, Collected(opts, queryVars).fields).matrix);
      Prop(ParsedQuery(queryVars, cfg, template, getVariables, transformName).result, "pagination") == Obj(Pagination(mq, cfg))
  {
    var opts := OptsOf(cfg, template, getVariables, transformName);
    var mq := MatrixQuery(BuiltMatrix(opts, Collected(opts, queryVars).fields).matrix);
    SetPropGet(Spread([("query", Obj(GetQuery(mq)))], cfg), "pagination", Obj(Pagination(mq, cfg)), "pagination");
  }

  /** The query loop of `parse_query` (src/index.js:21-28), filling a new `name_values`. */
  method CollectQuery(queryVars: seq<(string, Value)>, opts: Opts, log: Log) returns (nameValues: Fields)
    modifies log
    ensures fresh(nameValues) && nameValues.Valid()
    ensures var c := Collected(opts, queryVars);
      nameValues.Model() == c.fields && log.messages == old(log.messages) + c.messages
  {
    nameValues := new Fields();
    ghost var msgs: seq<string> := [];
    for i := 0 to |queryVars|
      invariant fresh(nameValues) && nameValues.Valid()
      invariant Collected(opts, queryVars[..i]) == Build(nameValues.Model(), msgs)
      invariant log.messages == old(log.messages) + msgs
    {
      assert queryVars[..i + 1][..i] == queryVars[..i];
      var token := NameValueOp(queryVars[i].0, queryVars[i].1);
      var name := if opts.transformName.Some? then opts.transformName.value(token.name) else token.name;
      var verdict := ValidateNameOp(name, token.op, opts);
      if verdict.Reject? {
        log.Push(verdict.message);
        AppendAssoc(old(log.messages), msgs, [verdict.message]);
        msgs := msgs + [verdict.message];
      } else {
        var ok := TransformValue(verdict.variable, name, token.value, token.op, nameValues);
      }
    }
    assert queryVars[..|queryVars|] == queryVars;
  }

  /** `parse_query` (src/index.js:12-38). A missing `cfg` is passed as the empty object. */
  method ParseQuery(queryVars: seq<(string, Value)>, cfg: Object, template: Option<seq<(string, Variable)>>,
                    getVariables: Option<string -> Option<Variable>>, transformName: Option<string -> string>,
                    log: Log)
    returns (result: Object)
    modifies log
    ensures var p := ParsedQuery(queryVars, cfg, template, getVariables, transformName);
      result == p.result && log.messages == old(log.messages) + p.messages
  {
    var opts := OptsOf(cfg, template, getVariables, transformName);
    var nameValues := CollectQuery(queryVars, opts, log);
    ghost var before := log.messages;
    var matrix := BuildMatrix(nameValues, opts, log);
    AppendAssoc(old(log.messages), Collected(opts, queryVars).messages, log.messages[|before|..]);
    var matrixQuery := MatrixQuery(matrix.Model());
    var query := GetQuery(matrixQuery);
    result := Spread([("query", Obj(query))], cfg);
    var pagination := GetPagination(matrixQuery, cfg);
    // `get_pagination` always returns an object here, so `pagination` is always attached
    result := SetProp(result, "pagination", Obj(pagination));
  }
}
