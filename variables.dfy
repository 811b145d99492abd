/**
 * Variable descriptors, the options record threaded through a parse, and the
 * name/operator validator `validate_name_op` (src/index.js:78-108).
 */
module Variables {
  import opened Wrappers
  import opened JsValues
  import opened Operators

  /**
   * The coercion a descriptor selects: `default_transfn` when its `transfn` is missing or
   * not a function, the built-in `Number`, or a caller-supplied function.
   */
  datatype TransFn = DefaultTransFn | NumberFn | Custom(f: Value -> Value)

  /** A variable descriptor; a missing `default` or `default_op` is `Undefined`. */
  datatype Variable = Variable(transfn: TransFn, default: Value, defaultOp: Value, readOnly: bool)

  /** The descriptor `{}`. */
  const Plain := Variable(DefaultTransFn, Undefined, Undefined, false)

  /** The descriptor `{transfn: Number}` given to a page key the schema does not know. */
  const PageVariable := Variable(NumberFn, Undefined, Undefined, false)

  /**
   * `opts`: the variables template (its entries in enumeration order), the schema
   * lookup in effect, the name transform, and `cfg`. The caller's `cfg` argument is
   * already bound inside `lookup` and `transformName`.
   */
  datatype Opts = Opts(
    template: Option<seq<(string, Variable)>>,
    lookup: Option<string -> Option<Variable>>,
    transformName: Option<string -> string>,
    cfg: seq<(string, Value)>)

  /** `variables_template[name]`: the first entry with that name. */
  function TemplateLookup(template: seq<(string, Variable)>, name: string): (r: Option<Variable>)
    ensures r.Some? <==> exists k :: 0 <= k < |template| && template[k].0 == name
    ensures r.Some? ==> exists k :: && 0 <= k < |template| && template[k] == (name, r.value)
                                    && forall j :: 0 <= j < k ==> template[j].0 != name
  {
    if template == [] then None
    else if template[0].0 == name then Some(template[0].1)
    else
      var r := TemplateLookup(template[1..], name);
      assert forall k :: 1 <= k < |template| ==> template[k] == template[1..][k - 1];
      assert r.Some? ==> exists k :: && 0 <= k < |template| && template[k] == (name, r.value)
                                     && forall j :: 0 <= j < k ==> template[j].0 != name by {
        if r.Some? {
          var k :| && 0 <= k < |template[1..]| && template[1..][k] == (name, r.value)
                   && forall j :: 0 <= j < k ==> template[1..][j].0 != name;
          assert template[k + 1] == (name, r.value);
          forall j | 0 <= j < k + 1
            ensures template[j].0 != name
          {
            if j > 0 { assert template[j] == template[1..][j - 1]; }
          }
        }
      }
      r
  }

  /**
   * The lookup `parse_query` puts in `opts` (src/index.js:14-16): the caller's
   * `get_variables`, else one reading the template, else none.
   */
  function EffectiveLookup(template: Option<seq<(string, Variable)>>,
                           getVariables: Option<string -> Option<Variable>>): (r: Option<string -> Option<Variable>>)
    ensures r.None? <==> template.None? && getVariables.None?
    // the caller's `get_variables` takes precedence over the template
    ensures getVariables.Some? ==> r == getVariables
    ensures getVariables.None? && template.Some? ==> forall name :: r.value(name) == TemplateLookup(template.value, name)
  {
    if getVariables.Some? then getVariables
    else if template.Some? then Some((name: string) => TemplateLookup(template.value, name))
    else None
  }

  /** `cfg[key]`, `undefined` when absent. */
  function CfgGet(cfg: seq<(string, Value)>, key: string): Value {
    Prop(cfg, key)
  }

  datatype Verdict = Accept(variable: Variable) | Reject(message: string)

  /** `validate_name_op(name, op, opts)`: the descriptor to use, or the message that rejects the name. */
  function ValidateNameOp(name: string, op: Op, opts: Opts): (r: Verdict)
    // the empty name is always refused; without a schema every other name is taken as `{}`
    ensures name == "" ==> r == Reject("invalid empty name")
    ensures opts.lookup.None? && name != "" ==> r == Accept(Plain)
    // an accepted name that is not a page key is one the schema knows, and not read-only
    ensures r.Accept? && opts.lookup.Some? && !IsPaginationKey(name) ==>
      opts.lookup.value(name) == Some(r.variable) && !r.variable.readOnly
    // a page key the schema knows takes only `eq`; one it does not know gets built-in descriptors
    ensures r.Accept? && opts.lookup.Some? && IsPaginationKey(name) && opts.lookup.value(name).Some? ==> op == Eq
    ensures opts.lookup.Some? && name != "" && opts.lookup.value(name).None? && IsPaginationKey(name) ==>
      r == Accept(if name == "sort" then Plain else PageVariable)
    // every schema entry that is writable, under an operator its key allows, is accepted
    ensures (&& opts.lookup.Some? && name != "" && opts.lookup.value(name).Some?
             && !opts.lookup.value(name).value.readOnly && (op == Eq || !IsPaginationKey(name)))
            ==> r == Accept(opts.lookup.value(name).value)
    // the four rejection messages, each in its own case
    ensures r.Reject? ==> r.message in {"invalid empty name", "skipped, variable not found " + name,
                                        "skipped, readonly for " + name, "pagination key takes = operator only"}
    ensures opts.lookup.Some? && name != "" && opts.lookup.value(name).None? && !IsPaginationKey(name) ==>
      r == Reject("skipped, variable not found " + name)
    ensures opts.lookup.Some? && name != "" && opts.lookup.value(name).Some? && opts.lookup.value(name).value.readOnly ==>
      r == Reject("skipped, readonly for " + name)
    ensures (&& opts.lookup.Some? && name != "" && opts.lookup.value(name).Some?
             && !opts.lookup.value(name).value.readOnly && IsPaginationKey(name) && op != Eq)
            ==> r == Reject("pagination key takes = operator only")
  {
    if name == "" then Reject("invalid empty name")
    else if opts.lookup.None? then Accept(Plain)
    else
      match opts.lookup.value(name)
      case None =>
        if IsPaginationKey(name) then
          if name == "sort" then Accept(Plain) else Accept(PageVariable)
        else Reject("skipped, variable not found " + name)
      case Some(variable) =>
        if variable.readOnly then Reject("skipped, readonly for " + name)
        else if IsPaginationKey(name) && op != Eq then Reject("pagination key takes = operator only")
        else Accept(variable)
  }
}
