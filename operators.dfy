/**
 * The fixed operator set, the per-field accumulator indexed by it, and the
 * reserved pagination keys (src/index.js:7-10).
 */
module Operators {
  import opened Wrappers
  import opened JsValues

  /** The operators in the order of the `operators` array; a slot's index is its operator's position. */
  datatype Op = Eq | Ne | Bt | Gt | Gte | Lte | Lt | Regex

  const Operators: seq<Op> := [Eq, Ne, Bt, Gt, Gte, Lte, Lt, Regex]

  /** `operators.indexOf(op)` for an operator that is in the list. */
  function Index(op: Op): (i: nat)
    ensures i < |Operators| && Operators[i] == op
  {
    match op
    case Eq => 0
    case Ne => 1
    case Bt => 2
    case Gt => 3
    case Gte => 4
    case Lte => 5
    case Lt => 6
    case Regex => 7
  }

  /** The operator's name, as it appears in the `operators` array and in the output. */
  function Name(op: Op): string {
    match op
    case Eq => "eq"
    case Ne => "ne"
    case Bt => "bt"
    case Gt => "gt"
    case Gte => "gte"
    case Lte => "lte"
    case Lt => "lt"
    case Regex => "regex"
  }

  /** `operators.indexOf(v)` read as an operator: found only for a string equal to an operator's name. */
  function OpNamed(v: Value): (r: Option<Op>)
    ensures r.Some? ==> v == Str(Name(r.value))
    ensures r.None? ==> forall op :: v != Str(Name(op))
  {
    if v == Str("eq") then Some(Eq)
    else if v == Str("ne") then Some(Ne)
    else if v == Str("bt") then Some(Bt)
    else if v == Str("gt") then Some(Gt)
    else if v == Str("gte") then Some(Gte)
    else if v == Str("lte") then Some(Lte)
    else if v == Str("lt") then Some(Lt)
    else if v == Str("regex") then Some(Regex)
    else None
  }

  /** Looking an operator up by its own name finds it. */
  lemma OpNamedName(op: Op)
    ensures OpNamed(Str(Name(op))) == Some(op)
  {
  }

  /** Slots 3 to 6 (gt, gte, lte, lt) hold a single value; slots 0, 1, 2 and 7 hold lists. */
  predicate IsScalarIndex(i: int) {
    2 < i && i != 7
  }

  predicate IsScalar(op: Op) {
    IsScalarIndex(Index(op))
  }

  /**
   * One slot of a field's accumulator: never written (a hole of `new Array(8)`),
   * a single value (`Scalar(Null)` is an explicit `null`), or a list.
   */
  datatype Slot = Unset | Scalar(v: Value) | List(items: seq<Value>)

  type Accumulator = s: seq<Slot> | |s| == 8
    witness [Unset, Unset, Unset, Unset, Unset, Unset, Unset, Unset]

  /** `new Array(operators.length)`. */
  const FreshAccumulator: Accumulator := [Unset, Unset, Unset, Unset, Unset, Unset, Unset, Unset]

  /** Truthiness of `name_values[name][i]`: a list is an array, always truthy. */
  predicate SlotTruthy(s: Slot) {
    match s
    case Unset => false
    case Scalar(v) => Truthy(v)
    case List(_) => true
  }

  /** What a written slot holds, as a JavaScript value. */
  function SlotValue(s: Slot): Value
    requires !s.Unset?
  {
    match s
    case Scalar(v) => v
    case List(items) => Arr(items)
  }

  /** List slots hold lists and scalar slots single values; every writer keeps this. */
  predicate WellShaped(acc: Accumulator) {
    && !acc[0].Scalar? && !acc[1].Scalar? && !acc[2].Scalar?
    && !acc[3].List? && !acc[4].List? && !acc[5].List? && !acc[6].List?
    && !acc[7].Scalar?
  }

  lemma WellShapedSlots(acc: Accumulator)
    requires WellShaped(acc)
    ensures forall i :: 0 <= i < 8 ==> if IsScalarIndex(i) then !acc[i].List? else !acc[i].Scalar?
  {
  }

  /** The reserved keys `pagination_keys`, in their order. */
  const PaginationKeys: seq<string> := ["sort", "page_no", "page_size"]

  predicate IsPaginationKey(name: string) {
    name in PaginationKeys
  }

  /** `page_no_default`: declared by the source and never read by it. */
  const PageNoDefault: int := 1

  /** `page_size_default`: the fallback for any page key (page number included). */
  const PageSizeDefault: int := 1
}
