/**
 * The mutable objects the compiler threads through its stages: a table of
 * per-field accumulators keyed by name, kept in insertion order (`name_values`
 * and `matrix`), and the list of warning messages (`messages`).
 */
module State {
  import opened Operators

  /** The value of a table: names in insertion order, and each name's accumulator. */
  datatype FieldMap = FieldMap(names: seq<string>, slots: map<string, Accumulator>)

  /** Every name is listed once, the list and the keys agree, and every accumulator is well shaped. */
  ghost predicate FieldsValid(m: FieldMap) {
    && (forall n :: n in m.slots <==> n in m.names)
    && (forall i, j :: 0 <= i < j < |m.names| ==> m.names[i] != m.names[j])
    && (forall n :: n in m.slots ==> WellShaped(m.slots[n]))
  }

  const EmptyFields: FieldMap := FieldMap([], map[])

  /** `table[name]`, read as a fresh accumulator when the name is absent. */
  function Lookup(m: FieldMap, name: string): Accumulator {
    if name in m.slots then m.slots[name] else FreshAccumulator
  }

  /** `table[name] = acc`: a new name goes last, an existing one keeps its place. */
  function Put(m: FieldMap, name: string, acc: Accumulator): (r: FieldMap)
    requires FieldsValid(m) && WellShaped(acc)
    ensures FieldsValid(r)
    ensures name in r.slots && Lookup(r, name) == acc
    ensures forall n :: n != name ==> (n in r.slots <==> n in m.slots) && Lookup(r, n) == Lookup(m, n)
    ensures r.names == if name in m.slots then m.names else m.names + [name]
  {
    FieldMap(if name in m.slots then m.names else m.names + [name], m.slots[name := acc])
  }

  /** Writing a name twice is writing it once, with the second value. */
  lemma PutPut(m: FieldMap, name: string, a: Accumulator, b: Accumulator)
    requires FieldsValid(m) && WellShaped(a) && WellShaped(b)
    ensures Put(Put(m, name, a), name, b) == Put(m, name, b)
  {
    assert m.slots[name := a][name := b] == m.slots[name := b];
  }

  lemma FreshWellShaped()
    ensures WellShaped(FreshAccumulator)
  {
  }

  /** Reading any name of a well-formed table gives a well-shaped accumulator. */
  lemma LookupWellShaped(m: FieldMap, name: string)
    requires FieldsValid(m)
    ensures WellShaped(Lookup(m, name))
  {
  }

  /** A table object (`name_values`, `matrix`). */
  class Fields {
    var names: seq<string>
    var slots: map<string, Accumulator>

    function Model(): FieldMap
      reads this
    {
      FieldMap(names, slots)
    }

    ghost predicate Valid()
      reads this
    {
      FieldsValid(Model())
    }

    constructor ()
      ensures Valid() && Model() == EmptyFields
    {
      names := [];
      slots := map[];
    }

    /** `this[name] = acc`. */
    method Set(name: string, acc: Accumulator)
      requires Valid() && WellShaped(acc)
      modifies this
      ensures Valid()
      ensures Model() == Put(old(Model()), name, acc)
    {
      if name !in slots {
        names := names + [name];
      }
      slots := slots[name := acc];
    }
  }

  /** Messages pushed in two rounds are the messages of both rounds, in order. */
  lemma AppendAssoc(a: seq<string>, b: seq<string>, c: seq<string>)
    ensures a + b + c == a + (b + c)
  {
  }

  /** The `messages` array every step pushes its notices onto. */
  class Log {
    var messages: seq<string>

    constructor ()
      ensures messages == []
    {
      messages := [];
    }

    method Push(message: string)
      modifies this
      ensures messages == old(messages) + [message]
    {
      messages := messages + [message];
    }
  }
}
