/**
 * Per-field clean-up before a field enters the matrix, `get_query_values`
 * (src/index.js:234-266): duplicate `eq`/`ne` items are dropped, and of two
 * overlapping lower (or upper) bounds only the tighter one is kept.
 */
module Resolve {
  import opened JsValues
  import opened Operators
  import opened State

  /** `[...new Set(xs)]`: the first of each group of SameValueZero-equal items, in order. */
  function Dedupe(xs: seq<Value>): (r: seq<Value>)
    ensures |r| <= |xs|
  {
    if xs == [] then []
    else
      var d := Dedupe(xs[..|xs| - 1]);
      var x := xs[|xs| - 1];
      if exists k :: 0 <= k < |d| && Same(d[k], x) then d else d + [x]
  }

  predicate Distinct(xs: seq<Value>) {
    forall i, j :: 0 <= i < j < |xs| ==> !Same(xs[i], xs[j])
  }

  predicate HasDuplicate(xs: seq<Value>) {
    exists i, j :: 0 <= i < j < |xs| && Same(xs[i], xs[j])
  }

  /** Deduplication keeps exactly the items it was given, each once. */
  lemma {:induction false} DedupeSpec(xs: seq<Value>)
    ensures Distinct(Dedupe(xs))
    ensures forall v :: v in Dedupe(xs) <==> v in xs
  {
    if xs != [] {
      var init := xs[..|xs| - 1];
      var x := xs[|xs| - 1];
      assert xs == init + [x];
      DedupeSpec(init);
    }
  }

  /** The positions of first occurrences: the items with no SameValueZero-equal item before them. */
  function FirstIndices(xs: seq<Value>): seq<nat> {
    if xs == [] then []
    else
      var n := |xs| - 1;
      FirstIndices(xs[..n]) + if exists j :: 0 <= j < n && Same(xs[j], xs[n]) then [] else [n]
  }

  /**
   * `[...new Set(xs)]` is the subsequence of first occurrences: every item that has no
   * SameValueZero-equal item before it, each once, in the order of `xs`.
   */
  lemma DedupeFirstOccurrences(xs: seq<Value>)
    ensures var ix := FirstIndices(xs);
      && |Dedupe(xs)| == |ix|
      && (forall k :: 0 <= k < |ix| ==> ix[k] < |xs| && Dedupe(xs)[k] == xs[ix[k]])
      && (forall k, l :: 0 <= k < l < |ix| ==> ix[k] < ix[l])
      && (forall i :: 0 <= i < |xs| ==> (i in ix <==> forall j :: 0 <= j < i ==> !Same(xs[j], xs[i])))
  {
    FirstIndicesOrdered(xs);
    DedupeAt(xs);
    forall i | 0 <= i < |xs|
      ensures i in FirstIndices(xs) <==> forall j :: 0 <= j < i ==> !Same(xs[j], xs[i])
    {
      FirstIndexAt(xs, i);
    }
  }

  /** The k-th item kept by deduplication is the item at the k-th first-occurrence position. */
  lemma {:induction false} DedupeAt(xs: seq<Value>)
    ensures |Dedupe(xs)| == |FirstIndices(xs)|
    ensures forall k :: 0 <= k < |FirstIndices(xs)| ==>
      FirstIndices(xs)[k] < |xs| && Dedupe(xs)[k] == xs[FirstIndices(xs)[k]]
  {
    if xs != [] {
      var n := |xs| - 1;
      var init := xs[..n];
      var d := Dedupe(init);
      var ixi := FirstIndices(init);
      DedupeAt(init);
      SeenBefore(init, xs[n]);
      assert forall j :: 0 <= j < n ==> init[j] == xs[j];
      assert (exists j :: 0 <= j < n && Same(xs[j], xs[n])) <==> (exists j :: 0 <= j < |init| && Same(init[j], xs[n])) by {
        if exists j :: 0 <= j < n && Same(xs[j], xs[n]) {
          var j :| 0 <= j < n && Same(xs[j], xs[n]);
          assert Same(init[j], xs[n]);
        }
      }
      assert forall k :: 0 <= k < |ixi| ==> ixi[k] < n && d[k] == xs[ixi[k]];
      if !exists j :: 0 <= j < n && Same(xs[j], xs[n]) {
        assert Dedupe(xs) == d + [xs[n]];
        assert FirstIndices(xs) == ixi + [n];
        forall k | 0 <= k < |ixi| + 1
          ensures (ixi + [n])[k] < |xs| && (d + [xs[n]])[k] == xs[(ixi + [n])[k]]
        {
          if k < |ixi| {
            assert (ixi + [n])[k] == ixi[k] && (d + [xs[n]])[k] == d[k];
          }
        }
      } else {
        assert Dedupe(xs) == d;
        assert FirstIndices(xs) == ixi;
      }
    }
  }

  /** First-occurrence positions are in range and increasing. */
  lemma {:induction false} FirstIndicesOrdered(xs: seq<Value>)
    ensures forall k :: 0 <= k < |FirstIndices(xs)| ==> FirstIndices(xs)[k] < |xs|
    ensures forall k, l :: 0 <= k < l < |FirstIndices(xs)| ==> FirstIndices(xs)[k] < FirstIndices(xs)[l]
  {
    if xs != [] {
      var n := |xs| - 1;
      var init := xs[..n];
      assert |init| == n;
      var ixi := FirstIndices(init);
      FirstIndicesOrdered(init);
      assert forall k :: 0 <= k < |ixi| ==> ixi[k] < n;
      if exists j :: 0 <= j < n && Same(xs[j], xs[n]) {
        assert FirstIndices(xs) == ixi;
      } else {
        var ix := ixi + [n];
        assert FirstIndices(xs) == ix;
        assert forall k :: 0 <= k < |ixi| ==> ix[k] == ixi[k];
      }
    }
  }

  /** A position is a first-occurrence position exactly when no equal item comes before it. */
  lemma {:induction false} FirstIndexAt(xs: seq<Value>, i: nat)
    requires i < |xs|
    ensures i in FirstIndices(xs) <==> forall j :: 0 <= j < i ==> !Same(xs[j], xs[i])
  {
    var n := |xs| - 1;
    var init := xs[..n];
    var ixi := FirstIndices(init);
    var last := if exists j :: 0 <= j < n && Same(xs[j], xs[n]) then [] else [n];
    assert FirstIndices(xs) == ixi + last;
    assert i in FirstIndices(xs) <==> i in ixi || i in last;
    if i == n {
      FirstIndicesOrdered(init);
      assert |init| == n;
      assert n !in ixi;
    } else {
      FirstIndexAt(init, i);
      assert forall j :: 0 <= j <= i ==> init[j] == xs[j];
    }
  }

  /** An item equals an item of a list exactly when it equals an item the list's dedupe kept. */
  lemma SeenBefore(init: seq<Value>, x: Value)
    ensures (exists k :: 0 <= k < |Dedupe(init)| && Same(Dedupe(init)[k], x)) <==> (exists j :: 0 <= j < |init| && Same(init[j], x))
  {
    var d := Dedupe(init);
    DedupeSpec(init);
    if exists k :: 0 <= k < |d| && Same(d[k], x) {
      var k :| 0 <= k < |d| && Same(d[k], x);
      assert d[k] == x && x in d;
      assert x in init;
      var j :| 0 <= j < |init| && init[j] == x;
      assert Same(init[j], x);
    }
    if exists j :: 0 <= j < |init| && Same(init[j], x) {
      var j :| 0 <= j < |init| && Same(init[j], x);
      assert init[j] == x && x in init;
      assert x in d;
      var k :| 0 <= k < |d| && d[k] == x;
      assert Same(d[k], x);
      assert Same(Dedupe(init)[k], x);
    }
  }

  /** A list loses items to deduplication exactly when two of its items are SameValueZero-equal. */
  lemma {:induction false} DedupeShrinks(xs: seq<Value>)
    ensures |Dedupe(xs)| < |xs| <==> HasDuplicate(xs)
  {
    if xs != [] {
      var init := xs[..|xs| - 1];
      var x := xs[|xs| - 1];
      var d := Dedupe(init);
      DedupeShrinks(init);
      DedupeSpec(init);
      if HasDuplicate(init) {
        var i, j :| 0 <= i < j < |init| && Same(init[i], init[j]);
        assert Same(xs[i], xs[j]);
      }
      if exists k :: 0 <= k < |d| && Same(d[k], x) {
        var k :| 0 <= k < |d| && Same(d[k], x);
        assert d[k] in init;
        var i :| 0 <= i < |init| && init[i] == d[k];
        assert Same(xs[i], xs[|xs| - 1]);
      } else {
        forall i | 0 <= i < |init|
          ensures !Same(init[i], x)
        {
          assert init[i] in d;
          var k :| 0 <= k < |d| && d[k] == init[i];
        }
        if HasDuplicate(xs) {
          var i, j :| 0 <= i < j < |xs| && Same(xs[i], xs[j]);
          assert j < |xs| - 1;
          assert Same(init[i], init[j]);
        }
      }
    }
  }

  /** A list without duplicates is left as it is; so deduplicating twice is deduplicating once. */
  lemma {:induction false} DedupeDistinct(xs: seq<Value>)
    requires Distinct(xs)
    ensures Dedupe(xs) == xs
  {
    if xs != [] {
      var init := xs[..|xs| - 1];
      DedupeDistinct(init);
      DedupeShrinks(xs);
    }
  }

  lemma DedupeIdempotent(xs: seq<Value>)
    ensures Dedupe(Dedupe(xs)) == Dedupe(xs)
  {
    DedupeSpec(xs);
    DedupeDistinct(Dedupe(xs));
  }

  /** The accumulator and the messages pushed so far. */
  datatype Resolution = Resolution(acc: Accumulator, messages: seq<string>)

  function DuplicateMessage(name: string): string {
    "one or more value item removed due to duplicated for " + name
  }

  function LowerMessage(name: string): string {
    "both > and >= exist, keep the max one for " + name
  }

  function UpperMessage(name: string): string {
    "both < and <= exist, keep the min one for " + name
  }

  /** The list slot `i` (eq or ne) deduplicated, with its message when something was dropped. */
  function DedupeSlot(r: Resolution, name: string, i: nat): (s: Resolution)
    requires i < 2 && WellShaped(r.acc)
    ensures WellShaped(s.acc)
  {
    var slot := r.acc[i];
    if slot.List? then
      var d := Dedupe(slot.items);
      Resolution(r.acc[i := List(d)], r.messages + if |d| < |slot.items| then [DuplicateMessage(name)] else [])
    else r
  }

  /** Both bounds of a pair hold truthy values and the first is not above the second. */
  predicate Overlap(lo: Slot, hi: Slot) {
    lo.Scalar? && hi.Scalar? && Truthy(lo.v) && Truthy(hi.v) && LessEq(lo.v, hi.v)
  }

  /**
   * Turn `i` checks the bounds `j = 2i + 3` and `j + 1` (gt with gte, lte with lt): when
   * both hold truthy values and `acc[j] <= acc[j + 1]`, the looser one (gt, resp. lt) is
   * cleared to `null`.
   */
  function ClearLooser(r: Resolution, name: string, i: nat): (s: Resolution)
    requires i < 2 && WellShaped(r.acc)
    ensures WellShaped(s.acc)
  {
    if i == 0 then
      if Overlap(r.acc[3], r.acc[4]) then Resolution(r.acc[3 := Scalar(Null)], r.messages + [LowerMessage(name)]) else r
    else
      if Overlap(r.acc[5], r.acc[6]) then Resolution(r.acc[6 := Scalar(Null)], r.messages + [UpperMessage(name)]) else r
  }

  /** One turn of the loop over `i` = 0 (eq with gt/gte) and `i` = 1 (ne with lte/lt). */
  function Step(r: Resolution, name: string, i: nat): (s: Resolution)
    requires i < 2 && WellShaped(r.acc)
    ensures WellShaped(s.acc)
  {
    ClearLooser(DedupeSlot(r, name, i), name, i)
  }

  lemma DedupeSlotFacts(r: Resolution, name: string, i: nat)
    requires i < 2 && WellShaped(r.acc)
    ensures var s := DedupeSlot(r, name, i);
      && (forall k :: 0 <= k < 8 && k != i ==> s.acc[k] == r.acc[k])
      && (r.acc[i].List? ==> s.acc[i] == List(Dedupe(r.acc[i].items)))
      && (!r.acc[i].List? ==> s.acc == r.acc)
  {
  }

  lemma DedupeSlotMessages(r: Resolution, name: string, i: nat)
    requires i < 2 && WellShaped(r.acc)
    ensures DedupeSlot(r, name, i).messages ==
      r.messages + if r.acc[i].List? && HasDuplicate(r.acc[i].items) then [DuplicateMessage(name)] else []
  {
    if r.acc[i].List? {
      DedupeShrinks(r.acc[i].items);
    }
  }

  lemma ClearLooserMessages(r: Resolution, name: string, i: nat)
    requires i < 2 && WellShaped(r.acc)
    ensures ClearLooser(r, name, i).messages == r.messages +
      if i == 0 then (if Overlap(r.acc[3], r.acc[4]) then [LowerMessage(name)] else [])
      else (if Overlap(r.acc[5], r.acc[6]) then [UpperMessage(name)] else [])
  {
  }

  lemma ClearLooserFacts(r: Resolution, name: string, i: nat)
    requires i < 2 && WellShaped(r.acc)
    ensures var s := ClearLooser(r, name, i);
      && (forall k :: 0 <= k < 8 && k != 3 && k != 6 ==> s.acc[k] == r.acc[k])
      && (i == 0 ==> s.acc[6] == r.acc[6] && s.acc[3] == if Overlap(r.acc[3], r.acc[4]) then Scalar(Null) else r.acc[3])
      && (i == 1 ==> s.acc[3] == r.acc[3] && s.acc[6] == if Overlap(r.acc[5], r.acc[6]) then Scalar(Null) else r.acc[6])
  {
  }

  /** The field after both turns of the loop. */
  function Resolved(acc: Accumulator, name: string): (s: Resolution)
    requires WellShaped(acc)
    ensures WellShaped(s.acc)
  {
    Step(Step(Resolution(acc, []), name, 0), name, 1)
  }


  /**
   * Resolution slot by slot: eq and ne deduplicated, gt cleared when it does not exceed
   * gte, lt cleared when lte does not exceed it, everything else kept.
   */
  lemma ResolvedSteps(acc: Accumulator, name: string)
    requires WellShaped(acc)
    ensures var s := Resolved(acc, name).acc;
      && s[0] == (if acc[0].List? then List(Dedupe(acc[0].items)) else acc[0])
      && s[1] == (if acc[1].List? then List(Dedupe(acc[1].items)) else acc[1])
      && s[2] == acc[2] && s[4] == acc[4] && s[5] == acc[5] && s[7] == acc[7]
      && s[3] == (if Overlap(acc[3], acc[4]) then Scalar(Null) else acc[3])
      && s[6] == (if Overlap(acc[5], acc[6]) then Scalar(Null) else acc[6])
  {
    var r0 := DedupeSlot(Resolution(acc, []), name, 0);
    DedupeSlotFacts(Resolution(acc, []), name, 0);
    var r1 := ClearLooser(r0, name, 0);
    ClearLooserFacts(r0, name, 0);
    var r2 := DedupeSlot(r1, name, 1);
    DedupeSlotFacts(r1, name, 1);
    ClearLooserFacts(r2, name, 1);
  }

  /** The messages: one per list that lost duplicates and one per cleared bound, in loop order. */
  lemma ResolvedMessages(acc: Accumulator, name: string)
    requires WellShaped(acc)
    ensures Resolved(acc, name).messages ==
      (if acc[0].List? && HasDuplicate(acc[0].items) then [DuplicateMessage(name)] else [])
      + (if Overlap(acc[3], acc[4]) then [LowerMessage(name)] else [])
      + (if acc[1].List? && HasDuplicate(acc[1].items) then [DuplicateMessage(name)] else [])
      + (if Overlap(acc[5], acc[6]) then [UpperMessage(name)] else [])
  {
    var d0 := if acc[0].List? && HasDuplicate(acc[0].items) then [DuplicateMessage(name)] else [];
    var r0 := DedupeSlot(Resolution(acc, []), name, 0);
    DedupeSlotMessages(Resolution(acc, []), name, 0);
    DedupeSlotFacts(Resolution(acc, []), name, 0);
    assert r0.messages == d0;
    var r1 := ClearLooser(r0, name, 0);
    ClearLooserMessages(r0, name, 0);
    ClearLooserFacts(r0, name, 0);
    var r2 := DedupeSlot(r1, name, 1);
    DedupeSlotMessages(r1, name, 1);
    DedupeSlotFacts(r1, name, 1);
    ClearLooserMessages(r2, name, 1);
  }

  /**
   * What resolution does to each slot: eq and ne lose their duplicates and keep every
   * value; bt, gte, lte and regex are untouched; gt and lt stay or are cleared to `null`.
   */
  lemma ResolvedSlots(acc: Accumulator, name: string)
    requires WellShaped(acc)
    ensures var s := Resolved(acc, name).acc;
      && (acc[0].List? ==> s[0].List? && Distinct(s[0].items) && (forall v :: v in s[0].items <==> v in acc[0].items))
      && (acc[1].List? ==> s[1].List? && Distinct(s[1].items) && (forall v :: v in s[1].items <==> v in acc[1].items))
      && (!acc[0].List? ==> s[0] == acc[0]) && (!acc[1].List? ==> s[1] == acc[1])
      && s[2] == acc[2] && s[4] == acc[4] && s[5] == acc[5] && s[7] == acc[7]
      && (s[3] == acc[3] || s[3] == Scalar(Null))
      && (s[6] == acc[6] || s[6] == Scalar(Null))
  {
    ResolvedSteps(acc, name);
    if acc[0].List? {
      DedupeSpec(acc[0].items);
    }
    if acc[1].List? {
      DedupeSpec(acc[1].items);
    }
  }

  /** After resolution no pair of bounds is redundant: a kept gt is above a kept gte, a kept lt below a kept lte. */
  lemma NoRedundantBounds(acc: Accumulator, name: string)
    requires WellShaped(acc)
    ensures var s := Resolved(acc, name).acc;
      !Overlap(s[3], s[4]) && !Overlap(s[5], s[6])
  {
    ResolvedSteps(acc, name);
  }

  /** A bound is cleared exactly when its pair overlaps. */
  lemma BoundClearedWhenOverlapping(acc: Accumulator, name: string)
    requires WellShaped(acc)
    ensures var s := Resolved(acc, name);
      && (s.acc[3] != acc[3] <==> Overlap(acc[3], acc[4]))
      && (s.acc[6] != acc[6] <==> Overlap(acc[5], acc[6]))
  {
    ResolvedSteps(acc, name);
  }

  /** `has_value`: some slot is not `null`. */
  predicate HasValue(acc: Accumulator) {
    exists i :: 0 <= i < 8 && acc[i] != Scalar(Null)
  }

  /**
   * The `eq` slot never holds `null` (it is unset or a list), so `has_value` always
   * holds and the "no value" branch of `get_query_values` cannot be taken.
   */
  lemma AlwaysHasValue(acc: Accumulator, name: string)
    requires WellShaped(acc)
    ensures HasValue(Resolved(acc, name).acc)
  {
    assert Resolved(acc, name).acc[0] != Scalar(Null);
  }

  function NoValueMessage(name: string): string {
    "skipped, due no value for " + name
  }

  /**
   * Deduplicating list slot `i` in place (src/index.js:236-242); `msgs` are the messages
   * pushed so far and `added` the ones this step pushes.
   */
  method DedupeStep(name: string, i: nat, acc: Accumulator, ghost msgs: seq<string>, log: Log)
    returns (next: Accumulator, ghost added: seq<string>)
    requires i < 2 && WellShaped(acc)
    modifies log
    ensures DedupeSlot(Resolution(acc, msgs), name, i) == Resolution(next, msgs + added)
    ensures log.messages == old(log.messages) + added
  {
    next, added := acc, [];
    if acc[i].List? {
      var prevSize := |acc[i].items|;
      next := acc[i := List(Dedupe(acc[i].items))];
      if |next[i].items| < prevSize {
        log.Push(DuplicateMessage(name));
        added := [DuplicateMessage(name)];
      }
    }
  }

  /** Clearing the looser of the bounds `2i + 3` and `2i + 4` (src/index.js:243-250). */
  method ClearStep(name: string, i: nat, acc: Accumulator, ghost msgs: seq<string>, log: Log)
    returns (next: Accumulator, ghost added: seq<string>)
    requires i < 2 && WellShaped(acc)
    modifies log
    ensures ClearLooser(Resolution(acc, msgs), name, i) == Resolution(next, msgs + added)
    ensures log.messages == old(log.messages) + added
  {
    next, added := acc, [];
    var j := 2 * i + 3;
    if Overlap(acc[j], acc[j + 1]) {
      if i == 0 {
        assert j == 3;
        next := acc[j := Scalar(Null)];
        log.Push(LowerMessage(name));
        added := [LowerMessage(name)];
      } else {
        assert j + 1 == 6;
        next := acc[j + 1 := Scalar(Null)];
        log.Push(UpperMessage(name));
        added := [UpperMessage(name)];
      }
    } else {
      assert msgs + added == msgs;
    }
  }

  /** One turn of the loop: deduplicate list slot `i`, then clear the looser bound of pair `i`. */
  method ResolveTurn(name: string, i: nat, acc: Accumulator, ghost msgs: seq<string>, log: Log)
    returns (next: Accumulator, ghost added: seq<string>)
    requires i < 2 && WellShaped(acc)
    modifies log
    ensures Step(Resolution(acc, msgs), name, i) == Resolution(next, msgs + added)
    ensures log.messages == old(log.messages) + added
  {
    var deduped;
    ghost var a1, a2;
    deduped, a1 := DedupeStep(name, i, acc, msgs, log);
    next, a2 := ClearStep(name, i, deduped, msgs + a1, log);
    added := a1 + a2;
    AppendAssoc(msgs, a1, a2);
    AppendAssoc(old(log.messages), a1, a2);
  }

  /** The loop over `i` = 0, 1 of `get_query_values` (src/index.js:235-251), pushing its messages. */
  method ResolveField(name: string, acc: Accumulator, log: Log) returns (resolved: Accumulator)
    requires WellShaped(acc)
    modifies log
    ensures resolved == Resolved(acc, name).acc
    ensures log.messages == old(log.messages) + Resolved(acc, name).messages
  {
    resolved := acc;
    ghost var msgs: seq<string> := [];
    for i := 0 to 2
      invariant WellShaped(resolved)
      invariant log.messages == old(log.messages) + msgs
      invariant i == 0 ==> resolved == acc && msgs == []
      invariant i == 1 ==> Resolution(resolved, msgs) == Step(Resolution(acc, []), name, 0)
      invariant i == 2 ==> Resolution(resolved, msgs) == Resolved(acc, name)
    {
      ghost var added;
      resolved, added := ResolveTurn(name, i, resolved, msgs, log);
      AppendAssoc(old(log.messages), msgs, added);
      msgs := msgs + added;
    }
  }

  /** The `has_value` loop (src/index.js:252-258). */
  method FindValue(acc: Accumulator) returns (hasValue: bool)
    ensures hasValue <==> HasValue(acc)
  {
    hasValue := false;
    for i := 0 to 8
      invariant hasValue <==> exists k :: 0 <= k < i && acc[k] != Scalar(Null)
    {
      if acc[i] != Scalar(Null) {
        hasValue := true;
        break;
      }
    }
  }

  /**
   * `get_query_values(name_values, name, matrix, messages)`: the field is cleaned up in
   * place in `name_values`, and the same accumulator goes into `matrix`.
   */
  method GetQueryValues(name: string, nameValues: Fields, matrix: Fields, log: Log)
    requires nameValues.Valid() && matrix.Valid() && nameValues != matrix
    requires name in nameValues.slots
    modifies nameValues, matrix, log
    ensures nameValues.Valid() && matrix.Valid()
    ensures var s := Resolved(old(Lookup(nameValues.Model(), name)), name);
      && nameValues.Model() == Put(old(nameValues.Model()), name, s.acc)
      && matrix.Model() == Put(old(matrix.Model()), name, s.acc)
      && log.messages == old(log.messages) + s.messages
  {
    var acc := nameValues.slots[name];
    assert WellShaped(acc);
    acc := ResolveField(name, acc, log);
    nameValues.Set(name, acc);
    var hasValue := FindValue(acc);
    if hasValue {
      matrix.Set(name, acc);
    } else {
      // unreachable: see AlwaysHasValue
      assert false;
    }
  }
}
