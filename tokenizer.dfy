/**
 * The key tokenizer `get_name_value_op` (src/index.js:40-76): one raw query key and
 * its raw value become a field name, an operator and a value.
 */
module Tokenizer {
  import opened Wrappers
  import opened JsStrings
  import opened JsValues
  import opened Operators

  datatype Token = Token(name: string, value: Value, op: Op)

  /** The infix marker that writes `op` inside a key whose value is empty: `x<>1|2`, `x>1`, `x<1`. */
  function Marker(op: Op): string {
    match op
    case Bt => "<>"
    case Gt => ">"
    case Lt => "<"
    case _ => ""
  }

  /** The trailing marker that writes `op` at the end of a key with a value: `x!`, `x<`, `x>`, `x$`. */
  function Suffix(op: Op): string {
    match op
    case Ne => "!"
    case Lte => "<"
    case Gte => ">"
    case Regex => "$"
    case _ => ""
  }

  predicate IsInfix(op: Op) { op == Bt || op == Gt || op == Lt }
  predicate IsSuffix(op: Op) { op == Ne || op == Lte || op == Gte || op == Regex }

  /** The infix operator a key carries: `<>` first, then `>`, then `<`. */
  function InfixOp(key: string): (r: Option<Op>)
    ensures r.Some? ==> IsInfix(r.value)
  {
    if Includes(key, "<>") then Some(Bt)
    else if Includes(key, ">") then Some(Gt)
    else if Includes(key, "<") then Some(Lt)
    else None
  }

  /** The operator a key's last character stands for, when it has a value. */
  function SuffixOp(key: string): (r: Option<Op>)
    ensures r.Some? ==> IsSuffix(r.value) && |key| > 0 && Suffix(r.value) == [key[|key| - 1]]
  {
    if EndsWith(key, '!') then Some(Ne)
    else if EndsWith(key, '<') then Some(Lte)
    else if EndsWith(key, '>') then Some(Gte)
    else if EndsWith(key, '$') then Some(Regex)
    else None
  }

  /** The strings `'null'` and `'NULL'` stand for `null`. */
  function NullLiteral(v: Value): Value {
    if v == Str("null") || v == Str("NULL") then Null else v
  }

  /** `get_name_value_op(key, value)`. */
  function NameValueOp(key: string, value: Value): Token {
    if !Truthy(value) then
      match InfixOp(key)
      case None => Token(key, NullLiteral(value), Eq)
      case Some(op) =>
        var parts := Split(key, Marker(op));
        if |parts| == 2 then Token(parts[0], NullLiteral(Str(Trim(parts[1]))), op)
        else Token(key, NullLiteral(value), op)
    else
      match SuffixOp(key)
      case None => Token(key, NullLiteral(value), Eq)
      case Some(op) => Token(DropLast(key), NullLiteral(value), op)
  }

  /**
   * With a value, the key is the name followed by the operator's trailing marker
   * (none for `eq`), and a key ending in none of `!`, `<`, `>`, `$` is an `eq` on itself.
   */
  lemma SuffixForm(key: string, value: Value)
    requires Truthy(value)
    ensures var t := NameValueOp(key, value);
      && (t.op == Eq || IsSuffix(t.op))
      && key == t.name + Suffix(t.op)
      && t.value == NullLiteral(value)
      && (t.op == Eq <==> !(EndsWith(key, '!') || EndsWith(key, '<') || EndsWith(key, '>') || EndsWith(key, '$')))
  {
  }

  /** A key containing `<>` contains `<`. */
  lemma BetweenHasLess(key: string)
    requires Includes(key, "<>")
    ensures Includes(key, "<")
  {
    var k := IndexOf(key, "<>", 0);
    AtChars(key, "<>", k);
    assert IsAt(key, "<", k) by { assert key[k..k + 1] == [key[k]]; }
  }

  /** With an empty value, the operator comes from the key: `<>` before `>` before `<`, else `eq`. */
  lemma InfixOperator(key: string, value: Value)
    requires !Truthy(value)
    ensures var t := NameValueOp(key, value);
      && (t.op == Eq || IsInfix(t.op))
      && (t.op == Bt <==> Includes(key, "<>"))
      && (t.op == Gt <==> !Includes(key, "<>") && Includes(key, ">"))
      && (t.op == Eq <==> !Includes(key, "<") && !Includes(key, ">"))
  {
    if Includes(key, "<>") {
      BetweenHasLess(key);
    }
  }

  /**
   * With an empty value, the name and value are split off only when the operator's
   * marker occurs exactly once; then the key is the name, the marker and the
   * untrimmed value, and neither side contains the marker. Otherwise the key is the
   * name and the value is kept.
   */
  lemma {:induction false} InfixSplit(key: string, value: Value)
    requires !Truthy(value)
    ensures var t := NameValueOp(key, value);
      && (t.name != key <==> t.op != Eq && |Split(key, Marker(t.op))| == 2)
      && (t.name == key ==> t.value == NullLiteral(value))
      && (t.name != key ==>
            var rest := key[|t.name| + |Marker(t.op)|..];
            && key == t.name + Marker(t.op) + rest
            && t.value == NullLiteral(Str(Trim(rest)))
            && !Includes(t.name, Marker(t.op))
            && !Includes(rest, Marker(t.op)))
  {
    match InfixOp(key)
    case None =>
    case Some(op) =>
      var sep := Marker(op);
      var parts := Split(key, sep);
      if |parts| == 2 {
        SplitTwo(key, sep);
        var t := Token(parts[0], NullLiteral(Str(Trim(parts[1]))), op);
        assert NameValueOp(key, value) == t;
        assert key[|parts[0]| + |sep|..] == parts[1];
      } else {
        assert NameValueOp(key, value) == Token(key, NullLiteral(value), op);
      }
  }

  /** No `<` or `>` anywhere. */
  predicate NoAngles(s: string) {
    forall k :: 0 <= k < |s| ==> s[k] != '<' && s[k] != '>'
  }

  /** The infix operator of a key built from a marker and two angle-free sides is that marker's. */
  lemma InfixOpAround(name: string, op: Op, text: string)
    requires IsInfix(op) && NoAngles(name) && NoAngles(text)
    ensures InfixOp(name + Marker(op) + text) == Some(op)
  {
    var key := name + Marker(op) + text;
    assert IsAt(key, Marker(op), |name|) by {
      assert key[|name|..|name| + |Marker(op)|] == Marker(op);
    }
    if op == Gt {
      MissingFirstChar(key, "<>");
    } else if op == Lt {
      assert forall k :: 0 <= k < |key| ==> key[k] != '>';
      MissingFirstChar(key, ">");
      assert !Includes(key, "<>") by {
        if Includes(key, "<>") {
          AtChars(key, "<>", IndexOf(key, "<>", 0));
        }
      }
    }
  }

  /** Writing a comparison into the key and tokenizing it gives back the name, the operator and the trimmed value. */
  lemma InfixRoundTrip(name: string, op: Op, text: string, value: Value)
    requires IsInfix(op) && NoAngles(name) && NoAngles(text) && !Truthy(value)
    ensures NameValueOp(name + Marker(op) + text, value) == Token(name, NullLiteral(Str(Trim(text))), op)
  {
    InfixOpAround(name, op, text);
    SplitAround(name, Marker(op), text);
  }

  /** Writing an operator as the key's trailing marker and tokenizing gives back the name and the operator. */
  lemma SuffixRoundTrip(name: string, op: Op, value: Value)
    requires IsSuffix(op) && Truthy(value)
    ensures NameValueOp(name + Suffix(op), value) == Token(name, NullLiteral(value), op)
  {
    assert DropLast(name + Suffix(op)) == name;
  }
}
