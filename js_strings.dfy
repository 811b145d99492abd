/**
 * The few JavaScript string operations the query compiler relies on:
 * `trim`, `includes`, `split`, `endsWith`, decimal formatting of integers
 * and decimal parsing as done by `Number(...)` (integers only).
 */
module JsStrings {
  import opened Wrappers

  /** The characters removed by `String.prototype.trim` (WhiteSpace and LineTerminator). */
  predicate IsWhiteSpace(c: char) {
    || c == ' ' || c == '\t' || c == '\n' || c == '\r'
    || c == '\U{B}' || c == '\U{C}' || c == '\U{A0}' || c == '\U{1680}'
    || ('\U{2000}' <= c <= '\U{200A}')
    || c == '\U{2028}' || c == '\U{2029}' || c == '\U{202F}' || c == '\U{205F}'
    || c == '\U{3000}' || c == '\U{FEFF}'
  }

  /** `s` without its leading white space. */
  function TrimStart(s: string): string {
    if |s| > 0 && IsWhiteSpace(s[0]) then TrimStart(s[1..]) else s
  }

  /** `s` without its trailing white space. */
  function TrimEnd(s: string): string {
    if |s| > 0 && IsWhiteSpace(s[|s| - 1]) then TrimEnd(s[..|s| - 1]) else s
  }

  /** `s.trim()`: `s` without its leading and trailing white space. */
  function Trim(s: string): string {
    TrimEnd(TrimStart(s))
  }

  /** Trimming the start drops a run of white space and stops at the first other character. */
  lemma {:induction false} TrimStartFacts(s: string)
    ensures var r := TrimStart(s);
      && |r| <= |s| && r == s[|s| - |r|..]
      && (forall k :: 0 <= k < |s| - |r| ==> IsWhiteSpace(s[k]))
      && (r == [] || !IsWhiteSpace(r[0]))
  {
    if |s| > 0 && IsWhiteSpace(s[0]) {
      var t := s[1..];
      TrimStartFacts(t);
      var r := TrimStart(t);
      assert t[|t| - |r|..] == s[|s| - |r|..];
      forall k | 0 < k < |s| - |r|
        ensures IsWhiteSpace(s[k])
      {
        assert s[k] == t[k - 1];
      }
    }
  }

  /** Trimming the end drops a run of white space and stops at the last other character. */
  lemma {:induction false} TrimEndFacts(s: string)
    ensures var r := TrimEnd(s);
      && |r| <= |s| && r == s[..|r|]
      && (forall k :: |r| <= k < |s| ==> IsWhiteSpace(s[k]))
      && (r == [] || !IsWhiteSpace(r[|r| - 1]))
  {
    if |s| > 0 && IsWhiteSpace(s[|s| - 1]) {
      var t := s[..|s| - 1];
      TrimEndFacts(t);
      var r := TrimEnd(t);
      assert t[..|r|] == s[..|r|];
      forall k | |r| <= k < |s| - 1
        ensures IsWhiteSpace(s[k])
      {
        assert s[k] == t[k];
      }
    }
  }

  /**
   * The trimmed string is the middle part `s[i..j]` of `s`, with only white space cut
   * off before `i` and after `j`, and it starts and ends with a character other than
   * white space.
   */
  lemma TrimFacts(s: string)
    ensures var r := Trim(s);
      && (exists i, j :: && 0 <= i <= j <= |s| && r == s[i..j]
                         && (forall k :: 0 <= k < i ==> IsWhiteSpace(s[k]))
                         && (forall k :: j <= k < |s| ==> IsWhiteSpace(s[k])))
      && (r == [] || (!IsWhiteSpace(r[0]) && !IsWhiteSpace(r[|r| - 1])))
  {
    var t := TrimStart(s);
    TrimStartFacts(s);
    TrimEndFacts(t);
    var r := TrimEnd(t);
    assert r != [] ==> r[0] == t[0];
    var i := |s| - |t|;
    var j := i + |r|;
    assert r == s[i..j];
    forall k | j <= k < |s|
      ensures IsWhiteSpace(s[k])
    {
      assert s[k] == t[k - i];
    }
  }

  lemma TrimStartOfClean(s: string)
    requires s == [] || !IsWhiteSpace(s[0])
    ensures TrimStart(s) == s
  {
  }

  lemma TrimEndOfClean(s: string)
    requires s == [] || !IsWhiteSpace(s[|s| - 1])
    ensures TrimEnd(s) == s
  {
  }

  /** A string with no white space at either end is its own trim. */
  lemma TrimOfClean(s: string)
    requires s == [] || (!IsWhiteSpace(s[0]) && !IsWhiteSpace(s[|s| - 1]))
    ensures Trim(s) == s
  {
    TrimStartOfClean(s);
    TrimEndOfClean(s);
  }

  /** Trimming twice is trimming once. */
  lemma TrimIdempotent(s: string)
    ensures Trim(Trim(s)) == Trim(s)
  {
    TrimFacts(s);
    TrimOfClean(Trim(s));
  }

  /** `sep` occurs in `s` at position `k`. */
  predicate IsAt(s: string, sep: string, k: int) {
    0 <= k && k + |sep| <= |s| && s[k..k + |sep|] == sep
  }

  /** `s.indexOf(sep, from)`, with -1 for "not found". */
  function IndexOf(s: string, sep: string, from: nat): (r: int)
    requires |sep| > 0
    ensures r == -1 || (from <= r && IsAt(s, sep, r))
    ensures r == -1 ==> forall k :: from <= k ==> !IsAt(s, sep, k)
    ensures r != -1 ==> forall k :: from <= k < r ==> !IsAt(s, sep, k)
    decreases |s| - from
  {
    if from + |sep| > |s| then -1
    else if s[from..from + |sep|] == sep then from
    else IndexOf(s, sep, from + 1)
  }

  /** `s.includes(sep)`. */
  predicate Includes(s: string, sep: string)
    requires |sep| > 0
  {
    IndexOf(s, sep, 0) >= 0
  }

  lemma IncludesAt(s: string, sep: string)
    requires |sep| > 0
    ensures Includes(s, sep) <==> exists k :: IsAt(s, sep, k)
  {
  }

  /** `s.split(sep)` for a non-empty separator: the pieces between the occurrences of `sep`, left to right. */
  function Split(s: string, sep: string): (parts: seq<string>)
    requires |sep| > 0
    ensures |parts| >= 1
    decreases |s|
  {
    var i := IndexOf(s, sep, 0);
    if i < 0 then [s] else [s[..i]] + Split(s[i + |sep|..], sep)
  }

  /** `parts.join(sep)`. */
  function Join(parts: seq<string>, sep: string): string
    requires |parts| >= 1
  {
    if |parts| == 1 then parts[0] else parts[0] + sep + Join(parts[1..], sep)
  }

  /** Splitting and joining again gives back the original string. */
  lemma {:induction false} JoinSplit(s: string, sep: string)
    requires |sep| > 0
    ensures Join(Split(s, sep), sep) == s
    decreases |s|
  {
    var i := IndexOf(s, sep, 0);
    if i >= 0 {
      var rest := s[i + |sep|..];
      var tail := Split(rest, sep);
      JoinSplit(rest, sep);
      var parts := [s[..i]] + tail;
      assert Split(s, sep) == parts;
      assert parts[1..] == tail;
      assert Join(parts, sep) == s[..i] + sep + Join(tail, sep);
      assert s[i..i + |sep|] == sep;
      assert s == s[..i] + s[i..i + |sep|] + rest;
    }
  }

  /** A split yields a single piece exactly when the separator does not occur. */
  lemma SplitSingle(s: string, sep: string)
    requires |sep| > 0
    ensures |Split(s, sep)| == 1 <==> !Includes(s, sep)
  {
  }

  /** No piece of a split contains the separator. */
  lemma {:induction false} SplitPiecesClean(s: string, sep: string)
    requires |sep| > 0
    ensures forall p :: p in Split(s, sep) ==> !Includes(p, sep)
    decreases |s|
  {
    var i := IndexOf(s, sep, 0);
    if i < 0 {
    } else {
      SplitPiecesClean(s[i + |sep|..], sep);
      var p := s[..i];
      forall k | 0 <= k
        ensures !IsAt(p, sep, k)
      {
        if k + |sep| <= |p| {
          assert k < i && !IsAt(s, sep, k);
          assert p[k..k + |sep|] == s[k..k + |sep|];
        }
      }
      IncludesAt(p, sep);
    }
  }

  /** An occurrence of `sep` starts with `sep`'s characters. */
  lemma AtChars(s: string, sep: string, k: int)
    requires IsAt(s, sep, k) && |sep| > 0
    ensures s[k] == sep[0]
    ensures |sep| > 1 ==> s[k + 1] == sep[1]
  {
    assert s[k..k + |sep|][0] == s[k];
    if |sep| > 1 {
      assert s[k..k + |sep|][1] == s[k + 1];
    }
  }

  /** A string in which the separator's first character never appears does not contain it. */
  lemma {:induction false} MissingFirstChar(s: string, sep: string)
    requires |sep| > 0
    requires forall k :: 0 <= k < |s| ==> s[k] != sep[0]
    ensures !Includes(s, sep)
  {
    if Includes(s, sep) {
      var i := IndexOf(s, sep, 0);
      AtChars(s, sep, i);
    }
  }

  /** Splitting `a + sep + b` gives `[a, b]` when neither side holds the separator's first character. */
  lemma {:induction false} SplitAround(a: string, sep: string, b: string)
    requires |sep| > 0
    requires forall k :: 0 <= k < |a| ==> a[k] != sep[0]
    requires forall k :: 0 <= k < |b| ==> b[k] != sep[0]
    ensures Split(a + sep + b, sep) == [a, b]
  {
    var s := a + sep + b;
    assert IsAt(s, sep, |a|) by {
      assert s[|a|..|a| + |sep|] == sep;
    }
    var i := IndexOf(s, sep, 0);
    if i < |a| {
      AtChars(s, sep, i);
    }
    assert i == |a|;
    assert s[..i] == a;
    assert s[i + |sep|..] == b;
    MissingFirstChar(b, sep);
  }

  /** A split into exactly two pieces: the string is the first piece, the separator and the second, and neither piece holds the separator. */
  lemma SplitTwo(s: string, sep: string)
    requires |sep| > 0 && |Split(s, sep)| == 2
    ensures var parts := Split(s, sep);
      && s == parts[0] + sep + parts[1]
      && !Includes(parts[0], sep) && !Includes(parts[1], sep)
  {
    var parts := Split(s, sep);
    JoinSplit(s, sep);
    SplitPiecesClean(s, sep);
    assert parts[1..] == [parts[1]];
    assert parts[0] in parts && parts[1] in parts;
  }

  /** `s.endsWith(c)` for a one-character suffix. */
  predicate EndsWith(s: string, c: char) {
    |s| > 0 && s[|s| - 1] == c
  }

  /** `s.substr(0, s.length - 1)`. */
  function DropLast(s: string): (r: string)
    requires |s| > 0
    ensures r + [s[|s| - 1]] == s
  {
    s[..|s| - 1]
  }

  // ---------------------------------------------------------------- numbers

  predicate IsDigit(c: char) {
    '0' <= c <= '9'
  }

  function DigitChar(d: nat): (c: char)
    requires d < 10
    ensures IsDigit(c)
  {
    "0123456789"[d]
  }

  function DigitValue(c: char): nat
    requires IsDigit(c)
  {
    (c as int - '0' as int) as nat
  }

  predicate AllDigits(s: string) {
    forall k :: 0 <= k < |s| ==> IsDigit(s[k])
  }

  /** The value of a string of decimal digits. */
  function DigitsValue(s: string): nat
    requires AllDigits(s)
  {
    if s == [] then 0 else DigitsValue(s[..|s| - 1]) * 10 + DigitValue(s[|s| - 1])
  }

  /** Decimal notation of a natural number, without leading zeros. */
  function NatToString(n: nat): (r: string)
    ensures |r| > 0 && AllDigits(r)
  {
    if n < 10 then [DigitChar(n)] else NatToString(n / 10) + [DigitChar(n % 10)]
  }

  /** `String(n)` for an integer `n`. */
  function IntToString(n: int): (r: string)
    ensures |r| > 0
  {
    if n < 0 then "-" + NatToString(-n) else NatToString(n)
  }

  /**
   * `Number(s)` restricted to integers: after trimming, the empty string is 0 and an
   * optionally signed run of decimal digits is its value; everything else is not a number.
   */
  function ParseInteger(s: string): Option<int> {
    var t := Trim(s);
    if t == [] then Some(0)
    else if AllDigits(t) then Some(DigitsValue(t))
    else if |t| > 1 && (t[0] == '-' || t[0] == '+') && AllDigits(t[1..]) then
      Some(if t[0] == '-' then 0 - DigitsValue(t[1..]) else DigitsValue(t[1..]))
    else None
  }

  lemma {:induction false} DigitsOfNat(n: nat)
    ensures DigitsValue(NatToString(n)) == n
  {
    if n >= 10 {
      DigitsOfNat(n / 10);
      var s := NatToString(n);
      assert s[..|s| - 1] == NatToString(n / 10);
    }
  }

  /** Parsing the decimal notation of an integer gives the integer back. */
  lemma ParseIntToString(n: int)
    ensures ParseInteger(IntToString(n)) == Some(n)
  {
    var s := IntToString(n);
    var d := NatToString(if n < 0 then -n else n);
    DigitsOfNat(if n < 0 then -n else n);
    assert !IsWhiteSpace(d[0]) && !IsWhiteSpace(d[|d| - 1]);
    if n < 0 {
      assert s == "-" + d && s[1..] == d;
      assert !AllDigits(s) by {
        assert !IsDigit(s[0]);
      }
      TrimOfClean(s);
    } else {
      assert s == d;
      TrimOfClean(s);
    }
  }

  /** Parsing ignores surrounding white space. */
  lemma ParseIntegerOfTrim(s: string)
    ensures ParseInteger(Trim(s)) == ParseInteger(s)
  {
    TrimIdempotent(s);
  }
}
