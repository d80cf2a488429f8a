/**
 * The parts of java.lang that the batch code leans on, stated over Dafny values:
 * null references, String.trim/isEmpty/toLowerCase/endsWith/contains/split,
 * String.join, Integer.parseInt and Integer.toString.
 */
module JavaLang {

  /** A Java reference that may be null. */
  datatype Option<+T> = None | Some(value: T)

  /** A thrown exception, kept as its class name and its (nullable) message. */
  datatype Throwable = Throwable(className: string, message: Option<string>)

  /** A call that either returns a value or throws. */
  datatype Result<+T> = Ok(value: T) | Err(error: Throwable)

  const MinInt: int := -0x8000_0000
  const MaxInt: int := 0x7fff_ffff

  /** Java's string conversion of a nullable string, as `"" + s` does it. */
  function Str(s: Option<string>): string
  {
    if s.None? then "null" else s.value
  }

  // ---------------------------------------------------------------------------
  // trim / blank

  /** Characters String.trim() strips: every code point up to and including the space. */
  predicate IsTrimmed(c: char)
  {
    c <= ' '
  }

  function TrimStart(s: string): (r: string)
    ensures |r| <= |s| && r == s[|s| - |r|..]
    ensures r != [] ==> !IsTrimmed(r[0])
    decreases |s|
  {
    if |s| > 0 && IsTrimmed(s[0]) then TrimStart(s[1..]) else s
  }

  function TrimEnd(s: string): (r: string)
    ensures |r| <= |s| && r == s[..|r|]
    ensures r != [] ==> !IsTrimmed(r[|r| - 1])
    decreases |s|
  {
    if |s| > 0 && IsTrimmed(s[|s| - 1]) then TrimEnd(s[..|s| - 1]) else s
  }

  /** String.trim(): leading and trailing characters <= ' ' removed. */
  function Trim(s: string): string
  {
    TrimEnd(TrimStart(s))
  }

  /** `s.trim().isEmpty()` */
  predicate IsBlank(s: string)
  {
    Trim(s) == ""
  }

  /** `s == null || s.trim().isEmpty()`, the guard every converter uses on its business key. */
  predicate IsNullOrBlank(s: Option<string>)
  {
    s.None? || IsBlank(s.value)
  }

  lemma {:induction false} TrimStartEmpty(s: string)
    ensures TrimStart(s) == "" <==> forall i :: 0 <= i < |s| ==> IsTrimmed(s[i])
    decreases |s|
  {
    if |s| > 0 {
      TrimStartEmpty(s[1..]);
      if IsTrimmed(s[0]) {
        assert forall i :: 1 <= i < |s| ==> s[i] == s[1..][i - 1];
      }
    }
  }

  /** A string is blank exactly when every character is one that trim strips. */
  lemma BlankIffAllTrimmed(s: string)
    ensures IsBlank(s) <==> forall i :: 0 <= i < |s| ==> IsTrimmed(s[i])
  {
    TrimStartEmpty(s);
    var t := TrimStart(s);
    if t != "" {
      assert TrimEnd(t) != "" by {
        assert !IsTrimmed(t[0]);
        TrimEndKeepsFirst(t);
      }
    }
  }

  lemma {:induction false} TrimEndKeepsFirst(t: string)
    requires t != [] && !IsTrimmed(t[0])
    ensures TrimEnd(t) != []
    decreases |t|
  {
    if IsTrimmed(t[|t| - 1]) {
      TrimEndKeepsFirst(t[..|t| - 1]);
    }
  }

  // ---------------------------------------------------------------------------
  // toLowerCase

  predicate IsUpper(c: char)
  {
    'A' <= c <= 'Z'
  }

  function ToLowerChar(c: char): (r: char)
    ensures !IsUpper(r)
  {
    if IsUpper(c) then (c as int + 32) as char else c
  }

  /** String.toLowerCase() on the ASCII letters; every other character is kept. */
  function ToLowerCase(s: string): (r: string)
    ensures |r| == |s|
    ensures forall i :: 0 <= i < |s| ==> r[i] == ToLowerChar(s[i])
  {
    seq(|s|, i requires 0 <= i < |s| => ToLowerChar(s[i]))
  }

  predicate HasNoUpper(s: string)
  {
    forall i :: 0 <= i < |s| ==> !IsUpper(s[i])
  }

  /** Lower-casing leaves no upper-case letter, and leaves a string without one unchanged. */
  lemma LowerCaseFixpoint(s: string)
    ensures HasNoUpper(ToLowerCase(s))
    ensures HasNoUpper(s) <==> ToLowerCase(s) == s
  {
    if ToLowerCase(s) == s {
      assert forall i :: 0 <= i < |s| ==> s[i] == ToLowerChar(s[i]);
    }
  }

  /** Lower-casing twice is lower-casing once. */
  lemma LowerCaseIdempotent(s: string)
    ensures ToLowerCase(ToLowerCase(s)) == ToLowerCase(s)
  {
    LowerCaseFixpoint(s);
    LowerCaseFixpoint(ToLowerCase(s));
  }

  // ---------------------------------------------------------------------------
  // endsWith / contains

  predicate EndsWith(s: string, suffix: string)
  {
    |suffix| <= |s| && s[|s| - |suffix|..] == suffix
  }

  /** `part` occurs in `s` starting at index i. */
  predicate OccursAt(s: string, part: string, i: int)
  {
    0 <= i && i + |part| <= |s| && s[i..i + |part|] == part
  }

  /** s.contains(part) */
  predicate Contains(s: string, part: string)
  {
    exists i | 0 <= i <= |s| :: OccursAt(s, part, i)
  }

  // ---------------------------------------------------------------------------
  // String.join and String.split on one character

  /** String.join(sep, xs) */
  function Join(xs: seq<string>, sep: string): string
  {
    if |xs| == 0 then ""
    else if |xs| == 1 then xs[0]
    else xs[0] + sep + Join(xs[1..], sep)
  }

  function IndexOf(s: string, c: char): (r: nat)
    requires c in s
    ensures r < |s| && s[r] == c && c !in s[..r]
  {
    if s[0] == c then 0 else 1 + IndexOf(s[1..], c)
  }

  /** s.split(sep, -1): every piece between separators, empty pieces included. */
  function Split(s: string, sep: char): (r: seq<string>)
    ensures |r| >= 1
    decreases |s|
  {
    if sep !in s then [s]
    else
      var k := IndexOf(s, sep);
      [s[..k]] + Split(s[k + 1..], sep)
  }

  lemma {:induction false} IndexOfAfter(a: string, c: char, b: string)
    requires c !in a
    ensures c in a + [c] + b && IndexOf(a + [c] + b, c) == |a|
    decreases |a|
  {
    var s := a + [c] + b;
    assert s[|a|] == c;
    if a != [] {
      assert s[1..] == a[1..] + [c] + b;
      IndexOfAfter(a[1..], c, b);
    }
  }

  lemma SplitAt(a: string, c: char, b: string)
    requires c !in a
    ensures Split(a + [c] + b, c) == [a] + Split(b, c)
  {
    var s := a + [c] + b;
    IndexOfAfter(a, c, b);
    assert s[..|a|] == a;
    assert s[|a| + 1..] == b;
  }

  /** A last piece without the separator adds one last element to the split. */
  lemma {:induction false} SplitLast(p: string, c: char, b: string)
    requires c !in b
    ensures Split(p + [c] + b, c) == Split(p, c) + [b]
    decreases |p|
  {
    if c !in p {
      SplitAt(p, c, b);
    } else {
      var k := IndexOf(p, c);
      var head, tail := p[..k], p[k + 1..];
      assert p == head + [c] + tail;
      assert p + [c] + b == head + [c] + (tail + [c] + b);
      SplitAt(head, c, tail + [c] + b);
      SplitLast(tail, c, b);
      SplitAt(head, c, tail);
    }
  }

  lemma SplitLastComma(p: string, b: string)
    requires ',' !in b
    ensures Split(p + "," + b, ',') == Split(p, ',') + [b]
  {
    assert p + "," + b == p + [','] + b;
    SplitLast(p, ',', b);
  }

  /** Splitting five comma-free pieces joined by commas gives the pieces back. */
  lemma SplitFive(a0: string, a1: string, a2: string, a3: string, a4: string)
    requires ',' !in a0 && ',' !in a1 && ',' !in a2 && ',' !in a3 && ',' !in a4
    ensures Split(a0 + "," + a1 + "," + a2 + "," + a3 + "," + a4, ',') == [a0, a1, a2, a3, a4]
  {
    var x1 := a0 + "," + a1;
    var x2 := x1 + "," + a2;
    var x3 := x2 + "," + a3;
    SplitLastComma(a0, a1);
    assert Split(x1, ',') == [a0, a1];
    SplitLastComma(x1, a2);
    assert Split(x2, ',') == [a0, a1, a2];
    SplitLastComma(x2, a3);
    assert Split(x3, ',') == [a0, a1, a2, a3];
    SplitLastComma(x3, a4);
  }

  /** Splitting nine comma-free pieces joined by commas gives the pieces back. */
  lemma SplitNine(a0: string, a1: string, a2: string, a3: string, a4: string,
                  a5: string, a6: string, a7: string, a8: string)
    requires ',' !in a0 && ',' !in a1 && ',' !in a2 && ',' !in a3 && ',' !in a4
    requires ',' !in a5 && ',' !in a6 && ',' !in a7 && ',' !in a8
    ensures Split(a0 + "," + a1 + "," + a2 + "," + a3 + "," + a4 + "," + a5 + "," + a6 + "," + a7 + "," + a8, ',') ==
            [a0, a1, a2, a3, a4, a5, a6, a7, a8]
  {
    var x4 := a0 + "," + a1 + "," + a2 + "," + a3 + "," + a4;
    var x5 := x4 + "," + a5;
    var x6 := x5 + "," + a6;
    var x7 := x6 + "," + a7;
    SplitFive(a0, a1, a2, a3, a4);
    SplitLastComma(x4, a5);
    assert Split(x5, ',') == [a0, a1, a2, a3, a4, a5];
    SplitLastComma(x5, a6);
    assert Split(x6, ',') == [a0, a1, a2, a3, a4, a5, a6];
    SplitLastComma(x6, a7);
    assert Split(x7, ',') == [a0, a1, a2, a3, a4, a5, a6, a7];
    SplitLastComma(x7, a8);
  }

  // ---------------------------------------------------------------------------
  // Integer.toString and Integer.parseInt

  predicate IsDigit(c: char)
  {
    '0' <= c <= '9'
  }

  predicate AllDigits(s: string)
  {
    forall i :: 0 <= i < |s| ==> IsDigit(s[i])
  }

  function DigitChar(d: nat): (c: char)
    requires d < 10
    ensures IsDigit(c) && c as int - '0' as int == d
  {
    ('0' as int + d) as char
  }

  /** The decimal digits of n, most significant first, no leading zeros. */
  function NatToString(n: nat): (r: string)
    ensures |r| >= 1 && AllDigits(r)
    ensures |r| == 1 <==> n < 10
    decreases n
  {
    if n < 10 then [DigitChar(n)] else NatToString(n / 10) + [DigitChar(n % 10)]
  }

  /** Integer.toString(n) */
  function IntToString(n: int): string
  {
    if n < 0 then "-" + NatToString(-n) else NatToString(n)
  }

  /** The value of a string of decimal digits. */
  function DigitsValue(s: string): nat
    requires AllDigits(s)
    decreases |s|
  {
    if |s| == 0 then 0 else DigitsValue(s[..|s| - 1]) * 10 + (s[|s| - 1] as int - '0' as int)
  }

  /**
   * Integer.parseInt(s): an optional '+' or '-', then at least one digit, and a value
   * that fits in 32 bits; None stands for NumberFormatException.
   */
  function ParseInt(s: string): (r: Option<int>)
    ensures r.Some? ==> MinInt <= r.value <= MaxInt
    ensures r.Some? ==> exists k :: 0 <= k < |s| && IsDigit(s[k])
    // accepted: digits, '+' then digits, or '-' then digits, whose value fits in an int
    ensures r.Some? <==>
      (|s| > 0 && AllDigits(s) && DigitsValue(s) <= MaxInt) ||
      (|s| > 1 && s[0] == '+' && AllDigits(s[1..]) && DigitsValue(s[1..]) <= MaxInt) ||
      (|s| > 1 && s[0] == '-' && AllDigits(s[1..]) && DigitsValue(s[1..]) <= -MinInt)
    // the value is the digits' value, negated after a '-'
    ensures r.Some? && s[0] == '-' ==> r.value == -(DigitsValue(s[1..]) as int)
    ensures r.Some? && s[0] == '+' ==> r.value == DigitsValue(s[1..])
    ensures r.Some? && s[0] != '-' && s[0] != '+' ==> r.value == DigitsValue(s)
  {
    if |s| == 0 then None
    else
      var signed := s[0] == '-' || s[0] == '+';
      var digits := if signed then s[1..] else s;
      if |digits| == 0 || !AllDigits(digits) then None
      else
        var magnitude: int := DigitsValue(digits);
        var value: int := if s[0] == '-' then -magnitude else magnitude;
        if MinInt <= value <= MaxInt then
          assert IsDigit(s[|s| - 1]);
          Some(value)
        else None
  }

  /** A leading '+', a negative zero and leading zeros are all accepted; a lone sign is not. */
  lemma ParseIntExamples()
    ensures ParseInt("+5") == Some(5)
    ensures ParseInt("-0") == Some(0)
    ensures ParseInt("0100") == Some(100)
    ensures ParseInt("-") == None && ParseInt("") == None
  {
    assert "+5"[1..] == "5" && "5"[..0] == [];
    assert DigitsValue("5") == 5;
    assert "-0"[1..] == "0" && "0"[..0] == [];
    assert DigitsValue("0") == 0;
    assert "0100"[..3] == "010" && "010"[..2] == "01" && "01"[..1] == "0";
    assert DigitsValue("01") == 1 && DigitsValue("010") == 10 && DigitsValue("0100") == 100;
  }

  lemma {:induction false} NatToStringValue(n: nat)
    ensures DigitsValue(NatToString(n)) == n
    decreases n
  {
    if n >= 10 {
      var r := NatToString(n);
      NatToStringValue(n / 10);
      assert r[..|r| - 1] == NatToString(n / 10);
    }
  }

  /** Different numbers print differently. */
  lemma NatToStringInjective(a: nat, b: nat)
    ensures NatToString(a) == NatToString(b) ==> a == b
  {
    if NatToString(a) == NatToString(b) {
      NatToStringValue(a);
      NatToStringValue(b);
    }
  }

  /** Integer.parseInt reads back what Integer.toString printed. */
  lemma ParseIntToString(n: int)
    requires MinInt <= n <= MaxInt
    ensures ParseInt(IntToString(n)) == Some(n)
  {
    var s := IntToString(n);
    if n < 0 {
      NatToStringValue(-n);
      assert s[1..] == NatToString(-n);
    } else {
      NatToStringValue(n);
      assert IsDigit(s[0]);
    }
  }
}
