/** The two pieces of Python string handling the temperature readers rely on:
    whitespace splitting (`str.split()` with no argument) and decimal integer
    parsing (`int(str)`). */
module Text {

  /** Python's whitespace for `str.split()` and `str.strip()`, restricted to
      the Latin-1 range: TAB..CR, the four ASCII separators, space, NEL, NBSP. */
  predicate IsSpace(c: char) {
    var n := c as int;
    (9 <= n <= 13) || (28 <= n <= 32) || n == 0x85 || n == 0xA0
  }

  predicate NoSpace(s: string) {
    forall i :: 0 <= i < |s| ==> !IsSpace(s[i])
  }

  /** The longest prefix of `s` that holds no whitespace. */
  function Word(s: string): (w: string)
    ensures w <= s && NoSpace(w)
    ensures |w| < |s| ==> IsSpace(s[|w|])
    decreases |s|
  {
    if |s| == 0 || IsSpace(s[0]) then [] else [s[0]] + Word(s[1..])
  }

  /** `s.split()`: the maximal runs of non-whitespace characters, in order. */
  function Fields(s: string): (fs: seq<string>)
    ensures forall k :: 0 <= k < |fs| ==> |fs[k]| > 0 && NoSpace(fs[k])
    decreases |s|
  {
    if |s| == 0 then []
    else if IsSpace(s[0]) then Fields(s[1..])
    else
      var w := Word(s);
      [w] + Fields(s[|w|..])
  }

  /** `" ".join(ws)`. */
  function Join(ws: seq<string>): string
    decreases |ws|
  {
    if |ws| == 0 then "" else if |ws| == 1 then ws[0] else ws[0] + " " + Join(ws[1..])
  }

  /** A word followed by whitespace, or by nothing, is the word `Word` finds. */
  lemma {:induction false} WordOfWord(w: string, tail: string)
    requires NoSpace(w)
    requires |tail| > 0 ==> IsSpace(tail[0])
    ensures Word(w + tail) == w
    decreases |w|
  {
    if |w| > 0 {
      assert (w + tail)[1..] == w[1..] + tail;
      WordOfWord(w[1..], tail);
    }
  }

  /** Splitting recovers the words of a line: `" ".join(ws).split() == ws`
      for non-empty words without whitespace. */
  lemma {:induction false} FieldsOfJoin(ws: seq<string>)
    requires forall k :: 0 <= k < |ws| ==> |ws[k]| > 0 && NoSpace(ws[k])
    ensures Fields(Join(ws)) == ws
    decreases |ws|
  {
    if |ws| == 1 {
      WordOfWord(ws[0], "");
      assert ws[0] + "" == ws[0];
      assert Join(ws)[|ws[0]|..] == "";
    } else if |ws| > 1 {
      var w, rest := ws[0], Join(ws[1..]);
      var s := w + " " + rest;
      WordOfWord(w, " " + rest);
      assert w + (" " + rest) == s;
      assert s[|w|..] == " " + rest;
      assert (" " + rest)[1..] == rest;
      FieldsOfJoin(ws[1..]);
    }
  }

  /** Leading whitespace of any length is dropped by `split()`. */
  lemma {:induction false} FieldsSkipSpace(sp: string, s: string)
    requires forall i :: 0 <= i < |sp| ==> IsSpace(sp[i])
    ensures Fields(sp + s) == Fields(s)
    decreases |sp|
  {
    if |sp| > 0 {
      assert (sp + s)[0] == sp[0] && IsSpace(sp[0]);
      assert (sp + s)[1..] == sp[1..] + s;
      FieldsSkipSpace(sp[1..], s);
    } else {
      assert sp + s == s;
    }
  }

  /** A word ended by whitespace, or by the end of the line, is the next
      field, and splitting carries on after it. Together with
      `FieldsSkipSpace` this fixes `Fields` on every string, whatever the
      runs of whitespace between the words. */
  lemma FieldsOfWord(w: string, s: string)
    requires |w| > 0 && NoSpace(w)
    requires |s| > 0 ==> IsSpace(s[0])
    ensures Fields(w + s) == [w] + Fields(s)
  {
    WordOfWord(w, s);
    assert (w + s)[0] == w[0];
    assert (w + s)[|w|..] == s;
  }

  /** `s.strip()`: `s` without its leading and trailing whitespace. */
  function Strip(s: string): (t: string)
    ensures |t| > 0 ==> !IsSpace(t[0]) && !IsSpace(t[|t| - 1])
    decreases |s|
  {
    if |s| == 0 then s
    else if IsSpace(s[0]) then Strip(s[1..])
    else if IsSpace(s[|s| - 1]) then Strip(s[..|s| - 1])
    else s
  }

  predicate IsDigit(c: char) {
    '0' <= c <= '9'
  }

  predicate AllDigits(s: string) {
    forall i :: 0 <= i < |s| ==> IsDigit(s[i])
  }

  /** What `int(s)` accepts here: optional surrounding whitespace, an
      optional sign, then one or more ASCII digits. */
  predicate IsInteger(s: string) {
    var t := Strip(s);
    |t| > 0 &&
    if t[0] == '-' || t[0] == '+' then |t| > 1 && AllDigits(t[1..]) else AllDigits(t)
  }

  function DigitsValue(s: string): nat
    requires AllDigits(s)
    decreases |s|
  {
    if |s| == 0 then 0
    else DigitsValue(s[..|s| - 1]) * 10 + (s[|s| - 1] as int - '0' as int)
  }

  /** `int(s)` for a decimal numeral. */
  function ParseInt(s: string): int
    requires IsInteger(s)
  {
    var t := Strip(s);
    if t[0] == '-' then -(DigitsValue(t[1..]) as int)
    else if t[0] == '+' then DigitsValue(t[1..])
    else DigitsValue(t)
  }

  /** The decimal digits of a natural number, most significant first
      (`str(n)` for `n >= 0`). */
  function Digits(n: nat): (s: string)
    ensures |s| > 0 && AllDigits(s)
    decreases n
  {
    var d := [(('0' as int) + n % 10) as char];
    if n < 10 then d else Digits(n / 10) + d
  }

  /** `str(n)`: the decimal spelling of an integer, with `-` when negative. */
  function Decimal(n: int): string {
    if n < 0 then "-" + Digits(-n) else Digits(n)
  }

  lemma {:induction false} DigitsValueOfDigits(n: nat)
    ensures DigitsValue(Digits(n)) == n
    decreases n
  {
    var s := Digits(n);
    if n >= 10 {
      DigitsValueOfDigits(n / 10);
      assert s[..|s| - 1] == Digits(n / 10);
    }
  }

  lemma StripUnchanged(s: string)
    requires |s| > 0 && !IsSpace(s[0]) && !IsSpace(s[|s| - 1])
    ensures Strip(s) == s
  {
  }

  /** Parsing is the inverse of printing: `int(str(n)) == n`. */
  lemma ParseDecimal(n: int)
    ensures IsInteger(Decimal(n)) && ParseInt(Decimal(n)) == n
  {
    var s := Decimal(n);
    var m := if n < 0 then -n else n;
    DigitsValueOfDigits(m);
    var ds := Digits(m);
    assert !IsSpace(ds[|ds| - 1]) by { assert IsDigit(ds[|ds| - 1]); }
    if n < 0 {
      assert s[1..] == ds;
      assert s[|s| - 1] == ds[|ds| - 1];
    } else {
      assert !IsSpace(ds[0]) by { assert IsDigit(ds[0]); }
    }
    StripUnchanged(s);
  }
}
