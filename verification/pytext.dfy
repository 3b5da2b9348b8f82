/**
 * The Python string built-ins the back end applies to symptom names and CSV
 * fields: `str.strip()`, `str.lower()` and `int(str)`, restricted to ASCII.
 */
module PyText {
  import opened Wrappers

  /** The ASCII characters for which Python's `str.isspace()` is true. */
  const Whitespace: set<char> :=
    {' ', '\t', '\n', '\r', '\U{B}', '\U{C}', '\U{1C}', '\U{1D}', '\U{1E}', '\U{1F}'}

  /**
   * The ASCII characters `int()` skips around a numeral: C's `isspace`, which
   * leaves out the separators `\x1c`-`\x1f` that `str.isspace()` includes.
   */
  const IntSpace: set<char> := {' ', '\t', '\n', '\r', '\U{B}', '\U{C}'}

  /** Every character of `s` is in `ws`. */
  predicate AllIn(s: string, ws: set<char>) {
    forall i :: 0 <= i < |s| ==> s[i] in ws
  }

  /** `s` with the characters of `ws` dropped from its start. */
  function StripLeft(s: string, ws: set<char>): string {
    if |s| > 0 && s[0] in ws then StripLeft(s[1..], ws) else s
  }

  /** `s` with the characters of `ws` dropped from its end. */
  function StripRight(s: string, ws: set<char>): string {
    if |s| > 0 && s[|s| - 1] in ws then StripRight(s[..|s| - 1], ws) else s
  }

  /** `s` with the characters of `ws` dropped from both ends. */
  function StripBoth(s: string, ws: set<char>): string {
    StripRight(StripLeft(s, ws), ws)
  }

  /** `s.strip()`. */
  function Strip(s: string): string {
    StripBoth(s, Whitespace)
  }

  /** Left stripping gives the longest suffix of `s` that does not start with a character of `ws`. */
  lemma {:induction false} StripLeftShape(s: string, ws: set<char>)
    ensures var r := StripLeft(s, ws);
      && |r| <= |s| && r == s[|s| - |r|..]
      && (r == [] || r[0] !in ws)
      && forall i :: 0 <= i < |s| - |r| ==> s[i] in ws
  {
    if |s| > 0 && s[0] in ws {
      StripLeftShape(s[1..], ws);
    }
  }

  /** Right stripping gives the longest prefix of `s` that does not end with a character of `ws`. */
  lemma {:induction false} StripRightShape(s: string, ws: set<char>)
    ensures var r := StripRight(s, ws);
      && |r| <= |s| && r == s[..|r|]
      && (r == [] || r[|r| - 1] !in ws)
      && forall i :: |r| <= i < |s| ==> s[i] in ws
  {
    if |s| > 0 && s[|s| - 1] in ws {
      StripRightShape(s[..|s| - 1], ws);
    }
  }

  /** Stripping both ends drops exactly the characters of `ws` at both ends. */
  lemma StripBothShape(s: string, ws: set<char>)
    ensures var r := StripBoth(s, ws);
      && |r| <= |s|
      && (r == [] || (r[0] !in ws && r[|r| - 1] !in ws))
  {
    var l := StripLeft(s, ws);
    StripLeftShape(s, ws);
    StripRightShape(l, ws);
    var r := StripRight(l, ws);
    if r != [] {
      assert r[0] == l[0];
    }
  }

  /** A string that neither starts nor ends with a character of `ws` is its own strip. */
  lemma StripTrimmed(s: string, ws: set<char>)
    requires s == [] || (s[0] !in ws && s[|s| - 1] !in ws)
    ensures StripBoth(s, ws) == s
  {
  }

  /** A prefix made only of characters of `ws` is dropped by left stripping. */
  lemma {:induction false} StripLeftSkips(pre: string, r: string, ws: set<char>)
    requires AllIn(pre, ws)
    ensures StripLeft(pre + r, ws) == StripLeft(r, ws)
  {
    if pre != [] {
      assert (pre + r)[0] == pre[0];
      assert (pre + r)[1..] == pre[1..] + r;
      StripLeftSkips(pre[1..], r, ws);
    } else {
      assert pre + r == r;
    }
  }

  /** A suffix made only of characters of `ws` is dropped by right stripping. */
  lemma {:induction false} StripRightSkips(r: string, post: string, ws: set<char>)
    requires AllIn(post, ws)
    ensures StripRight(r + post, ws) == StripRight(r, ws)
  {
    if post != [] {
      assert (r + post)[|r + post| - 1] == post[|post| - 1];
      assert (r + post)[..|r + post| - 1] == r + post[..|post| - 1];
      StripRightSkips(r, post[..|post| - 1], ws);
    } else {
      assert r + post == r;
    }
  }

  function LowerChar(c: char): char {
    if 'A' <= c <= 'Z' then (c as int + ('a' as int - 'A' as int)) as char else c
  }

  /** `s.lower()` on ASCII: every upper-case letter mapped to its lower-case form. */
  function Lower(s: string): string {
    if s == [] then [] else [LowerChar(s[0])] + Lower(s[1..])
  }

  /** Lowercasing keeps the length and maps each character on its own. */
  lemma {:induction false} LowerShape(s: string)
    ensures |Lower(s)| == |s|
    ensures forall i :: 0 <= i < |s| ==> Lower(s)[i] == LowerChar(s[i])
  {
    if s != [] {
      LowerShape(s[1..]);
    }
  }

  /** `item.strip().lower()`, the normal form of a symptom name (chat_bot.py line 97). */
  function Normalize(s: string): string {
    Lower(Strip(s))
  }

  /** A normal form has no whitespace at either end and no upper-case ASCII letter. */
  lemma NormalizeShape(s: string)
    ensures var r := Normalize(s);
      && |r| <= |s|
      && (r == [] || (r[0] !in Whitespace && r[|r| - 1] !in Whitespace))
      && forall i :: 0 <= i < |r| ==> !('A' <= r[i] <= 'Z')
  {
    StripBothShape(s, Whitespace);
    LowerShape(Strip(s));
  }

  /** Normalising twice is normalising once. */
  lemma NormalizeIdempotent(s: string)
    ensures Normalize(Normalize(s)) == Normalize(s)
  {
    var n := Normalize(s);
    NormalizeShape(s);
    StripTrimmed(n, Whitespace);
    LowerShape(n);
    assert Lower(n) == n;
  }

  predicate IsDigit(c: char) {
    '0' <= c <= '9'
  }

  /**
   * The digit part that Python's `int()` accepts in base 10: one or more ASCII
   * digits, with single underscores allowed between two digits.
   */
  predicate WellFormedDigits(s: string) {
    && |s| > 0
    && IsDigit(s[0])
    && IsDigit(s[|s| - 1])
    && (forall i :: 0 <= i < |s| ==> IsDigit(s[i]) || s[i] == '_')
    && (forall i :: 0 <= i < |s| - 1 ==> SingleSeparator(s, i))
  }

  /** Positions `i` and `i + 1` of `s` are not both underscores. */
  predicate SingleSeparator(s: string, i: nat)
    requires i < |s| - 1
  {
    !(s[i] == '_' && s[i + 1] == '_')
  }

  /** The number written by the digits of `s`, underscores skipped. */
  function DigitsValue(s: string): nat {
    if s == [] then 0
    else
      var last := s[|s| - 1];
      if IsDigit(last) then DigitsValue(s[..|s| - 1]) * 10 + (last as int - '0' as int)
      else DigitsValue(s[..|s| - 1])
  }

  /** The number of digits in `s`, underscores not counted. */
  function DigitCount(s: string): nat {
    if s == [] then 0
    else DigitCount(s[..|s| - 1]) + (if IsDigit(s[|s| - 1]) then 1 else 0)
  }

  /**
   * The most digits `int()` converts in base 10: CPython's default
   * `sys.get_int_max_str_digits()`. The service's f-string at chat_bot.py
   * lines 104-105 needs Python 3.12, so this limit is always in force.
   */
  const MaxStrDigits: nat := 4300

  /** `t` without its leading sign, if it has one. */
  function Unsigned(t: string): string {
    if |t| > 0 && (t[0] == '-' || t[0] == '+') then t[1..] else t
  }

  /** `t` is a numeral `int()` converts: an optional sign and at most 4300 well-formed digits. */
  predicate Numeral(t: string) {
    WellFormedDigits(Unsigned(t)) && DigitCount(Unsigned(t)) <= MaxStrDigits
  }

  /** The number a signed numeral writes. */
  function NumeralValue(t: string): int {
    var value: int := DigitsValue(Unsigned(t));
    if |t| > 0 && t[0] == '-' then -value else value
  }

  /** `int(s)`: `None` where Python raises `ValueError`. */
  function ParseInt(s: string): Option<int> {
    var t := StripBoth(s, IntSpace);
    if Numeral(t) then Some(NumeralValue(t)) else None
  }

  /**
   * What `int()` accepts: a numeral padded on both sides by C whitespace only.
   * Numerals longer than 4300 digits are refused.
   */
  lemma ParseIntAccepts(pre: string, t: string, post: string)
    requires AllIn(pre, IntSpace) && AllIn(post, IntSpace)
    requires WellFormedDigits(Unsigned(t))
    ensures ParseInt(pre + t + post) ==
      if DigitCount(Unsigned(t)) <= MaxStrDigits then Some(NumeralValue(t)) else None
  {
    assert t[0] !in IntSpace && t[|t| - 1] !in IntSpace;
    assert pre + t + post == pre + (t + post);
    StripLeftSkips(pre, t + post, IntSpace);
    assert StripLeft(t + post, IntSpace) == t + post;
    StripRightSkips(t, post, IntSpace);
    assert StripRight(t, IntSpace) == t;
  }

  /** Everything `int()` accepts is such a padded numeral. */
  lemma ParseIntOnlyNumerals(s: string)
    requires ParseInt(s).Some?
    ensures exists i, j :: 0 <= i <= j <= |s| && AllIn(s[..i], IntSpace) && AllIn(s[j..], IntSpace) && Numeral(s[i..j])
  {
    var l := StripLeft(s, IntSpace);
    StripLeftShape(s, IntSpace);
    var t := StripRight(l, IntSpace);
    StripRightShape(l, IntSpace);
    var i := |s| - |l|;
    var j := i + |t|;
    assert s[i..j] == t;
    assert AllIn(s[..i], IntSpace);
    assert forall k :: j <= k < |s| ==> s[k] == l[k - i];
    assert AllIn(s[j..], IntSpace);
  }

  function DigitChar(d: nat): char
    requires d < 10
  {
    ('0' as int + d) as char
  }

  /** The shortest decimal numeral of `n`, as Python's `str(n)` writes it. */
  function DecimalDigits(n: nat): (r: string)
    ensures |r| > 0 && forall i :: 0 <= i < |r| ==> IsDigit(r[i])
  {
    if n < 10 then [DigitChar(n)] else DecimalDigits(n / 10) + [DigitChar(n % 10)]
  }

  function Magnitude(n: int): nat {
    if n < 0 then -n else n
  }

  function DecimalString(n: int): string {
    if n < 0 then "-" + DecimalDigits(-n) else DecimalDigits(n)
  }

  lemma {:induction false} DecimalDigitsValue(n: nat)
    ensures DigitsValue(DecimalDigits(n)) == n
  {
    var r := DecimalDigits(n);
    if n >= 10 {
      DecimalDigitsValue(n / 10);
      assert r[..|r| - 1] == DecimalDigits(n / 10);
    }
  }

  /** In a string of digits alone, every character counts as a digit. */
  lemma {:induction false} DigitCountAllDigits(s: string)
    requires forall i :: 0 <= i < |s| ==> IsDigit(s[i])
    ensures DigitCount(s) == |s|
  {
    if s != [] {
      DigitCountAllDigits(s[..|s| - 1]);
    }
  }

  /**
   * `int(str(n)) == n` for every `n` of at most 4300 digits; a longer numeral
   * is refused.
   */
  lemma ParseIntDecimal(n: int)
    ensures ParseInt(DecimalString(n)) ==
      if |DecimalDigits(Magnitude(n))| <= MaxStrDigits then Some(n) else None
  {
    var digits := DecimalDigits(Magnitude(n));
    var t := DecimalString(n);
    DecimalDigitsValue(Magnitude(n));
    DigitCountAllDigits(digits);
    if n < 0 {
      assert t[1..] == digits;
    }
    assert Unsigned(t) == digits;
    assert NumeralValue(t) == n;
    ParseIntAccepts([], t, []);
    assert [] + t + [] == t;
  }
}
