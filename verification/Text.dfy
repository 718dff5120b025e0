/** C strings as the daemon uses them: decimal printing, `atoi`, truncating
    `snprintf`, and NUL-terminated buffers. */
module Text {

  /** The size of the path buffers, PATH_MAX on Linux. */
  const PATH_MAX: nat := 4096

  predicate IsDigit(c: char) {
    '0' <= c <= '9'
  }

  ghost predicate AllDigits(s: string) {
    forall i :: 0 <= i < |s| ==> IsDigit(s[i])
  }

  function DigitChar(d: nat): (c: char)
    requires d < 10
    ensures IsDigit(c) && c as int - '0' as int == d
  {
    (d + '0' as int) as char
  }

  /** What `%d` prints for a non-negative number. */
  function Decimal(n: nat): (s: string)
    ensures s != [] && AllDigits(s)
  {
    if n < 10 then [DigitChar(n)] else Decimal(n / 10) + [DigitChar(n % 10)]
  }

  /** The number a digit string denotes. */
  function Value(s: string): nat
    requires AllDigits(s)
  {
    if s == [] then 0 else 10 * Value(s[..|s| - 1]) + (s[|s| - 1] as int - '0' as int)
  }

  /** The leading digits of a string. */
  function LeadingDigits(s: string): (d: string)
    ensures AllDigits(d) && |d| <= |s|
    ensures forall i :: 0 <= i < |d| ==> d[i] == s[i]
    ensures |d| == |s| || !IsDigit(s[|d|])
  {
    if s != [] && IsDigit(s[0]) then [s[0]] + LeadingDigits(s[1..]) else []
  }

  predicate IsSpace(c: char) {
    c == ' ' || '\t' <= c <= '\r'
  }

  /** C's `atoi`: white space, an optional sign, then as many digits as there are. */
  function Atoi(s: string): int {
    if s == [] then 0
    else if IsSpace(s[0]) then Atoi(s[1..])
    else if s[0] == '-' then 0 - Value(LeadingDigits(s[1..]))
    else if s[0] == '+' then Value(LeadingDigits(s[1..]))
    else Value(LeadingDigits(s))
  }

  lemma {:induction false} ValueUndoesDecimal(n: nat)
    ensures Value(Decimal(n)) == n
  {
    var s := Decimal(n);
    if n < 10 {
      assert s[..|s| - 1] == [];
    } else {
      ValueUndoesDecimal(n / 10);
      assert s[..|s| - 1] == Decimal(n / 10);
    }
  }

  lemma DecimalInjective(m: nat, n: nat)
    requires Decimal(m) == Decimal(n)
    ensures m == n
  {
    ValueUndoesDecimal(m);
    ValueUndoesDecimal(n);
  }

  lemma {:induction false} LeadingDigitsOfPrefix(d: string, rest: string)
    requires AllDigits(d)
    requires rest == [] || !IsDigit(rest[0])
    ensures LeadingDigits(d + rest) == d
  {
    if d == [] {
      assert d + rest == rest;
    } else {
      assert (d + rest)[1..] == d[1..] + rest;
      LeadingDigitsOfPrefix(d[1..], rest);
    }
  }

  /** `atoi` undoes the print, whatever non-digit text follows the number. */
  lemma AtoiUndoesDecimal(n: nat, rest: string)
    requires rest == [] || rest[0] !in "0123456789"
    ensures Atoi(Decimal(n) + rest) == n
  {
    var s := Decimal(n) + rest;
    if rest != [] { DigitsExactly(rest[0]); }
    assert IsDigit(s[0]) by { assert s[0] == Decimal(n)[0]; }
    LeadingDigitsOfPrefix(Decimal(n), rest);
    ValueUndoesDecimal(n);
  }

  lemma DigitsExactly(c: char)
    ensures IsDigit(c) <==> c in "0123456789"
  {
    var d := c as int - '0' as int;
    if IsDigit(c) { assert "0123456789"[d] == c; }
  }

  /** With a sign. */
  lemma AtoiSigned(n: nat, rest: string)
    requires rest == [] || rest[0] !in "0123456789"
    ensures Atoi("-" + (Decimal(n) + rest)) == 0 - n && Atoi("+" + (Decimal(n) + rest)) == n
  {
    if rest != [] { DigitsExactly(rest[0]); }
    hide Decimal, LeadingDigits, Value, Atoi;
    var t := Decimal(n) + rest;
    LeadingDigitsOfPrefix(Decimal(n), rest);
    ValueUndoesDecimal(n);
    AfterSign('-', t);
    AfterSign('+', t);
  }

  lemma AfterSign(sign: char, t: string)
    requires sign == '-' || sign == '+'
    ensures Atoi([sign] + t) == if sign == '-' then 0 - Value(LeadingDigits(t)) else Value(LeadingDigits(t))
  {
    hide LeadingDigits, Value;
    assert ([sign] + t)[1..] == t;
  }

  /** Text with no number in front counts as zero. */
  lemma AtoiNothing(s: string)
    requires s == [] || s[0] !in "0123456789+- \t\n\U{B}\U{C}\r"
    ensures Atoi(s) == 0
  {
    if s != [] {
      DigitsExactly(s[0]);
      BlanksExactly(s[0]);
      assert LeadingDigits(s) == [];
    }
  }

  lemma BlanksExactly(c: char)
    ensures IsSpace(c) <==> c in " \t\n\U{B}\U{C}\r"
  {
    assert " \t\n\U{B}\U{C}\r" == [' ', 9 as char, 10 as char, 11 as char, 12 as char, 13 as char];
  }

  /** White space before a number is skipped. */
  lemma AtoiBlank(c: char, s: string)
    requires c in " \t\n\U{B}\U{C}\r"
    ensures Atoi([c] + s) == Atoi(s)
  {
    BlanksExactly(c);
    hide LeadingDigits, Value;
    assert ([c] + s)[1..] == s;
  }

  function Pow10(k: nat): (p: nat)
    ensures p >= 1
  {
    if k == 0 then 1 else 10 * Pow10(k - 1)
  }

  /** A number prints in at most k characters exactly when it is below 10^k. */
  lemma {:induction false} DecimalLength(n: nat, k: nat)
    requires k >= 1
    ensures |Decimal(n)| <= k <==> n < Pow10(k)
  {
    if n < 10 {
      assert Pow10(k) >= 10 by { assert Pow10(k) == 10 * Pow10(k - 1); }
    } else if k == 1 {
      assert Pow10(1) == 10 * Pow10(0) == 10;
      assert Decimal(n / 10) != [];
    } else {
      DecimalLength(n / 10, k - 1);
      assert Pow10(k) == 10 * Pow10(k - 1);
    }
  }

  /** What a buffer of `size` bytes holds after `snprintf(buf, size, "%s", s)`. */
  function Snprintf(size: nat, s: string): (r: string)
    requires size >= 1
    ensures r <= s && |r| == if |s| < size then |s| else size - 1
    ensures r == s <==> |s| < size
  {
    if |s| < size then s else s[..size - 1]
  }

  /** `strstr(s, sub) != NULL` */
  predicate Contains(s: string, sub: string) {
    exists i | 0 <= i <= |s| :: sub <= s[i..]
  }

  /** It is there when the text is something, then it, then something. */
  lemma ContainsMeans(s: string, sub: string)
    ensures Contains(s, sub) <==> exists a, b :: s == a + sub + b
  {
    if Contains(s, sub) {
      var i :| 0 <= i <= |s| && sub <= s[i..];
      assert s == s[..i] + sub + s[i + |sub|..];
    }
    if a, b :| s == a + sub + b {
      assert s[|a|..] == sub + b;
      assert sub <= s[|a|..];
    }
  }

  /** A buffer whose last byte ends a string, so every offset into it is a C string. */
  ghost predicate Terminated(b: seq<char>) {
    |b| > 0 && b[|b| - 1] == '\0'
  }

  /** The offset of the NUL that ends the C string at offset i. */
  function End(b: seq<char>, i: nat): (e: nat)
    requires Terminated(b) && i < |b|
    ensures i <= e < |b| && b[e] == '\0'
    decreases |b| - i
  {
    if b[i] == '\0' then i else End(b, i + 1)
  }

  /** The C string that starts at offset i. */
  function CString(b: seq<char>, i: nat): string
    requires Terminated(b) && i < |b|
  {
    b[i..End(b, i)]
  }
}
