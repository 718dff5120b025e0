/** Names a seat gets from its number: X display, virtual terminal, xauth file and the
    magic cookie, all through fixed-size buffers. */
module Naming {
  import opened Text

  // ---------- display and virtual terminal ----------

  /** `strtof` in tenths, for text with at most one decimal. */
  function ParseTenths(s: string): nat {
    var whole := LeadingDigits(s);
    var rest := s[|whole|..];
    10 * Value(whole) + if |rest| >= 2 && rest[0] == '.' && IsDigit(rest[1]) then rest[1] as int - '0' as int else 0
  }

  /** `%.1f` of a number given in tenths. */
  function PrintTenths(t: nat): string {
    Decimal(t / 10) + "." + [DigitChar(t % 10)]
  }

  /** The display of a seat: the configured text cut to 5 characters, read after its
      colon, moved up by the seat number, printed and cut to 5 characters again. */
  function Display(xdisplay: string, id: nat): (d: string)
    ensures |d| <= 5
  {
    var base := Snprintf(6, xdisplay);
    var tenths := if base == [] then 0 else ParseTenths(base[1..]);
    Snprintf(6, ":" + PrintTenths(tenths + 10 * id))
  }

  function Vt(vtnr: nat, id: nat): nat {
    vtnr + id
  }

  /** The displays a configuration may name: a whole number, or one decimal. */
  ghost predicate NamesDisplay(xdisplay: string, b: nat, f: nat) {
    f < 10 && |xdisplay| <= 5 &&
    (xdisplay == ":" + PrintTenths(10 * b + f) || (f == 0 && xdisplay == ":" + Decimal(b)))
  }

  lemma ParsePrinted(n: nat, f: nat)
    requires f < 10
    ensures ParseTenths(Decimal(n) + "." + [DigitChar(f)]) == 10 * n + f
    ensures ParseTenths(Decimal(n)) == 10 * n
  {
    var tail := "." + [DigitChar(f)];
    LeadingDigitsOfPrefix(Decimal(n), tail);
    assert Decimal(n) + "." + [DigitChar(f)] == Decimal(n) + tail;
    assert (Decimal(n) + tail)[|Decimal(n)|..] == tail;
    LeadingDigitsOfPrefix(Decimal(n), []);
    assert Decimal(n) + [] == Decimal(n);
    ValueUndoesDecimal(n);
  }

  /** What a seat's display is, whichever way the base is written. */
  lemma DisplayOfBase(xdisplay: string, b: nat, f: nat, id: nat)
    requires NamesDisplay(xdisplay, b, f)
    ensures Display(xdisplay, id) == Snprintf(6, ":" + PrintTenths(10 * (b + id) + f))
  {
    hide Snprintf, ParseTenths, Decimal;
    ParsePrinted(b, f);
    assert xdisplay[1..] == Decimal(b) + "." + [DigitChar(f)] || (f == 0 && xdisplay[1..] == Decimal(b));
  }

  lemma PrintedTenths(n: nat, f: nat)
    requires f < 10
    ensures
      var tail := "." + [DigitChar(f)];
      tail != [] && !IsDigit(tail[0]) && PrintTenths(10 * n + f) == Decimal(n) + tail
  {
    hide Decimal;
    assert (10 * n + f) / 10 == n && (10 * n + f) % 10 == f;
    assert Decimal(n) + "." + [DigitChar(f)] == Decimal(n) + ("." + [DigitChar(f)]);
  }

  lemma CutBehind(c: char, s: string, size: nat)
    requires size >= 1
    ensures Snprintf(size + 1, [c] + s) == [c] + Snprintf(size, s)
    ensures Snprintf(size + 1, [c] + s) != [] && Snprintf(size + 1, [c] + s)[1..] == Snprintf(size, s)
  {
  }

  /** The four characters that are left of a printed number: its first four digits, or all of
      its digits, a point and what else fits. */
  lemma CutLeavesHead(n: nat, tail: string)
    requires tail != [] && !IsDigit(tail[0])
    ensures LeadingDigits(Snprintf(5, Decimal(n) + tail)) == Snprintf(5, Decimal(n))
    ensures |Decimal(n)| >= 4 ==> Snprintf(5, Decimal(n) + tail) == Decimal(n)[..4] == Snprintf(5, Decimal(n))
  {
    hide Decimal;
    var d, head := Snprintf(5, Decimal(n) + tail), Snprintf(5, Decimal(n));
    var rest := d[|head|..];
    assert d == head + rest;
    LeadingDigitsOfPrefix(head, rest);
  }

  /** Two numbers of four digits or more whose first four digits agree. */
  predicate SameHead(m: nat, n: nat) {
    |Decimal(m)| >= 4 && |Decimal(n)| >= 4 && Decimal(m)[..4] == Decimal(n)[..4]
  }

  lemma CutsAgree(m: nat, n: nat, tail: string)
    requires tail != [] && !IsDigit(tail[0])
    ensures Snprintf(5, Decimal(m) + tail) == Snprintf(5, Decimal(n) + tail) <==> m == n || SameHead(m, n)
  {
    CutLeavesHead(m, tail);
    CutLeavesHead(n, tail);
    hide Decimal, LeadingDigits;
    if Snprintf(5, Decimal(m) + tail) == Snprintf(5, Decimal(n) + tail) && !SameHead(m, n) {
      assert Snprintf(5, Decimal(m)) == Snprintf(5, Decimal(n));
      assert Decimal(m) == Decimal(n);
      DecimalInjective(m, n);
    }
  }

  /** Two seats share a display if and only if both numbers have four digits or more and start
      with the same four. */
  lemma DisplaysShared(xdisplay: string, b: nat, f: nat, i: nat, j: nat)
    requires NamesDisplay(xdisplay, b, f)
    ensures Display(xdisplay, i) == Display(xdisplay, j) <==> i == j || SameHead(b + i, b + j)
  {
    hide *;
    assert f < 10 by { NamedTenth(xdisplay, b, f); }
    DisplayOfBase(xdisplay, b, f, i);
    DisplayOfBase(xdisplay, b, f, j);
    PrintedTenths(b + i, f);
    PrintedTenths(b + j, f);
    CutBehind(':', PrintTenths(10 * (b + i) + f), 5);
    CutBehind(':', PrintTenths(10 * (b + j) + f), 5);
    CutsAgree(b + i, b + j, "." + [DigitChar(f)]);
  }

  lemma NamedTenth(xdisplay: string, b: nat, f: nat)
    requires NamesDisplay(xdisplay, b, f)
    ensures f < 10
  {
  }

  /** So distinct seats get distinct displays as long as the numbers stay below 10000. */
  lemma DisplayInjective(xdisplay: string, b: nat, f: nat, i: nat, j: nat)
    requires NamesDisplay(xdisplay, b, f) && b + i < 10000 && b + j < 10000
    requires Display(xdisplay, i) == Display(xdisplay, j)
    ensures i == j
  {
    hide Display, SameHead, NamesDisplay;
    DisplaysShared(xdisplay, b, f, i, j);
    if SameHead(b + i, b + j) { SmallHeads(b + i, b + j); }
  }

  lemma SmallHeads(m: nat, n: nat)
    requires SameHead(m, n) && m < 10000 && n < 10000
    ensures m == n
  {
    hide Decimal;
    FourDigits(m);
    FourDigits(n);
    assert Decimal(m)[..4] == Decimal(m) && Decimal(n)[..4] == Decimal(n);
    DecimalInjective(m, n);
  }

  lemma FourDigits(n: nat)
    requires n < 10000
    ensures |Decimal(n)| < 5
  {
    DecimalLength(n, 4);
    assert Pow10(4) == 10 * Pow10(3) == 100 * Pow10(2) == 1000 * Pow10(1) == 10000 * Pow10(0);
  }

  /** For one: seats 1000 and 10000 of ":0" share a display. */
  lemma DisplayCollision()
    ensures NamesDisplay(":0", 0, 0) && Display(":0", 1000) == Display(":0", 10000)
  {
    hide Display, Decimal;
    Thousands();
    DisplaysShared(":0", 0, 0, 1000, 10000);
  }

  lemma Thousands()
    ensures Decimal(0) == "0" && Decimal(1000) == "1000" && Decimal(10000) == "10000"
  {
    assert Decimal(1) == "1";
    assert Decimal(10) == "10";
    assert Decimal(100) == "100";
    assert Decimal(1000) == "1000";
  }

  /** Up to two digits nothing is cut: the display is the whole number and its tenth. */
  lemma DisplayWhole(xdisplay: string, b: nat, f: nat, id: nat)
    requires NamesDisplay(xdisplay, b, f) && b + id < 100
    ensures Display(xdisplay, id) == ":" + Decimal(b + id) + "." + [DigitChar(f)]
  {
    hide Display, Decimal, ParseTenths, PrintTenths;
    DisplayOfBase(xdisplay, b, f, id);
    NamedTenth(xdisplay, b, f);
    PrintedTenths(b + id, f);
    TwoDigits(b + id);
    assert ":" + PrintTenths(10 * (b + id) + f) == ":" + Decimal(b + id) + "." + [DigitChar(f)];
  }

  lemma TwoDigits(n: nat)
    requires n < 100
    ensures |Decimal(n)| <= 2
  {
    DecimalLength(n, 2);
    assert Pow10(2) == 10 * Pow10(1) == 100 * Pow10(0);
  }

  /** Of the configured display only the first five characters count, and an empty one is zero. */
  lemma DisplayReads(xdisplay: string, id: nat)
    ensures |xdisplay| > 5 ==> Display(xdisplay, id) == Display(xdisplay[..5], id)
    ensures Display("", id) == Display(":0", id)
  {
    hide Decimal, PrintTenths;
    assert ":0"[1..] == "0";
    assert LeadingDigits("0") == "0" by { LeadingDigitsOfPrefix("0", []); assert "0" + [] == "0"; }
    assert Value("0") == 0;
  }

  /** Seats follow one another on the terminals from the configured one on, so no two share one. */
  lemma VtsDiffer(vtnr: nat, i: nat, j: nat)
    ensures Vt(vtnr, 0) == vtnr && Vt(vtnr, i + 1) == Vt(vtnr, i) + 1
    ensures Vt(vtnr, i) == Vt(vtnr, j) <==> i == j
  {
  }

  // ---------- the xauth file ----------

  /** `stem-id.auth`, built through two buffers whose bounds come from the length of the
      configured path. The size arithmetic must not wrap below zero. */
  function XauthFile(config: string, id: nat): string
    requires 5 <= |config| < PATH_MAX - 6
  {
    var len := |Snprintf(PATH_MAX, config)| - 4;
    var buf := Snprintf(len, Snprintf(PATH_MAX, config));
    Snprintf(PATH_MAX - len - 10, buf + "-" + Decimal(id) + ".auth")
  }

  /** The name comes out whole exactly when it fits the second bound. */
  lemma XauthWhole(stem: string, id: nat)
    requires |stem| + 5 < PATH_MAX - 6
    ensures XauthFile(stem + ".auth", id) == stem + "-" + Decimal(id) + ".auth"
       <==> 2 * |stem| + |Decimal(id)| + 18 <= PATH_MAX
  {
    var config := stem + ".auth";
    assert Snprintf(|config| - 4, config) == stem;
  }

  lemma XauthInjective(stem: string, i: nat, j: nat)
    requires 2 * |stem| + |Decimal(i)| + 18 <= PATH_MAX && 2 * |stem| + |Decimal(j)| + 18 <= PATH_MAX
    requires XauthFile(stem + ".auth", i) == XauthFile(stem + ".auth", j)
    ensures i == j
  {
    hide XauthFile, Snprintf, Decimal, LeadingDigits;
    XauthWhole(stem, i);
    XauthWhole(stem, j);
    var a, b := stem + "-" + Decimal(i) + ".auth", stem + "-" + Decimal(j) + ".auth";
    assert a == b;
    var m := |stem| + 1;
    assert a[m..] == Decimal(i) + ".auth" && b[m..] == Decimal(j) + ".auth";
    LeadingDigitsOfPrefix(Decimal(i), ".auth");
    LeadingDigitsOfPrefix(Decimal(j), ".auth");
    DecimalInjective(i, j);
  }

  // ---------- the cookie ----------

  const DIGITS := "0123456789abcdef"

  /** The low 16 bits of a random number. */
  function Word(rand: int): (word: nat)
    ensures word < 0x10000
  {
    rand % 0x10000
  }

  /** The four digits of one 16-bit word, low nibble first. */
  function WordDigits(word: nat): (s: string)
    requires word < 0x10000
    ensures |s| == 4
  {
    var lo, hi := word % 256, word / 256;
    [DIGITS[lo % 16], DIGITS[lo / 16], DIGITS[hi % 16], DIGITS[hi / 16]]
  }

  function Nibble(c: char): nat {
    if '0' <= c <= '9' then c as int - '0' as int
    else if 'a' <= c <= 'f' then c as int - 'a' as int + 10
    else 0
  }

  lemma NibbleUndoes(d: nat)
    requires d < 16
    ensures Nibble(DIGITS[d]) == d && DIGITS[d] != '\0'
  {
  }

  /** Reading a group of four cookie digits back as the word it came from. */
  function ReadWord(s: string): nat
    requires |s| == 4
  {
    Nibble(s[0]) + 16 * Nibble(s[1]) + 256 * Nibble(s[2]) + 4096 * Nibble(s[3])
  }

  lemma WordRoundTrip(word: nat)
    requires word < 0x10000
    ensures ReadWord(WordDigits(word)) == word
    ensures forall c :: c in WordDigits(word) ==> c in DIGITS
  {
    NibbleUndoes(word % 256 % 16);
    NibbleUndoes(word % 256 / 16);
    NibbleUndoes(word / 256 % 16);
    NibbleUndoes(word / 256 / 16);
  }

  /** The lowest digit comes first. */
  lemma DigitsLowFirst(word: nat)
    requires word < 0x10000
    ensures WordDigits(word) ==
      [DIGITS[word % 16], DIGITS[word / 16 % 16], DIGITS[word / 256 % 16], DIGITS[word / 4096 % 16]]
  {
    Sixteenths(word, word / 256, word % 256 / 16, word % 16);
  }

  lemma Sixteenths(word: nat, h: nat, a: nat, b: nat)
    requires word < 0x10000 && h == word / 256 && a == word % 256 / 16 && b == word % 16
    ensures word % 256 % 16 == b && word / 16 % 16 == a && word / 4096 % 16 == h / 16 && h % 16 == word / 256 % 16
  {
    assert word == 256 * h + 16 * a + b by { assert word % 256 == 16 * a + word % 256 % 16; }
    assert word / 16 == 16 * h + a;
  }

  /** The digits of the first k words. */
  function CookieText(rands: seq<int>, k: nat): (s: string)
    requires k <= |rands|
    ensures |s| == 4 * k
  {
    if k == 0 then [] else CookieText(rands, k - 1) + WordDigits(Word(rands[k - 1]))
  }

  lemma {:induction false} CookieGroup(rands: seq<int>, k: nat, j: nat)
    requires j < k <= |rands|
    ensures CookieText(rands, k)[4 * j..4 * j + 4] == WordDigits(Word(rands[j]))
    decreases k
  {
    hide WordDigits;
    var before, w := CookieText(rands, k - 1), WordDigits(Word(rands[k - 1]));
    assert CookieText(rands, k) == before + w;
    if j == k - 1 {
      assert (before + w)[4 * j..4 * j + 4] == w;
    } else {
      CookieGroup(rands, k - 1, j);
      assert (before + w)[4 * j..4 * j + 4] == before[4 * j..4 * j + 4];
    }
  }

  /** Every random number's low 16 bits can be read back from the cookie text, whatever its
      sign; so numbers that differ there make different cookies. */
  lemma CookieHoldsWords(rands: seq<int>, k: nat, j: nat)
    requires j < k <= |rands|
    ensures ReadWord(CookieText(rands, k)[4 * j..4 * j + 4]) == rands[j] % 0x10000
    ensures forall c :: c in CookieText(rands, k)[4 * j..4 * j + 4] ==> c in DIGITS
  {
    CookieGroup(rands, k, j);
    WordRoundTrip(Word(rands[j]));
  }

  /** Four digits written in place. */
  method PutWord(mcookie: array<char>, i: nat, word: nat)
    requires i + 4 <= mcookie.Length && word < 0x10000
    modifies mcookie
    ensures mcookie[..i + 4] == old(mcookie[..i]) + WordDigits(word)
    ensures forall k :: i + 4 <= k < mcookie.Length ==> mcookie[k] == old(mcookie[k])
  {
    var lo, hi := word % 256, word / 256;
    mcookie[i] := DIGITS[lo % 16];
    mcookie[i + 1] := DIGITS[lo / 16];
    mcookie[i + 2] := DIGITS[hi % 16];
    mcookie[i + 3] := DIGITS[hi / 16];
  }

  method Calloc33() returns (a: array<char>)
    ensures fresh(a) && a.Length == 33 && a[32] == '\0'
  {
    a := new char[33](_ => '\0');
  }

  /** The cookie is 32 hex digits made of the eight random numbers, and a NUL. */
  method MakeCookie(rands: seq<int>) returns (mcookie: array<char>)
    requires |rands| == 8
    ensures mcookie[..] == CookieText(rands, 8) + ['\0']
  {
    mcookie := Calloc33();
    mcookie[0] := 'a';
    hide CookieText, WordDigits, Word;
    NoWord(rands);
    var i, k := 0, 0;
    while i < 32
      invariant 0 <= k <= 8 && i == 4 * k && mcookie[32] == '\0'
      invariant mcookie[..i] == CookieText(rands, k)
      decreases 8 - k
    {
      NextWord(rands, k);
      PutWord(mcookie, i, Word(rands[k]));
      i, k := i + 4, k + 1;
    }
    assert mcookie[..] == mcookie[..32] + [mcookie[32]];
  }

  lemma NoWord(rands: seq<int>)
    ensures CookieText(rands, 0) == []
  {
  }

  lemma NextWord(rands: seq<int>, k: nat)
    requires k < |rands|
    ensures CookieText(rands, k + 1) == CookieText(rands, k) + WordDigits(Word(rands[k]))
  {
  }
}
