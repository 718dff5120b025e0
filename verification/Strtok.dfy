/** `strtok_r` with one delimiter, in place on a NUL-terminated buffer, as in
    POSIX.1-2017, System Interfaces, chapter 3, strtok. */
module Strtok {
  import opened Text

  /** The first offset from i on that does not hold the delimiter. */
  function SkipFrom(b: seq<char>, d: char, i: nat): (p: nat)
    requires Terminated(b) && i < |b| && d != '\0'
    ensures i <= p < |b| && b[p] != d
    decreases |b| - i
  {
    if b[i] == d then SkipFrom(b, d, i + 1) else i
  }

  /** The first offset from i on that holds the delimiter or a NUL. */
  function WordEnd(b: seq<char>, d: char, i: nat): (q: nat)
    requires Terminated(b) && i < |b|
    ensures i <= q < |b| && (b[q] == d || b[q] == '\0')
    decreases |b| - i
  {
    if b[i] == d || b[i] == '\0' then i else WordEnd(b, d, i + 1)
  }

  /** The tokens of the C string at offset i: its maximal runs of non-delimiters. */
  function TokensFrom(b: seq<char>, d: char, i: nat): seq<string>
    requires Terminated(b) && i < |b| && d != '\0'
    decreases |b| - i
  {
    var p := SkipFrom(b, d, i);
    if b[p] == '\0' then []
    else
      var q := WordEnd(b, d, p);
      if b[q] == '\0' then [b[p..q]] else [b[p..q]] + TokensFrom(b, d, q + 1)
  }

  function Tokens(s: string, d: char): seq<string>
    requires d != '\0'
  {
    TokensFrom(s + ['\0'], d, 0)
  }

  /** The outcome of one call: a null return when `found` is false, the offset of the
      token, the saved offset for the next call, and the buffer afterwards. */
  datatype Call = Call(found: bool, token: nat, save: nat, buf: seq<char>)

  function StrtokR(b: seq<char>, start: nat, d: char): Call
    requires Terminated(b) && start < |b| && d != '\0'
  {
    var p := SkipFrom(b, d, start);
    if b[p] == '\0' then Call(false, p, p, b)
    else
      var q := WordEnd(b, d, p);
      if b[q] == '\0' then Call(true, p, q, b)
      else Call(true, p, q + 1, b[q := '\0'])
  }

  /** The text of c from offset m + i on is the text of b from offset i on. */
  ghost predicate SameText(b: seq<char>, c: seq<char>, m: nat, i: nat) {
    && Terminated(b) && |c| == m + |b| && i < |b|
    && forall k {:trigger b[k]} :: i <= k < |b| ==> c[m + k] == b[k]
  }

  lemma {:induction false} SameSkip(b: seq<char>, c: seq<char>, m: nat, d: char, i: nat)
    requires SameText(b, c, m, i) && d != '\0'
    ensures Terminated(c) && SkipFrom(c, d, m + i) == m + SkipFrom(b, d, i)
    decreases |b| - i
  {
    assert c[m + |b| - 1] == b[|b| - 1] && c[m + i] == b[i];
    if b[i] == d { SameSkip(b, c, m, d, i + 1); }
  }

  lemma {:induction false} SameWord(b: seq<char>, c: seq<char>, m: nat, d: char, i: nat)
    requires SameText(b, c, m, i)
    ensures Terminated(c) && WordEnd(c, d, m + i) == m + WordEnd(b, d, i)
    decreases |b| - i
  {
    assert c[m + |b| - 1] == b[|b| - 1] && c[m + i] == b[i];
    if b[i] != d && b[i] != '\0' { SameWord(b, c, m, d, i + 1); }
  }

  lemma TokensUnfold(b: seq<char>, d: char, i: nat)
    requires Terminated(b) && i < |b| && d != '\0'
    ensures
      var p := SkipFrom(b, d, i);
      var q := WordEnd(b, d, p);
      TokensFrom(b, d, i) ==
        if b[p] == '\0' then []
        else if b[q] == '\0' then [b[p..q]]
        else [b[p..q]] + TokensFrom(b, d, q + 1)
  {
    hide SkipFrom, WordEnd;
  }

  /** Tokens depend only on the text from the offset on. */
  lemma {:induction false} SameTokens(b: seq<char>, c: seq<char>, m: nat, d: char, i: nat)
    requires SameText(b, c, m, i) && d != '\0'
    ensures Terminated(c) && TokensFrom(c, d, m + i) == TokensFrom(b, d, i)
    decreases |b| - i
  {
    hide TokensFrom, SkipFrom, WordEnd;
    SameSkip(b, c, m, d, i);
    TokensUnfold(b, d, i);
    TokensUnfold(c, d, m + i);
    var p := SkipFrom(b, d, i);
    assert c[m + p] == b[p];
    if b[p] != '\0' {
      SameWord(b, c, m, d, p);
      var q := WordEnd(b, d, p);
      assert b[p..q] == c[m + p..m + q];
      assert c[m + q] == b[q];
      if b[q] != '\0' {
        SameTokens(b, c, m, d, q + 1);
      }
    }
  }

  lemma TokensAfterCut(b: seq<char>, d: char, q: nat, i: nat)
    requires Terminated(b) && q < i < |b| && d != '\0'
    ensures Terminated(b[q := '\0']) && TokensFrom(b[q := '\0'], d, i) == TokensFrom(b, d, i)
  {
    SameTokens(b, b[q := '\0'], 0, d, i);
  }

  lemma TokensOfSuffix(x: string, b: seq<char>, d: char)
    requires Terminated(b) && d != '\0'
    ensures Terminated(x + b) && TokensFrom(x + b, d, |x|) == TokensFrom(b, d, 0)
  {
    SameTokens(b, x + b, |x|, d, 0);
  }

  /** Once the character after a word is a NUL, the word is a whole C string. */
  lemma {:induction false} WordIsString(b: seq<char>, d: char, i: nat, n: nat)
    requires Terminated(b) && i <= n < |b| && n == WordEnd(b, d, i)
    ensures
      var c := b[n := '\0'];
      Terminated(c) && End(c, i) == n
    decreases n - i
  {
    if i < n { WordIsString(b, d, i + 1, n); }
  }

  lemma {:induction false} WordOf(w: string, rest: seq<char>, d: char, i: nat)
    requires i <= |w| && rest != [] && rest[0] == d && Terminated(w + rest)
    requires forall c :: c in w ==> c != d && c != '\0'
    ensures WordEnd(w + rest, d, i) == |w|
    decreases |w| - i
  {
    if i < |w| {
      assert w[i] in w;
      WordOf(w, rest, d, i + 1);
    }
  }

  /** One call cuts out the first token in place and saves an offset from which the
      remaining tokens follow. Text outside [start, save) and every NUL stay as they
      were, so tokens already handed out keep their text. */
  lemma StrtokCuts(b: seq<char>, start: nat, d: char)
    requires Terminated(b) && start < |b| && d != '\0'
    ensures
      var c := StrtokR(b, start, d);
      var ts := TokensFrom(b, d, start);
      && Terminated(c.buf) && |c.buf| == |b| && start <= c.token <= c.save < |b|
      && (forall k :: 0 <= k < |b| && (k < start || c.save <= k || b[k] == '\0') ==> c.buf[k] == b[k])
      && (c.found <==> ts != [])
      && (c.found ==> End(c.buf, c.token) <= c.save && CString(c.buf, c.token) == ts[0])
      && TokensFrom(c.buf, d, c.save) == if c.found then ts[1..] else []
  {
    hide StrtokR, TokensFrom, SkipFrom, WordEnd, End, CString;
    StrtokFrame(b, start, d);
    StrtokToken(b, start, d);
    StrtokRest(b, start, d);
  }

  lemma StrtokFrame(b: seq<char>, start: nat, d: char)
    requires Terminated(b) && start < |b| && d != '\0'
    ensures
      var c := StrtokR(b, start, d);
      && Terminated(c.buf) && |c.buf| == |b| && start <= c.token <= c.save < |b|
      && forall k :: 0 <= k < |b| && (k < start || c.save <= k || b[k] == '\0') ==> c.buf[k] == b[k]
  {
  }

  lemma StrtokToken(b: seq<char>, start: nat, d: char)
    requires Terminated(b) && start < |b| && d != '\0'
    ensures
      var c := StrtokR(b, start, d);
      var ts := TokensFrom(b, d, start);
      && (c.found <==> ts != []) && Terminated(c.buf) && c.token < |c.buf|
      && (c.found ==> End(c.buf, c.token) <= c.save && CString(c.buf, c.token) == ts[0])
  {
    hide TokensFrom;
    TokensUnfold(b, d, start);
    StrtokFrame(b, start, d);
    var c := StrtokR(b, start, d);
    if c.found {
      var q := WordEnd(b, d, c.token);
      WordIsString(b, d, c.token, q);
      hide SkipFrom, WordEnd, End;
      assert c.buf == b[q := '\0'];
      assert c.buf[c.token..q] == b[c.token..q];
    }
  }

  lemma StrtokRest(b: seq<char>, start: nat, d: char)
    requires Terminated(b) && start < |b| && d != '\0'
    ensures
      var c := StrtokR(b, start, d);
      var ts := TokensFrom(b, d, start);
      && Terminated(c.buf) && c.save < |c.buf|
      && TokensFrom(c.buf, d, c.save) == if c.found && ts != [] then ts[1..] else []
  {
    hide TokensFrom;
    TokensUnfold(b, d, start);
    StrtokFrame(b, start, d);
    var c := StrtokR(b, start, d);
    var p := SkipFrom(b, d, start);
    var q := WordEnd(b, d, p);
    if b[p] != '\0' && b[q] != '\0' {
      TokensAfterCut(b, d, q, q + 1);
    } else {
      TokensUnfold(b, d, c.save);
    }
  }

  lemma {:induction false} SameEnd(b: seq<char>, c: seq<char>, i: nat)
    requires Terminated(b) && |b| == |c| && i < |b| && Terminated(c)
    requires forall k :: i <= k <= End(b, i) ==> c[k] == b[k]
    ensures End(c, i) == End(b, i)
    decreases |b| - i
  {
    if b[i] != '\0' { SameEnd(b, c, i + 1); }
  }

  /** A later call does not disturb a token already handed out. */
  lemma CutKeepsToken(b: seq<char>, save: nat, d: char, t: nat)
    requires Terminated(b) && save < |b| && t < |b| && End(b, t) <= save && d != '\0'
    ensures
      var c := StrtokR(b, save, d);
      && Terminated(c.buf) && |c.buf| == |b| && save <= c.save
      && End(c.buf, t) == End(b, t) && CString(c.buf, t) == CString(b, t)
  {
    var c := StrtokR(b, save, d);
    StrtokCuts(b, save, d);
    var e := End(b, t);
    assert forall k :: t <= k <= e ==> c.buf[k] == b[k];
    SameEnd(b, c.buf, t);
    assert c.buf[t..e] == b[t..e];
  }

  /** Joining words with one delimiter each. */
  function Join(ts: seq<string>, d: char): string {
    if ts == [] then [] else ts[0] + [d] + Join(ts[1..], d)
  }

  ghost predicate IsWord(w: string, d: char) {
    w != [] && d !in w && '\0' !in w
  }

  lemma FirstToken(w: string, tail: seq<char>, d: char)
    requires IsWord(w, d) && Terminated(tail) && d != '\0'
    ensures Terminated(w + [d] + tail)
    ensures TokensFrom(w + [d] + tail, d, 0) == [w] + TokensFrom(tail, d, 0)
  {
    hide TokensFrom;
    var b := w + [d] + tail;
    TokensUnfold(b, d, 0);
    assert b == w + ([d] + tail);
    assert b[0] == w[0] && w[0] in w;
    WordOf(w, [d] + tail, d, 0);
    assert b[..|w|] == w;
    TokensOfSuffix(w + [d], tail, d);
  }

  /** Leading delimiters are skipped, so adjacent ones count as one. */
  lemma DelimiterSkipped(b: seq<char>, d: char)
    requires Terminated(b) && d != '\0'
    ensures Terminated([d] + b) && TokensFrom([d] + b, d, 0) == TokensFrom(b, d, 0)
  {
    hide TokensFrom;
    TokensOfSuffix([d], b, d);
    TokensUnfold([d] + b, d, 0);
    TokensUnfold([d] + b, d, 1);
    assert SkipFrom([d] + b, d, 0) == SkipFrom([d] + b, d, 1);
  }

  /** Every token is a word: not empty, without the delimiter, and without a NUL. */
  lemma {:induction false} TokensAreWords(b: seq<char>, d: char, i: nat)
    requires Terminated(b) && i < |b| && d != '\0'
    ensures forall k :: 0 <= k < |TokensFrom(b, d, i)| ==> IsWord(TokensFrom(b, d, i)[k], d)
    decreases |b| - i
  {
    hide TokensFrom;
    TokensUnfold(b, d, i);
    var p := SkipFrom(b, d, i);
    if b[p] != '\0' {
      var q := WordEnd(b, d, p);
      WordIsWord(b, d, p);
      if b[q] != '\0' { TokensAreWords(b, d, q + 1); }
    }
  }

  lemma {:induction false} WordIsWord(b: seq<char>, d: char, p: nat)
    requires Terminated(b) && p < |b| && d != '\0' && b[p] != d && b[p] != '\0'
    ensures p < WordEnd(b, d, p) && IsWord(b[p..WordEnd(b, d, p)], d)
    decreases |b| - p
  {
    var q := WordEnd(b, d, p);
    if b[p + 1] == d || b[p + 1] == '\0' {
      assert q == WordEnd(b, d, p + 1) == p + 1;
      assert b[p..q] == [b[p]];
    } else {
      WordIsWord(b, d, p + 1);
      assert b[p..q] == [b[p]] + b[p + 1..q];
    }
  }

  /** Any list of words is recovered from its joined text. */
  lemma {:induction false} TokensOfJoin(ts: seq<string>, d: char)
    requires d != '\0' && forall i :: 0 <= i < |ts| ==> IsWord(ts[i], d)
    ensures Tokens(Join(ts, d), d) == ts
  {
    hide TokensFrom;
    TokensUnfold(['\0'], d, 0);
    assert [] + ['\0'] == ['\0'];
    if ts != [] {
      var tail := Join(ts[1..], d) + ['\0'];
      assert Join(ts, d) + ['\0'] == ts[0] + [d] + tail;
      FirstToken(ts[0], tail, d);
      TokensOfJoin(ts[1..], d);
    }
  }
}
