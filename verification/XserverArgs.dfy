/** The argument vector the child of an X server fork passes to `execv`. */
module XserverArgs {
  import opened Text
  import opened Strtok

  /** A slot of the vector: NULL (what calloc leaves), a local buffer with its text,
      or an address inside the tokenised copy of the configured arguments. */
  datatype Pointer = Null | Local(text: string) | InCopy(offset: nat)

  ghost predicate PointsTo(p: Pointer, copy: seq<char>, s: string)
    requires Terminated(copy)
  {
    match p
    case Null => false
    case Local(text) => text == s
    case InCopy(offset) => offset < |copy| && CString(copy, offset) == s
  }

  /** The vector a launch must pass: the fixed five, then the configured tokens. With no
      token at all the server is started bare. */
  function Expected(xinitPath: string, display: string, id: nat, vt: nat, xinitArgs: string): (v: seq<string>) {
    var ts := Tokens(xinitArgs, ' ');
    if ts == [] then [Snprintf(PATH_MAX, xinitPath)]
    else Fixed(xinitPath, display, id, vt) + ts
  }

  function Fixed(xinitPath: string, display: string, id: nat, vt: nat): (v: seq<string>)
    ensures |v| == 5
  {
    [Snprintf(PATH_MAX, xinitPath), Snprintf(64, display), "-seat",
     Snprintf(64, "seat" + Decimal(id)), Snprintf(64, "vt" + Decimal(vt))]
  }

  /** A launch without tokens has the path alone. */
  lemma Bare(xinitPath: string, display: string, id: nat, vt: nat, xinitArgs: string)
    requires Tokens(xinitArgs, ' ') == []
    ensures Expected(xinitPath, display, id, vt, xinitArgs) ==
      [if |xinitPath| < 4096 then xinitPath else xinitPath[..4095]]
  {
  }

  /** The slots of a launch with tokens, one by one, for numbers that fit their buffers. */
  lemma Layout(xinitPath: string, display: string, id: nat, vt: nat, xinitArgs: string)
    requires Tokens(xinitArgs, ' ') != []
    requires |Decimal(id)| < 60 && |Decimal(vt)| < 62
    ensures
      var v, ts := Expected(xinitPath, display, id, vt, xinitArgs), Tokens(xinitArgs, ' ');
      && |v| == 5 + |ts|
      && v[0] == (if |xinitPath| < 4096 then xinitPath else xinitPath[..4095])
      && v[1] == (if |display| < 64 then display else display[..63]) && v[2] == "-seat"
      && v[3] == "seat" + Decimal(id) && v[4] == "vt" + Decimal(vt)
      && forall k :: 0 <= k < |ts| ==> v[5 + k] == ts[k]
  {
    hide Decimal, TokensFrom;
  }

  method Strdup(s: string) returns (buf: array<char>)
    ensures fresh(buf) && buf[..] == s + ['\0'] && Terminated(buf[..])
  {
    var b := s + ['\0'];
    buf := new char[|b|](i requires 0 <= i < |b| => b[i]);
    assert buf[..] == b;
  }

  /** `strtok_r` on a real buffer. */
  method NextToken(buf: array<char>, start: nat) returns (found: bool, token: nat, save: nat)
    requires Terminated(buf[..]) && start < buf.Length
    modifies buf
    ensures Terminated(buf[..])
    ensures StrtokR(old(buf[..]), start, ' ') == Call(found, token, save, buf[..])
  {
    var c := StrtokR(buf[..], start, ' ');
    StrtokCuts(buf[..], start, ' ');
    found, token, save := c.found, c.token, c.save;
    forall i | 0 <= i < buf.Length { buf[i] := c.buf[i]; }
    assert buf[..] == c.buf;
  }

  /** The counting pass. */
  method CountTokens(xinitArgs: string) returns (n: nat)
    ensures n == |Tokens(xinitArgs, ' ')|
  {
    var buf := Strdup(xinitArgs);
    n := 0;
    StrtokCuts(buf[..], 0, ' ');
    var found: bool, token: nat, save: nat := NextToken(buf, 0);
    while found
      invariant Terminated(buf[..]) && save < buf.Length
      invariant n + (if found then 1 else 0) + |TokensFrom(buf[..], ' ', save)| == |Tokens(xinitArgs, ' ')|
      invariant !found ==> TokensFrom(buf[..], ' ', save) == []
      decreases |Tokens(xinitArgs, ' ')| - n
    {
      n := n + 1;
      StrtokCuts(buf[..], save, ' ');
      found, token, save := NextToken(buf, save);
    }
  }

  /** Slots 5, 6, ... hold the first m tokens, and every one of them ends before `save`. */
  ghost predicate Filled(args: seq<Pointer>, copy: seq<char>, save: nat, ts: seq<string>, m: nat) {
    && Terminated(copy) && m <= |ts| && 5 + m <= |args|
    && forall k {:trigger ts[k]} :: 0 <= k < m ==> Placed(args[5 + k], copy, save, ts[k])
  }

  ghost predicate Placed(p: Pointer, copy: seq<char>, save: nat, s: string)
    requires Terminated(copy)
  {
    p.InCopy? && PointsTo(p, copy, s) && End(copy, p.offset) <= save
  }

  /** A later `strtok_r` call does not disturb a token already handed out. */
  lemma StillPlaced(p: Pointer, b: seq<char>, save: nat, s: string)
    requires Terminated(b) && save < |b| && Placed(p, b, save, s)
    ensures
      var c := StrtokR(b, save, ' ');
      Terminated(c.buf) && save <= c.save && Placed(p, c.buf, c.save, s)
  {
    CutKeepsToken(b, save, ' ', p.offset);
  }

  lemma StillFilled(args: seq<Pointer>, b: seq<char>, save: nat, ts: seq<string>, m: nat)
    requires Filled(args, b, save, ts, m) && save < |b|
    ensures
      var c := StrtokR(b, save, ' ');
      Filled(args, c.buf, c.save, ts, m)
  {
    StrtokCuts(b, save, ' ');
    var c := StrtokR(b, save, ' ');
    forall k {:trigger ts[k]} | 0 <= k < m
      ensures Placed(args[5 + k], c.buf, c.save, ts[k])
    {
      StillPlaced(args[5 + k], b, save, ts[k]);
    }
  }

  /** The scanner has just looked for token j: `token` is it, and `save` leads to the rest. */
  ghost predicate Scanning(copy: seq<char>, found: bool, token: nat, save: nat, ts: seq<string>, j: nat) {
    && Terminated(copy) && save < |copy|
    && (found <==> j < |ts|)
    && (found ==> Placed(InCopy(token), copy, save, ts[j]))
    && TokensFrom(copy, ' ', save) == (if found then ts[j + 1..] else [])
  }

  lemma ScanStep(copy: seq<char>, found: bool, token: nat, save: nat, ts: seq<string>, j: nat)
    requires Scanning(copy, found, token, save, ts, j)
    ensures
      var c := StrtokR(copy, save, ' ');
      |c.buf| == |copy| && Scanning(c.buf, c.found, c.token, c.save, ts, j + 1)
  {
    StrtokCuts(copy, save, ' ');
  }

  /** Where the filling pass stands before it looks at slot i: the first i - 5 tokens
      are placed and the scanner is at the next one. */
  ghost predicate Filling(args: seq<Pointer>, copy: seq<char>, found: bool, token: nat, save: nat, ts: seq<string>,
                          i: nat)
  {
    && |args| == |ts| + 6 && 5 <= i <= |args|
    && Scanning(copy, found, token, save, ts, i - 5)
    && Filled(args, copy, save, ts, if found then i - 5 else |ts|)
    && (i == |args| ==> args[i - 1] == Null)
    && forall k :: i <= k < |args| ==> args[k] == Null
  }

  lemma FillStep(args: seq<Pointer>, copy: seq<char>, found: bool, token: nat, save: nat, ts: seq<string>, i: nat)
    requires Filling(args, copy, found, token, save, ts, i) && i < |args|
    ensures
      var c := StrtokR(copy, save, ' ');
      && |c.buf| == |copy| && c.save < |copy|
      && Filling(if found then args[i := InCopy(token)] else args, c.buf, c.found, c.token, c.save, ts, i + 1)
  {
    hide Filled, StrtokR, TokensFrom, Placed;
    var after := if found then args[i := InCopy(token)] else args;
    var m := if found then i - 4 else |ts|;
    assert Filled(after, copy, save, ts, m) by {
      if found { OneMoreFilled(args, copy, token, save, ts, i); }
    }
    StillFilled(after, copy, save, ts, m);
    ScanStep(copy, found, token, save, ts, i - 5);
  }

  lemma OneMoreFilled(args: seq<Pointer>, copy: seq<char>, token: nat, save: nat, ts: seq<string>, i: nat)
    requires 5 <= i < |args| && Filled(args, copy, save, ts, i - 5) && i - 5 < |ts|
    requires Placed(InCopy(token), copy, save, ts[i - 5])
    ensures Filled(args[i := InCopy(token)], copy, save, ts, i - 4)
  {
    hide Placed;
  }

  lemma FillStart(args: seq<Pointer>, b: seq<char>, ts: seq<string>)
    requires Terminated(b) && ts == TokensFrom(b, ' ', 0) && ts != [] && |args| == |ts| + 6
    requires forall k :: 5 <= k < |args| ==> args[k] == Null
    ensures
      var c := StrtokR(b, 0, ' ');
      && |c.buf| == |b| && c.save < |b|
      && Filling(args, c.buf, c.found, c.token, c.save, ts, 5)
  {
    StrtokCuts(b, 0, ' ');
  }

  lemma FillDone(args: seq<Pointer>, copy: seq<char>, found: bool, token: nat, save: nat, ts: seq<string>)
    requires Filling(args, copy, found, token, save, ts, |args|)
    ensures |args| > 0 && args == args[|args| - 1 := Null] && Filled(args, copy, save, ts, |ts|)
  {
  }

  /** The filling pass over a fresh copy: every write is in bounds, and slots 5.. hold
      exactly the tokens the counting pass counted. */
  method FillTokens(args: array<Pointer>, xinitArgs: string) returns (copy: array<char>)
    requires args.Length == |Tokens(xinitArgs, ' ')| + 6 > 6
    requires forall k :: 5 <= k < args.Length ==> args[k] == Null
    modifies args
    ensures fresh(copy) && Terminated(copy[..])
    ensures args[..5] == old(args[..5]) && args[args.Length - 1] == Null
    ensures exists save :: Filled(args[..], copy[..], save, Tokens(xinitArgs, ' '), |Tokens(xinitArgs, ' ')|)
  {
    hide Filling, Filled, StrtokR, TokensFrom;
    ghost var ts := Tokens(xinitArgs, ' ');
    copy := Strdup(xinitArgs);
    FillStart(args[..], copy[..], ts);
    var found: bool, token: nat, save: nat := NextToken(copy, 0);
    for i := 5 to args.Length
      invariant Terminated(copy[..]) && save < copy.Length
      invariant Filling(args[..], copy[..], found, token, save, ts, i)
      invariant args[..5] == old(args[..5])
    {
      FillStep(args[..], copy[..], found, token, save, ts, i);
      if found {
        args[i] := InCopy(token);
      }
      found, token, save := NextToken(copy, save);
    }
    FillDone(args[..], copy[..], found, token, save, ts);
    ghost var filled := args[..];
    args[args.Length - 1] := Null;
    assert args[..] == filled;
  }

  lemma LocalPoints(s: string, copy: seq<char>)
    requires Terminated(copy)
    ensures PointsTo(Local(s), copy, s)
  {
  }

  /** Five fixed slots and the filled ones point to the whole list of strings. */
  lemma Assembled(args: seq<Pointer>, copy: seq<char>, save: nat, fixed: seq<string>, ts: seq<string>)
    requires |args| == |ts| + 6 && |fixed| == 5 && Filled(args, copy, save, ts, |ts|)
    requires forall k :: 0 <= k < 5 ==> args[k] == Local(fixed[k])
    ensures forall k :: 0 <= k < |fixed + ts| ==> PointsTo(args[k], copy, (fixed + ts)[k])
  {
    forall k | 0 <= k < |fixed + ts| ensures PointsTo(args[k], copy, (fixed + ts)[k]) {
      if k < 5 {
        LocalPoints(fixed[k], copy);
      } else {
        assert Placed(args[5 + (k - 5)], copy, save, ts[k - 5]);
      }
    }
  }

  /** The whole vector: for every configured argument text the child passes exactly the
      expected strings, in order, followed by one NULL in the last slot. */
  method BuildArgs(xinitPath: string, display: string, id: nat, vt: nat, xinitArgs: string)
    returns (args: array<Pointer>, copy: array<char>)
    ensures Terminated(copy[..])
    ensures
      var want := Expected(xinitPath, display, id, vt, xinitArgs);
      && args.Length == |want| + 1 && args[|want|] == Null
      && forall k :: 0 <= k < |want| ==> PointsTo(args[k], copy[..], want[k])
  {
    hide Filled, PointsTo, TokensFrom, Snprintf, Decimal;
    var num := CountTokens(xinitArgs);
    ghost var ts := Tokens(xinitArgs, ' ');
    if num > 0 {
      num := num + 6;
      args := new Pointer[num](_ => Null);
      args[0] := Local(Snprintf(PATH_MAX, xinitPath));
      args[1] := Local(Snprintf(64, display));
      args[2] := Local("-seat");
      args[3] := Local(Snprintf(64, "seat" + Decimal(id)));
      args[4] := Local(Snprintf(64, "vt" + Decimal(vt)));
      ghost var fixed := args[..5];
      copy := FillTokens(args, xinitArgs);
      ghost var save :| Filled(args[..], copy[..], save, ts, |ts|);
      Assembled(args[..], copy[..], save, Fixed(xinitPath, display, id, vt), ts) by {
        forall k | 0 <= k < 5 ensures args[..][k] == Local(Fixed(xinitPath, display, id, vt)[k]) {
          assert args[..][k] == fixed[k];
        }
      }
    } else {
      args := new Pointer[2](_ => Null);
      args[0] := Local(Snprintf(PATH_MAX, xinitPath));
      args[1] := Null;
      copy := Strdup("");
      LocalPoints(Snprintf(PATH_MAX, xinitPath), copy[..]);
    }
  }
}
