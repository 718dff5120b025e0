/** The lock file: a daemon refuses to start while the file names a live process that was
    launched as the daemon, and recycles the file otherwise. Each call that takes the lock
    is one step; processes come and go between steps and process numbers are reused. */
module Lockfile {
  import opened Text
  import opened Wrappers

  /** The path the daemon is installed under. */
  const INSTALLED := "/usr/sbin/entrance"

  /** Process numbers stay below the kernel's limit. */
  const PID_MAX: nat := 4194304

  /** A process: what its command line says, and whether it runs the daemon. */
  datatype Process = Process(cmdline: string, daemon: bool)

  datatype Host = Host(file: Option<string>, procs: map<nat, Process>, holders: set<nat>)

  /** How writing the lock file goes: it may not open, or open (and so be emptied) but not take the text. */
  datatype Write = Written | NotOpened | NotWritten

  datatype Event =
    | Launch(pid: nat, p: Process)
    | Lock(pid: nat, w: Write)      // a daemon takes the lock, or exits
    | Crash(pid: nat)               // any process ends without cleaning up
    | Quit(pid: nat, removed: bool) // the holder leaves and removes the file

  /** What fgets reads into a buffer of 128 bytes. */
  function FirstLine(text: string, room: nat): string {
    if text == [] || room == 0 then []
    else if text[0] == '\n' then "\n"
    else [text[0]] + FirstLine(text[1..], room - 1)
  }

  /** The process number a lock file names. */
  function Named(text: string): int {
    Atoi(FirstLine(text, 127))
  }

  function Create(file: Option<string>, pid: nat, w: Write): (Option<string>, bool) {
    match w
    case NotOpened => (file, false)
    case NotWritten => (Some(""), false)
    case Written => (Some(Snprintf(128, Decimal(pid))), true)
  }

  /** Whether the number a lock file holds is that of a live process launched as the daemon. */
  predicate RunsDaemon(procs: map<nat, Process>, pid: int) {
    pid >= 0 && pid in procs && procs[pid].cmdline == INSTALLED
  }

  /** The outcome of taking the lock: the file afterwards, and whether the lock is held. */
  function Get(h: Host, pid: nat, w: Write): (Option<string>, bool) {
    match h.file
    case None => Create(h.file, pid, w)
    case Some(text) =>
      if Named(text) == pid then (h.file, true)
      else if RunsDaemon(h.procs, Named(text)) then (h.file, false)
      else Create(h.file, pid, w)
  }

  predicate Enabled(h: Host, e: Event) {
    match e
    case Launch(pid, _) => 0 < pid < PID_MAX && pid !in h.procs
    case Lock(pid, _) => pid in h.procs && h.procs[pid].daemon && pid !in h.holders && pid < PID_MAX
    case Crash(pid) => pid in h.procs
    case Quit(pid, _) => pid in h.holders
  }

  function Step(h: Host, e: Event): Host
    requires Enabled(h, e)
  {
    match e
    case Launch(pid, p) => h.(procs := h.procs[pid := p])
    case Lock(pid, w) =>
      var (file, ok) := Get(h, pid, w);
      if ok then Host(file, h.procs, h.holders + {pid}) else Host(file, h.procs - {pid}, h.holders)
    case Crash(pid) => Host(h.file, h.procs - {pid}, h.holders - {pid})
    case Quit(pid, removed) => Host(if removed then None else h.file, h.procs - {pid}, h.holders - {pid})
  }

  ghost predicate Runnable(h: Host, es: seq<Event>)
    decreases es
  {
    es != [] ==> Enabled(h, es[0]) && Runnable(Step(h, es[0]), es[1..])
  }

  ghost function Final(h: Host, es: seq<Event>): Host
    requires Runnable(h, es)
    decreases es
  {
    if es == [] then h else Final(Step(h, es[0]), es[1..])
  }

  /** Daemons are launched under this name only. */
  ghost predicate LaunchedAs(es: seq<Event>, name: string) {
    forall i :: 0 <= i < |es| && es[i].Launch? && es[i].p.daemon ==> es[i].p.cmdline == name
  }

  /** A host on which nobody holds the lock yet, and any daemon runs under this name. */
  ghost predicate Idle(h: Host, name: string) {
    h.holders == {} && forall r :: r in h.procs && h.procs[r].daemon ==> h.procs[r].cmdline == name
  }

  /** A run that launches daemons under this name only. */
  ghost predicate RunAs(h: Host, es: seq<Event>, name: string) {
    Idle(h, name) && Runnable(h, es) && LaunchedAs(es, name)
  }

  /** The name under which daemons exclude each other, whatever else happens. */
  ghost predicate Excludes(name: string) {
    forall h, es, p, q :: RunAs(h, es, name) && p in Final(h, es).holders && q in Final(h, es).holders ==> p == q
  }

  /** A holder is a live daemon, and the lock file names it. */
  ghost predicate Held(h: Host, p: nat) {
    && p in h.procs && h.procs[p] == Process(INSTALLED, true)
    && h.file.Some? && Named(h.file.value) == p
  }

  ghost predicate Inv(h: Host) {
    && (forall p :: p in h.procs && h.procs[p].daemon ==> h.procs[p].cmdline == INSTALLED)
    && (forall p :: p in h.holders ==> Held(h, p))
  }

  lemma {:induction false} FirstLineOfDigits(s: string, room: nat)
    requires AllDigits(s) && |s| <= room
    ensures FirstLine(s, room) == s
  {
    if s != [] {
      assert IsDigit(s[0]);
      FirstLineOfDigits(s[1..], room - 1);
    }
  }

  /** What a daemon writes is read back as its own number. */
  lemma NamedWhatWasWritten(pid: nat)
    requires pid < PID_MAX
    ensures Named(Snprintf(128, Decimal(pid))) == pid
  {
    SmallDecimal(pid);
    FirstLineOfDigits(Decimal(pid), 127);
    AtoiUndoesDecimal(pid, []);
    assert Decimal(pid) + [] == Decimal(pid);
  }

  lemma SmallDecimal(pid: nat)
    requires pid < PID_MAX
    ensures |Decimal(pid)| <= 7
  {
    DecimalLength(pid, 7);
    assert Pow10(7) == 10 * Pow10(6) == 100 * Pow10(5) == 1000 * Pow10(4) == 10000 * Pow10(3) == 100000 * Pow10(2);
    assert Pow10(2) == 10 * Pow10(1) == 100 * Pow10(0) == 100;
  }

  lemma StepKeeps(h: Host, e: Event)
    requires Inv(h) && Enabled(h, e)
    requires e.Launch? && e.p.daemon ==> e.p.cmdline == INSTALLED
    ensures Inv(Step(h, e))
  {
    if e.Lock? {
      NamedWhatWasWritten(e.pid);
    }
    hide Named, Snprintf;
  }

  lemma {:induction false} RunKeeps(h: Host, es: seq<Event>)
    requires Inv(h) && Runnable(h, es) && LaunchedAs(es, INSTALLED)
    ensures Inv(Final(h, es))
    decreases es
  {
    if es != [] {
      assert LaunchedAs(es[1..], INSTALLED) by {
        assert forall i :: 0 <= i < |es[1..]| ==> es[1..][i] == es[i + 1];
      }
      StepKeeps(h, es[0]);
      RunKeeps(Step(h, es[0]), es[1..]);
    }
  }

  /** Whatever the lock file holds at first and whatever runs, at most one daemon ever holds
      the lock, and the file then names it: through crashes, stale files, failed writes and
      reuse of process numbers. */
  lemma MutualExclusion(h: Host, es: seq<Event>, p: nat, q: nat)
    requires RunAs(h, es, INSTALLED)
    requires p in Final(h, es).holders && q in Final(h, es).holders
    ensures p == q && Held(Final(h, es), p)
  {
    RunKeeps(h, es);
    assert Held(Final(h, es), p) && Held(Final(h, es), q);
  }

  /** Under any other name it fails: two daemons started under it both hold the lock. */
  lemma OtherNameBreaksExclusion(name: string) returns (es: seq<Event>)
    requires name != INSTALLED
    ensures
      var h := Host(None, map[], {});
      RunAs(h, es, name) && Final(h, es).holders == {1, 2}
  {
    var p := Process(name, true);
    es := [Launch(1, p), Launch(2, p), Lock(1, Written), Lock(2, Written)];
    var h := Host(None, map[], {});
    var h1 := Step(h, es[0]);
    var h2 := Step(h1, es[1]);
    NamedWhatWasWritten(1);
    var h3 := Step(h2, es[2]);
    var h4 := Step(h3, es[3]);
    assert es[1..] == [es[1], es[2], es[3]] && es[1..][1..] == [es[2], es[3]] && es[1..][1..][1..] == [es[3]];
    assert Final(h3, [es[3]]) == h4 by { assert [es[3]][1..] == []; }
    assert Final(h2, [es[2], es[3]]) == h4 by { assert [es[2], es[3]][1..] == [es[3]]; }
    assert Final(h1, [es[1], es[2], es[3]]) == h4;
    assert Final(h, es) == h4;
    assert h4.holders == {} + {1} + {2};
  }

  /** Daemons exclude each other in all runs if and only if they are launched by their
      installed path. */
  lemma ExclusionExactly(name: string)
    ensures Excludes(name) <==> name == INSTALLED
  {
    hide Final, Runnable, Idle;
    if name != INSTALLED {
      var es := OtherNameBreaksExclusion(name);
      var h := Host(None, map[], {});
      assert RunAs(h, es, name) && 1 in Final(h, es).holders && 2 in Final(h, es).holders;
      assert !Excludes(name);
    } else {
      forall h, es, p, q | RunAs(h, es, name) && p in Final(h, es).holders && q in Final(h, es).holders ensures p == q {
        MutualExclusion(h, es, p, q);
      }
    }
  }

  /** A stale file never blocks: with no other live daemon, a successful write takes the lock. */
  lemma StaleLockRecycled(h: Host, pid: nat)
    requires pid < PID_MAX
    requires forall r :: r in h.procs && r != pid ==> h.procs[r].cmdline != INSTALLED
    ensures
      var (file, ok) := Get(h, pid, Written);
      ok && file.Some? && Named(file.value) == pid
  {
    NamedWhatWasWritten(pid);
    hide Named;
  }

  /** A holder that leaves takes the file with it, so the next daemon takes the lock with nothing
      in its way; and when the file cannot be removed, it names a process that is gone. */
  lemma LeavingFrees(h: Host, p: nat, removed: bool, pid: nat)
    requires Inv(h) && Enabled(h, Quit(p, removed)) && pid < PID_MAX
    ensures
      var g := Step(h, Quit(p, removed));
      && p !in g.procs && p !in g.holders
      && (removed ==> g.file == None && Get(g, pid, Written).1)
      && (!removed ==> g.file == h.file && g.file.Some? && Named(g.file.value) == p)
  {
    assert Held(h, p);
    hide Named;
  }

  /** A daemon either holds the lock after it tried, or is gone. */
  lemma RefusedExits(h: Host, pid: nat, w: Write)
    requires Enabled(h, Lock(pid, w))
    ensures
      var g := Step(h, Lock(pid, w));
      (pid in g.holders && pid in g.procs) || (pid !in g.holders && pid !in g.procs)
    ensures Step(h, Lock(pid, w)).holders <= h.holders + {pid}
  {
    hide Named;
  }

  /** When the lock is refused: the file names another process that was launched as the daemon,
      or it could not be written. The file is then what it was, unless it could be opened but
      not written. */
  lemma RefusedExactly(h: Host, pid: nat, w: Write)
    ensures !Get(h, pid, w).1 <==>
      if h.file.Some? && Named(h.file.value) == pid then false
      else
        || (h.file.Some? && Named(h.file.value) >= 0 && Named(h.file.value) in h.procs
            && h.procs[Named(h.file.value)].cmdline == INSTALLED)
        || !w.Written?
    ensures
      var mine := h.file.Some? && Named(h.file.value) == pid;
      var other := h.file.Some? && Named(h.file.value) >= 0 && Named(h.file.value) in h.procs
                   && h.procs[Named(h.file.value)].cmdline == INSTALLED;
      Get(h, pid, w).0 ==
        if mine || other || w.NotOpened? then h.file
        else if w.NotWritten? then Some("")
        else Some(Decimal(pid)[..if |Decimal(pid)| < 127 then |Decimal(pid)| else 127])
  {
    hide Named;
    assert Decimal(pid)[..|Decimal(pid)|] == Decimal(pid);
  }

  /** Only the first line counts. */
  lemma {:induction false} OnlyFirstLine(line: string, rest: string, room: nat)
    requires '\n' !in line && |line| < room
    ensures FirstLine(line + "\n" + rest, room) == line + "\n"
  {
    if line == [] {
      assert (line + "\n" + rest)[0] == '\n';
    } else {
      OnlyFirstLine(line[1..], rest, room - 1);
      assert (line + "\n" + rest)[1..] == line[1..] + "\n" + rest;
      assert (line + "\n" + rest)[0] == line[0];
      assert line + "\n" == [line[0]] + (line[1..] + "\n");
    }
  }

  /** The process that a file names: the number on its first line, whatever follows. */
  lemma NamesFirstLine(pid: nat, rest: string)
    requires pid < PID_MAX
    ensures Named(Decimal(pid) + "\n" + rest) == pid && Named("\n" + rest) == 0
  {
    SmallDecimal(pid);
    assert '\n' !in Decimal(pid);
    OnlyFirstLine(Decimal(pid), rest, 127);
    OnlyFirstLine([], rest, 127);
    assert [] + "\n" + rest == "\n" + rest && [] + "\n" == "\n";
    AtoiUndoesDecimal(pid, "\n");
    AtoiBlank('\n', []);
    assert ['\n'] + [] == "\n";
    AtoiNothing([]);
  }

  // ---------- the daemon's code ----------

  class LockHost {
    var file: Option<string>
    var procs: map<nat, Process>
    ghost var holders: set<nat>

    ghost function State(): Host
      reads this
    {
      Host(file, procs, holders)
    }

    constructor (file: Option<string>, procs: map<nat, Process>)
      ensures State() == Host(file, procs, {})
    {
      this.file, this.procs, this.holders := file, procs, {};
    }

    method LockCreate(pid: nat, w: Write) returns (ok: bool)
      modifies `file
      ensures (file, ok) == Create(old(file), pid, w)
    {
      if w.NotOpened? {
        return false;
      }
      file := Some("");
      var buf := Snprintf(128, Decimal(pid));
      if w.NotWritten? {
        return false;
      }
      file := Some(buf);
      return true;
    }

    method LockGet(myPid: nat, w: Write) returns (ok: bool)
      modifies `file
      ensures (file, ok) == Get(old(State()), myPid, w)
    {
      if file.None? {
        ok := LockCreate(myPid, w);
      } else {
        var pid := 0;
        var buf := FirstLine(file.value, 127);
        if buf != [] {
          pid := Atoi(buf);
        }
        if pid == myPid {
          return true;
        }
        var name := if pid >= 0 && pid in procs then procs[pid].cmdline else "/proc/";
        if name == INSTALLED {
          return false;
        }
        ok := LockCreate(myPid, w);
      }
    }

    /** One start: a daemon that does not get the lock exits. */
    method Start(pid: nat, w: Write) returns (ok: bool)
      requires Enabled(State(), Lock(pid, w))
      modifies this
      ensures State() == Step(old(State()), Lock(pid, w)) && (ok <==> pid in holders)
    {
      ok := LockGet(pid, w);
      if ok {
        holders := holders + {pid};
      } else {
        procs := procs - {pid};
      }
    }

    /** The end of the holder's main function. */
    method Leave(pid: nat, removed: bool)
      requires Enabled(State(), Quit(pid, removed))
      modifies this
      ensures State() == Step(old(State()), Quit(pid, removed))
    {
      if removed {
        file := None;
      }
      procs, holders := procs - {pid}, holders - {pid};
    }
  }
}
