/** The catalogue of desktop sessions: a list kept sorted and free of duplicate names while
    desktop files are scanned, and what a session name means to the server. */
module Catalogue {
  import opened Text
  import opened Wrappers
  import opened Lists

  datatype Xsession = Xsession(name: string, command: string, icon: Option<string>, wayland: bool)

  /** A desktop file as the desktop library reads it; `command` is the first local command. */
  datatype Desktop = Desktop(name: string, icon: Option<string>, command: Option<string>)

  /** A scanned path, and its desktop file when it is one. */
  datatype File = File(path: string, desktop: Option<Desktop>)

  // ---------- order ----------

  function Lower(c: char): char {
    if 'A' <= c <= 'Z' then (c as int + 32) as char else c
  }

  /** `strcasecmp(a, b) <= 0` */
  predicate CaseLe(a: string, b: string) {
    a == [] || (b != [] && (Lower(a[0]) < Lower(b[0]) || (Lower(a[0]) == Lower(b[0]) && CaseLe(a[1..], b[1..]))))
  }

  /** The order, read off the characters: a comes first when it is the beginning of b, or at the
      first place where they differ, case aside, its character comes first. */
  lemma {:induction false} CaseOrder(a: string, b: string, k: nat)
    requires k <= |a| && k <= |b| && forall i :: 0 <= i < k ==> Lower(a[i]) == Lower(b[i])
    requires k == |a| || k == |b| || Lower(a[k]) != Lower(b[k])
    ensures CaseLe(a, b) <==> k == |a| || (k < |b| && Lower(a[k]) < Lower(b[k]))
  {
    if k > 0 {
      assert Lower(a[0]) == Lower(b[0]);
      assert forall i :: 0 <= i < k - 1 ==> a[1..][i] == a[i + 1] && b[1..][i] == b[i + 1];
      CaseOrder(a[1..], b[1..], k - 1);
    }
  }

  /** Case is put aside for letters and nothing else. */
  lemma LowerMeans(c: char)
    ensures 'A' <= c <= 'Z' ==> Lower(c) as int == c as int - 'A' as int + 'a' as int
    ensures !('A' <= c <= 'Z') ==> Lower(c) == c
  {
  }

  lemma {:induction false} CaseTransitive(a: string, b: string, c: string)
    requires CaseLe(a, b) && CaseLe(b, c)
    ensures CaseLe(a, c)
  {
    if a != [] && Lower(a[0]) == Lower(b[0]) == Lower(c[0]) {
      CaseTransitive(a[1..], b[1..], c[1..]);
    }
  }

  lemma {:induction false} CaseTotal(a: string, b: string)
    ensures CaseLe(a, b) || CaseLe(b, a)
  {
    if a != [] && b != [] && Lower(a[0]) == Lower(b[0]) {
      CaseTotal(a[1..], b[1..]);
    }
  }

  ghost predicate Sorted(l: seq<Xsession>) {
    forall i, j :: 0 <= i < j < |l| ==> CaseLe(l[i].name, l[j].name)
  }

  ghost predicate Distinct(l: seq<Xsession>) {
    forall i, j :: 0 <= i < j < |l| ==> l[i].name != l[j].name
  }

  /** A place where x may go into a sorted list. Names that compare equal leave a choice,
      and the library does not say which it makes. */
  ghost predicate FitsAt(l: seq<Xsession>, x: Xsession, p: nat) {
    && p <= |l|
    && (forall i :: 0 <= i < p ==> CaseLe(l[i].name, x.name))
    && (forall i :: p <= i < |l| ==> CaseLe(x.name, l[i].name))
  }

  /** What the library's sorted insertion promises. */
  ghost predicate Inserts(l: seq<Xsession>, x: Xsession, r: seq<Xsession>) {
    exists p: nat :: FitsAt(l, x, p) && r == l[..p] + [x] + l[p..]
  }

  // ---------- scanning ----------

  predicate HasName(l: seq<Xsession>, name: string) {
    exists i :: 0 <= i < |l| && l[i].name == name
  }

  predicate Usable(f: File) {
    f.desktop.Some? && f.desktop.value.command.Some?
  }

  /** The entry a usable file makes. */
  function Entry(f: File): Xsession
    requires Usable(f)
  {
    var d := f.desktop.value;
    Xsession(d.name, d.command.value, if d.icon == Some("") then None else d.icon, Contains(f.path, MARK))
  }

  /** The effect of scanning one file. */
  ghost predicate Scans(l: seq<Xsession>, f: File, r: seq<Xsession>) {
    if Usable(f) && !HasName(l, f.desktop.value.name) then Inserts(l, Entry(f), r) else r == l
  }

  /** The first usable file of a name, read off the scanned files alone. */
  function FirstUsable(fs: seq<File>, name: string): Option<File> {
    if fs == [] then None
    else
      var before := FirstUsable(fs[..|fs| - 1], name);
      var f := fs[|fs| - 1];
      if before.Some? then before
      else if Usable(f) && f.desktop.value.name == name then Some(f)
      else None
  }

  /** What the list must be after the files fs. */
  ghost predicate CatalogueOf(fs: seq<File>, l: seq<Xsession>) {
    && Sorted(l) && Distinct(l)
    && (forall i :: 0 <= i < |l| ==> Made(fs, l[i]))
    && (forall name :: FirstUsable(fs, name).Some? ==> HasName(l, name))
  }

  ghost predicate Made(fs: seq<File>, x: Xsession) {
    var f := FirstUsable(fs, x.name);
    f.Some? && Usable(f.value) && x == Entry(f.value)
  }

  lemma {:induction false} FirstUsableNamed(fs: seq<File>, name: string)
    ensures FirstUsable(fs, name).Some? ==>
      var f := FirstUsable(fs, name).value;
      Usable(f) && f.desktop.value.name == name && f in fs
  {
    if fs != [] {
      FirstUsableNamed(fs[..|fs| - 1], name);
    }
  }

  lemma InsertSorted(l: seq<Xsession>, x: Xsession, p: nat)
    requires Sorted(l) && FitsAt(l, x, p)
    ensures Sorted(l[..p] + [x] + l[p..])
  {
    var r := l[..p] + [x] + l[p..];
    forall i, j | 0 <= i < j < |r| ensures CaseLe(r[i].name, r[j].name) {
      assert r[i] == if i < p then l[i] else if i == p then x else l[i - 1];
      assert r[j] == if j < p then l[j] else if j == p then x else l[j - 1];
      if i < p < j { CaseTransitive(l[i].name, x.name, l[j - 1].name); }
    }
  }

  lemma InsertDistinct(l: seq<Xsession>, x: Xsession, p: nat)
    requires Distinct(l) && p <= |l| && !HasName(l, x.name)
    ensures Distinct(l[..p] + [x] + l[p..])
  {
    var r := l[..p] + [x] + l[p..];
    forall i, j | 0 <= i < j < |r| ensures r[i].name != r[j].name {
      assert r[i] == if i < p then l[i] else if i == p then x else l[i - 1];
      assert r[j] == if j < p then l[j] else if j == p then x else l[j - 1];
    }
  }

  lemma FirstUsableAppend(fs: seq<File>, f: File, name: string)
    ensures FirstUsable(fs + [f], name) ==
      if FirstUsable(fs, name).Some? then FirstUsable(fs, name)
      else if Usable(f) && f.desktop.value.name == name then Some(f) else None
  {
    var gs := fs + [f];
    assert gs[..|gs| - 1] == fs && gs[|gs| - 1] == f;
  }

  lemma ScanKeeps(fs: seq<File>, l: seq<Xsession>, f: File, r: seq<Xsession>)
    requires CatalogueOf(fs, l) && Scans(l, f, r)
    ensures CatalogueOf(fs + [f], r)
  {
    if Usable(f) && !HasName(l, f.desktop.value.name) {
      var p: nat :| FitsAt(l, Entry(f), p) && r == l[..p] + [Entry(f)] + l[p..];
      InsertSorted(l, Entry(f), p);
      InsertDistinct(l, Entry(f), p);
      InsertMade(fs, l, f, p);
    } else {
      forall i | 0 <= i < |r| ensures Made(fs + [f], r[i]) {
        assert Made(fs, l[i]);
        FirstUsableAppend(fs, f, r[i].name);
      }
      forall name | FirstUsable(fs + [f], name).Some? ensures HasName(r, name) {
        FirstUsableAppend(fs, f, name);
      }
    }
  }

  lemma InsertMade(fs: seq<File>, l: seq<Xsession>, f: File, p: nat)
    requires CatalogueOf(fs, l) && Usable(f) && !HasName(l, f.desktop.value.name) && p <= |l|
    ensures
      var r := l[..p] + [Entry(f)] + l[p..];
      && (forall i :: 0 <= i < |r| ==> Made(fs + [f], r[i]))
      && (forall name :: FirstUsable(fs + [f], name).Some? ==> HasName(r, name))
  {
    hide Sorted, Distinct, CaseLe;
    var r := l[..p] + [Entry(f)] + l[p..];
    assert r[p] == Entry(f);
    forall i | 0 <= i < |r| ensures Made(fs + [f], r[i]) {
      assert r[i] == if i < p then l[i] else if i == p then Entry(f) else l[i - 1];
      FirstUsableAppend(fs, f, r[i].name);
    }
    forall name | FirstUsable(fs + [f], name).Some? ensures HasName(r, name) {
      FirstUsableAppend(fs, f, name);
      if FirstUsable(fs, name).Some? {
        var i :| 0 <= i < |l| && l[i].name == name;
        assert r[if i < p then i else i + 1] == l[i];
      }
    }
  }

  /** The lists a scan of these files can go through, one after each file. */
  ghost predicate ScanRun(fs: seq<File>, trace: seq<seq<Xsession>>) {
    && |trace| == |fs| + 1 && trace[0] == []
    && forall i :: 0 <= i < |fs| ==> Scans(trace[i], fs[i], trace[i + 1])
  }

  /** After any sequence of files, whatever choices insertion made among names that compare
      equal: sorted, no name twice, and for each name exactly the entry of the first usable
      file of that name. */
  lemma {:induction false} ScanResult(fs: seq<File>, trace: seq<seq<Xsession>>, n: nat)
    requires ScanRun(fs, trace) && n <= |fs|
    ensures CatalogueOf(fs[..n], trace[n])
  {
    if n > 0 {
      ScanResult(fs, trace, n - 1);
      ScanKeeps(fs[..n - 1], trace[n - 1], fs[n - 1], trace[n]);
      assert fs[..n - 1] + [fs[n - 1]] == fs[..n];
    } else {
      assert fs[..0] == [];
    }
  }

  /** What the list of the scanned files is, written out: each entry has the name, the first
      command, the icon unless it is empty, and the kind of a scanned file, and every scanned file
      that is a desktop file with a command has its name in the list. */
  lemma CatalogueSays(fs: seq<File>, l: seq<Xsession>)
    requires CatalogueOf(fs, l)
    ensures forall i :: 0 <= i < |l| ==> ComesFromOne(fs, l[i])
    ensures forall f :: f in fs && f.desktop.Some? && f.desktop.value.command.Some? ==>
      exists i :: 0 <= i < |l| && l[i].name == f.desktop.value.name
  {
    forall i | 0 <= i < |l| ensures ComesFromOne(fs, l[i]) {
      assert Made(fs, l[i]);
      FirstUsableNamed(fs, l[i].name);
      assert ComesFrom(l[i], FirstUsable(fs, l[i].name).value);
    }
    forall f | f in fs && f.desktop.Some? && f.desktop.value.command.Some?
      ensures exists i :: 0 <= i < |l| && l[i].name == f.desktop.value.name
    {
      UsableHasFirst(fs, f);
      assert HasName(l, f.desktop.value.name);
    }
  }

  ghost predicate ComesFrom(x: Xsession, f: File) {
    && f.desktop.Some? && f.desktop.value.name == x.name && f.desktop.value.command == Some(x.command)
    && x.icon == (if f.desktop.value.icon == Some("") then None else f.desktop.value.icon)
    && (x.wayland <==> Contains(f.path, MARK))
  }

  ghost predicate ComesFromOne(fs: seq<File>, x: Xsession) {
    exists f :: f in fs && ComesFrom(x, f)
  }

  lemma {:induction false} UsableHasFirst(fs: seq<File>, f: File)
    requires f in fs && f.desktop.Some? && f.desktop.value.command.Some?
    ensures FirstUsable(fs, f.desktop.value.name).Some?
  {
    var n := |fs| - 1;
    if f != fs[n] {
      var i :| 0 <= i < |fs| && fs[i] == f;
      assert fs[..n][i] == f;
      UsableHasFirst(fs[..n], f);
    }
  }

  // ---------- the directories ----------

  const ETC_DIR := "/etc/X11/Sessions"
  const X11_DIR := "/usr/share/xsessions"
  const WAYLAND_DIR := "/usr/share/wayland-sessions"
  const MARK := "wayland-sessions"

  /** What the desktop library has under each path. */
  type Desktops = map<string, Desktop>

  /** One name of a directory, as it is looked up: the path is built in a buffer. */
  function FileAt(dir: string, name: string, desktops: Desktops): File {
    var path := Snprintf(PATH_MAX, dir + "/" + name);
    File(path, if path in desktops then Some(desktops[path]) else None)
  }

  /** The names of a directory, or nothing when it is not one. */
  function FilesOf(dir: string, names: Option<seq<string>>, desktops: Desktops): (fs: seq<File>)
    ensures |fs| == if names.Some? then |names.value| else 0
  {
    if names.None? then []
    else seq(|names.value|, i requires 0 <= i < |names.value| => FileAt(dir, names.value[i], desktops))
  }

  /** Everything that start-up scans, in order. */
  function Installed(etc: Option<seq<string>>, x11: Option<seq<string>>, wayland: Option<seq<string>>,
                     desktops: Desktops)
    : seq<File> {
    FilesOf(ETC_DIR, etc, desktops) + FilesOf(X11_DIR, x11, desktops) + FilesOf(WAYLAND_DIR, wayland, desktops)
  }

  lemma {:induction false} FirstUsableConcat(a: seq<File>, b: seq<File>, name: string)
    ensures FirstUsable(a + b, name) ==
      if FirstUsable(a, name).Some? then FirstUsable(a, name) else FirstUsable(b, name)
  {
    hide Usable;
    if b == [] {
      assert a + b == a;
    } else {
      FirstUsableConcat(a, b[..|b| - 1], name);
      assert (a + b)[..|a + b| - 1] == a + b[..|b| - 1];
    }
  }

  /** Of two usable files with one name, the one from /etc/X11/Sessions is taken before one from
      /usr/share/xsessions, and that one before one from /usr/share/wayland-sessions; within a
      directory, the one that is listed first. */
  lemma EarlierDirectoryWins(etc: seq<string>, x11: seq<string>, wayland: seq<string>, desktops: Desktops, name: string)
    ensures
      var e := FirstUsable(FilesOf("/etc/X11/Sessions", Some(etc), desktops), name);
      var x := FirstUsable(FilesOf("/usr/share/xsessions", Some(x11), desktops), name);
      var w := FirstUsable(FilesOf("/usr/share/wayland-sessions", Some(wayland), desktops), name);
      FirstUsable(Installed(Some(etc), Some(x11), Some(wayland), desktops), name) ==
        if e.Some? then e else if x.Some? then x else w
  {
    hide FilesOf, FirstUsable;
    var e, x := FilesOf(ETC_DIR, Some(etc), desktops), FilesOf(X11_DIR, Some(x11), desktops);
    FirstUsableConcat(e + x, FilesOf(WAYLAND_DIR, Some(wayland), desktops), name);
    FirstUsableConcat(e, x, name);
  }

  /** The file that a name of a directory stands for: what the desktop library has under its
      whole path, when that fits. */
  lemma FileOfName(dir: string, names: seq<string>, desktops: Desktops, i: nat)
    requires i < |names| && |dir| + 1 + |names[i]| < PATH_MAX
    ensures
      var f := FilesOf(dir, Some(names), desktops)[i];
      var path := dir + "/" + names[i];
      f.path == path && f.desktop == if path in desktops then Some(desktops[path]) else None
  {
  }

  lemma Straddles(s: string, w: string, i: nat, c: nat)
    requires i <= c < i + |w| && i <= |s| && w <= s[i..]
    ensures c < |s| && s[c] in w
  {
    assert w[c - i] == s[i..][c - i];
  }

  /** A word is not in a text in which its first letter comes too late. */
  lemma NotWithin(s: string, w: string)
    requires w != [] && forall i :: 0 <= i && i + |w| <= |s| ==> s[i] != w[0]
    ensures !Contains(s, w)
  {
    forall i | 0 <= i <= |s| ensures !(w <= s[i..]) {
      if i + |w| <= |s| { assert s[i..][0] == s[i]; }
    }
  }

  lemma ContainsMore(a: string, s: string, b: string, w: string)
    requires Contains(s, w)
    ensures Contains(a + s + b, w)
  {
    var i :| 0 <= i <= |s| && w <= s[i..];
    var t := a + s + b;
    assert t[|a| + i..][..|w|] == s[i..][..|w|] == w;
  }

  /** A word without a slash is found in a path exactly when it is in one of its two parts. */
  lemma ContainsPart(dir: string, name: string, w: string)
    requires '/' !in w
    ensures Contains(dir + "/" + name, w) <==> Contains(dir, w) || Contains(name, w)
  {
    var s := dir + "/" + name;
    if Contains(s, w) {
      var i :| 0 <= i <= |s| && w <= s[i..];
      WithinPart(dir, name, w, i);
    }
    hide Contains;
    if Contains(dir, w) {
      ContainsMore("", dir, "/" + name, w);
      assert "" + dir + ("/" + name) == s;
    }
    if Contains(name, w) {
      ContainsMore(dir + "/", name, "", w);
      assert dir + "/" + name + "" == s;
    }
  }

  lemma WithinPart(dir: string, name: string, w: string, i: nat)
    requires i <= |dir + "/" + name| && w <= (dir + "/" + name)[i..] && '/' !in w
    ensures Contains(dir, w) || Contains(name, w)
  {
    var s := dir + "/" + name;
    if i <= |dir| < i + |w| {
      Straddles(s, w, i, |dir|);
    } else if i > |dir| {
      assert s[i..] == name[i - |dir| - 1..];
    } else {
      assert dir[i..][..|w|] == s[i..][..|w|] == w;
    }
  }

  lemma MarkedDirs()
    ensures !Contains(ETC_DIR, MARK) && !Contains(X11_DIR, MARK) && Contains(WAYLAND_DIR, MARK)
  {
    hide Contains;
    EtcUnmarked();
    X11Unmarked();
    WaylandMarked();
  }

  lemma EtcUnmarked()
    ensures !Contains(ETC_DIR, MARK)
  {
    hide Contains;
    assert |MARK| == 16 && MARK[0] == 'w';
    assert |ETC_DIR| == 17 && ETC_DIR[0] == '/' && ETC_DIR[1] == 'e';
    NotWithin(ETC_DIR, MARK);
  }

  lemma X11Unmarked()
    ensures !Contains(X11_DIR, MARK)
  {
    hide Contains;
    assert |MARK| == 16 && MARK[0] == 'w';
    assert |X11_DIR| == 20 && X11_DIR[0] == '/' && X11_DIR[1] == 'u' && X11_DIR[2] == 's';
    assert X11_DIR[3] == 'r' && X11_DIR[4] == '/';
    NotWithin(X11_DIR, MARK);
  }

  lemma WaylandMarked()
    ensures Contains(WAYLAND_DIR, MARK)
  {
    assert WAYLAND_DIR[11..] == MARK;
  }

  /** A file is taken for a Wayland session exactly when it is in that directory or says so in
      its own name. */
  lemma FlagOfFile(dir: string, name: string, desktops: Desktops)
    requires dir == ETC_DIR || dir == X11_DIR || dir == WAYLAND_DIR
    requires |dir| + 1 + |name| < PATH_MAX
    ensures Contains(FileAt(dir, name, desktops).path, MARK) <==> dir == WAYLAND_DIR || Contains(name, MARK)
  {
    hide Contains;
    MarkedDirs();
    ContainsPart(dir, name, MARK);
  }

  /** File names that fit a path and do not say themselves what kind of session they are. */
  ghost predicate Plain(names: Option<seq<string>>) {
    names.Some? ==> forall i :: 0 <= i < |names.value| ==> |names.value[i]| <= 255 && !Contains(names.value[i], MARK)
  }

  lemma FlagsOfDir(dir: string, names: Option<seq<string>>, desktops: Desktops, f: File)
    requires dir == ETC_DIR || dir == X11_DIR || dir == WAYLAND_DIR
    requires Plain(names) && f in FilesOf(dir, names, desktops)
    ensures Contains(f.path, MARK) <==> dir == WAYLAND_DIR
  {
    hide Contains;
    var i :| 0 <= i < |names.value| && FilesOf(dir, names, desktops)[i] == f;
    FlagOfFile(dir, names.value[i], desktops);
  }

  /** In the catalogue of the three directories, exactly the entries whose file came from the
      Wayland one carry the flag. */
  lemma WaylandEntries(etc: Option<seq<string>>, x11: Option<seq<string>>, wayland: Option<seq<string>>,
                       desktops: Desktops,
                       l: seq<Xsession>, i: nat)
    requires Plain(etc) && Plain(x11) && Plain(wayland)
    requires CatalogueOf(Installed(etc, x11, wayland, desktops), l) && i < |l|
    ensures
      var f := FirstUsable(Installed(etc, x11, wayland, desktops), l[i].name);
      && f.Some? && f.value in Installed(etc, x11, wayland, desktops)
      && (l[i].wayland <==> f.value in FilesOf(WAYLAND_DIR, wayland, desktops))
  {
    var fs := Installed(etc, x11, wayland, desktops);
    assert Made(fs, l[i]);
    FirstUsableNamed(fs, l[i].name);
    var f := FirstUsable(fs, l[i].name).value;
    hide Contains, Plain, FirstUsable, FilesOf;
    if f in FilesOf(ETC_DIR, etc, desktops) { FlagsOfDir(ETC_DIR, etc, desktops, f); }
    if f in FilesOf(X11_DIR, x11, desktops) { FlagsOfDir(X11_DIR, x11, desktops, f); }
    if f in FilesOf(WAYLAND_DIR, wayland, desktops) { FlagsOfDir(WAYLAND_DIR, wayland, desktops, f); }
  }

  // ---------- what a name means to the server ----------

  /** Whether ~/.xinitrc and ~/.Xsession can be executed and the system xinitrc exists. */
  datatype Scripts = Scripts(executable: set<string>, systemXinitrc: bool)

  /** The command of a session that is not in the catalogue. */
  function Fallback(home: string, sc: Scripts): Option<string> {
    var xinitrc := Snprintf(PATH_MAX, home + "/" + ".xinitrc");
    var xsession := Snprintf(PATH_MAX, home + "/" + ".Xsession");
    if xinitrc in sc.executable then Some(xinitrc)
    else if xsession in sc.executable then Some(xsession)
    else if sc.systemXinitrc then Some("sh /etc/X11/xinit/xinitrc")
    else None
  }

  /** Which start-up script is used: the first that can be, in this order, and none otherwise. */
  lemma FallbackOrder(home: string, sc: Scripts)
    requires |home| + 10 < PATH_MAX
    ensures home + "/.xinitrc" in sc.executable ==> Fallback(home, sc) == Some(home + "/.xinitrc")
    ensures home + "/.xinitrc" !in sc.executable && home + "/.Xsession" in sc.executable ==>
      Fallback(home, sc) == Some(home + "/.Xsession")
    ensures home + "/.xinitrc" !in sc.executable && home + "/.Xsession" !in sc.executable ==>
      Fallback(home, sc) == if sc.systemXinitrc then Some("sh /etc/X11/xinit/xinitrc") else None
  {
    assert home + "/" + ".xinitrc" == home + "/.xinitrc" && home + "/" + ".Xsession" == home + "/.Xsession";
  }

  /** The meaning of a choice by name, read off the scanned files: the command and kind of
      the first usable file of that name, or the fallback, which no file of the catalogue
      contributes to. */
  function Meaning(fs: seq<File>, session: Option<string>, home: string, sc: Scripts): (Option<string>, bool) {
    var f := if session.Some? then FirstUsable(fs, session.value) else None;
    if f.Some? && Usable(f.value) then (f.value.desktop.value.command, Contains(f.value.path, MARK))
    else (Fallback(home, sc), false)
  }

  function Names(l: seq<Xsession>): seq<string> {
    seq(|l|, i requires 0 <= i < |l| => l[i].name)
  }

  /** The first entry with the chosen name, or the length of the list. */
  function Position(l: seq<Xsession>, session: Option<string>): (k: nat)
    ensures k <= |l| && (k < |l| ==> session == Some(l[k].name))
  {
    if session.None? then |l| else First(Names(l), session.value)
  }

  /** The command and kind that a choice by name gets from a list. */
  function Chosen(l: seq<Xsession>, session: Option<string>, home: string, sc: Scripts): (Option<string>, bool) {
    var k := Position(l, session);
    if k < |l| then (Some(l[k].command), l[k].wayland) else (Fallback(home, sc), false)
  }

  // ---------- the daemon's code ----------

  class SessionList {
    var xsessions: seq<Xsession>

    constructor ()
      ensures xsessions == []
    {
      xsessions := [];
    }

    /** Insert into the sorted list. */
    method SortedInsert(x: Xsession)
      requires Sorted(xsessions)
      modifies this
      ensures Inserts(old(xsessions), x, xsessions)
    {
      var p := 0;
      while p < |xsessions| && CaseLe(xsessions[p].name, x.name)
        invariant 0 <= p <= |xsessions|
        invariant forall i :: 0 <= i < p ==> CaseLe(xsessions[i].name, x.name)
      {
        p := p + 1;
      }
      forall i | p <= i < |xsessions| ensures CaseLe(x.name, xsessions[i].name) {
        CaseTotal(xsessions[p].name, x.name);
        if i > p { CaseTransitive(x.name, xsessions[p].name, xsessions[i].name); }
      }
      assert FitsAt(xsessions, x, p);
      xsessions := xsessions[..p] + [x] + xsessions[p..];
    }

    /** Scan one path. */
    method ScanFile(f: File)
      requires Sorted(xsessions)
      modifies this
      ensures Scans(old(xsessions), f, xsessions)
    {
      if f.desktop.None? {
        return;
      }
      var d := f.desktop.value;
      for i := 0 to |xsessions|
        invariant xsessions == old(xsessions)
        invariant forall k :: 0 <= k < i ==> xsessions[k].name != d.name
      {
        if xsessions[i].name == d.name {
          return;
        }
      }
      var wayland := Contains(f.path, MARK);
      if d.command.Some? {
        var icon := if d.icon.Some? && d.icon.value != "" then d.icon else None;
        SortedInsert(Xsession(d.name, d.command.value, icon, wayland));
      }
    }

    /** Scan the names of a directory, one after the other. */
    method Scan(dir: string, names: Option<seq<string>>, desktops: Desktops, ghost before: seq<File>)
      requires CatalogueOf(before, xsessions)
      modifies this
      ensures CatalogueOf(before + FilesOf(dir, names, desktops), xsessions)
    {
      hide CatalogueOf, Scans;
      ghost var files := FilesOf(dir, names, desktops);
      assert before + files[..0] == before;
      if names.Some? {
        for i := 0 to |names.value|
          invariant CatalogueOf(before + files[..i], xsessions)
        {
          ghost var l := xsessions;
          var path := Snprintf(PATH_MAX, dir + "/" + names.value[i]);
          CatalogueSorted(before + files[..i], l);
          ScanFile(File(path, if path in desktops then Some(desktops[path]) else None));
          ScanKeeps(before + files[..i], l, files[i], xsessions);
          assert before + files[..i] + [files[i]] == before + files[..i + 1];
        }
      }
      assert files[..|files|] == files;
    }

    /** Start-up scans the three session directories in turn. */
    method DesktopsInit(etc: Option<seq<string>>, x11: Option<seq<string>>, wayland: Option<seq<string>>,
                        desktops: Desktops)
      requires xsessions == []
      modifies this
      ensures CatalogueOf(Installed(etc, x11, wayland, desktops), xsessions)
    {
      Scan(ETC_DIR, etc, desktops, []);
      ghost var f, g := FilesOf(ETC_DIR, etc, desktops), FilesOf(X11_DIR, x11, desktops);
      assert [] + f == f;
      Scan(X11_DIR, x11, desktops, f);
      Scan(WAYLAND_DIR, wayland, desktops, f + g);
    }

    /** The command of the first entry with the chosen name, else a start-up script. */
    method FindCommand(home: string, session: Option<string>, sc: Scripts) returns (cmd: Option<string>)
      ensures cmd == Chosen(xsessions, session, home, sc).0
    {
      if session.Some? {
        for i := 0 to |xsessions|
          invariant forall k :: 0 <= k < i ==> xsessions[k].name != session.value
        {
          if xsessions[i].name == session.value {
            FirstIs(Names(xsessions), session.value, i);
            return Some(xsessions[i].command);
          }
        }
      }
      if session.Some? { FirstIs(Names(xsessions), session.value, |xsessions|); }
      // the list variable is null here, so no catalogue command is appended to a script
      var buf := Snprintf(PATH_MAX, home + "/" + ".xinitrc");
      if buf in sc.executable {
        return Some(buf);
      }
      buf := Snprintf(PATH_MAX, home + "/" + ".Xsession");
      if buf in sc.executable {
        return Some(buf);
      }
      if sc.systemXinitrc {
        return Some("sh /etc/X11/xinit/xinitrc");
      }
      return None;
    }

    method IsWayland(session: Option<string>) returns (w: bool)
      ensures
        var k := Position(xsessions, session);
        w == (k < |xsessions| && xsessions[k].wayland)
    {
      if session.Some? {
        for i := 0 to |xsessions|
          invariant forall k :: 0 <= k < i ==> xsessions[k].name != session.value
        {
          if xsessions[i].name == session.value {
            FirstIs(Names(xsessions), session.value, i);
            return xsessions[i].wayland;
          }
        }
      }
      if session.Some? { FirstIs(Names(xsessions), session.value, |xsessions|); }
      return false;
    }

    /** A choice by name resolves to what the scanned files say it means. */
    method Resolve(home: string, session: Option<string>, sc: Scripts,
                   ghost fs: seq<File>) returns (cmd: Option<string>, w: bool)
      requires CatalogueOf(fs, xsessions)
      ensures (cmd, w) == Chosen(xsessions, session, home, sc)
      ensures (cmd, w) == Meaning(fs, session, home, sc)
    {
      cmd := FindCommand(home, session, sc);
      w := IsWayland(session);
      ChosenMeans(fs, xsessions, session, home, sc);
    }
  }

  /** On the list a scan leaves, a choice by name gets what the scanned files say it means. */
  lemma ChosenMeans(fs: seq<File>, l: seq<Xsession>, session: Option<string>, home: string, sc: Scripts)
    requires CatalogueOf(fs, l)
    ensures Chosen(l, session, home, sc) == Meaning(fs, session, home, sc)
  {
    PositionMeans(fs, l, session);
  }

  lemma CatalogueSorted(fs: seq<File>, l: seq<Xsession>)
    requires CatalogueOf(fs, l)
    ensures Sorted(l)
  {
  }

  /** The first entry of a name is the entry of the first usable file of that name. */
  lemma PositionMeans(fs: seq<File>, l: seq<Xsession>, session: Option<string>)
    requires CatalogueOf(fs, l)
    ensures
      var k := Position(l, session);
      && (k < |l| <==> session.Some? && FirstUsable(fs, session.value).Some?)
      && (k < |l| ==> Made(fs, l[k]))
  {
    if session.Some? && FirstUsable(fs, session.value).Some? {
      var i :| 0 <= i < |l| && l[i].name == session.value;
      FirstFinds(Names(l), session.value, i);
    }
  }
}
