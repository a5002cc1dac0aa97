/** The cache of the bundled tree (`_extract_bundled_tree` of _setup/build.py) as a step
    machine: upgrades of the archive, extractions, and a crash at any step. */
module BundledTree {
  import opened Text

  // ------------------------------------------------------------- what is extracted

  /** An entry of the archive, its name and contents; directory names end in a slash. */
  datatype ZipEntry = ZipEntry(name: string, data: string)

  /** The modification time stands for the contents. */
  datatype Zip = Zip(mtime: nat, entries: seq<ZipEntry>)

  /** Files by path, and directories. */
  datatype Tree = Tree(files: map<string, string>, dirs: set<string>)

  const EMPTY := Tree(map[], {})

  const SETUP := "meatballs/_setup/"
  const DATA := "meatballs/data/"

  /** Where what stands under a prefix goes. */
  const PREFIXES := [(SETUP, ""), (DATA, "data/")]

  /** Path below the cache for an archive name; None when it is not wanted. */
  function Relative(name: string): Option<string> {
    if SETUP <= name then
      if name == SETUP then None else Some(name[|SETUP|..])
    else if DATA <= name then
      if name == DATA then None else Some("data/" + name[|DATA|..])
    else None
  }

  /** The setup tree is unpacked as it is, the data next to it under `data/`, and nothing
      else; the two prefixes themselves are skipped. */
  lemma Lands(name: string, rest: string)
    ensures Relative("meatballs/_setup/" + rest) == if rest == "" then None else Some(rest)
    ensures Relative("meatballs/data/" + rest) == if rest == "" then None else Some("data/" + rest)
    ensures !("meatballs/_setup/" <= name) && !("meatballs/data/" <= name) ==> Relative(name) == None
  {
    var a, b := SETUP + rest, DATA + rest;
    assert a[|SETUP|..] == rest && b[|DATA|..] == rest;
    assert rest == "" ==> a == SETUP && b == DATA;
    assert SETUP[10] == '_' && b[10] == DATA[10] == 'd';
  }

  predicate IsDirName(s: string) {
    s != "" && s[|s| - 1] == '/'
  }

  /** The directories on the way to a path; a path ending in a slash is one itself. */
  function Ancestors(path: string): set<string> {
    set i | 0 < i < |path| && path[i] == '/' :: path[..i]
  }

  /** One entry written into the staging tree. */
  function Unpack(t: Tree, e: ZipEntry): Tree {
    match Relative(e.name)
    case None => t
    case Some(rel) =>
      Tree(if IsDirName(e.name) then t.files else t.files[rel := e.data], t.dirs + Ancestors(rel))
  }

  function UnpackAll(t: Tree, entries: seq<ZipEntry>): Tree
    decreases |entries|
  {
    if entries == [] then t
    else Unpack(UnpackAll(t, entries[..|entries| - 1]), entries[|entries| - 1])
  }

  function Whole(z: Zip): Tree {
    UnpackAll(EMPTY, z.entries)
  }

  method ExtractEntries(entries: seq<ZipEntry>) returns (staging: Tree)
    ensures staging == UnpackAll(EMPTY, entries)
  {
    staging := EMPTY;
    var i := 0;
    while i < |entries|
      invariant 0 <= i <= |entries|
      invariant staging == UnpackAll(EMPTY, entries[..i])
    {
      assert entries[..i + 1][..i] == entries[..i];
      staging := WriteEntry(staging, entries[i]);
      i := i + 1;
    }
    assert entries[..i] == entries;
  }

  /** The loop over the prefixes: the first that fits decides. */
  method WriteEntry(t: Tree, e: ZipEntry) returns (r: Tree)
    ensures r == Unpack(t, e)
  {
    var i := 0;
    while i < |PREFIXES|
      invariant 0 <= i <= |PREFIXES|
      invariant forall j :: 0 <= j < i ==> !(PREFIXES[j].0 <= e.name)
    {
      var (src, dst) := PREFIXES[i];
      if src <= e.name {
        var rel := dst + e.name[|src|..];
        PrefixPath(i, e.name);
        if rel == dst {
          return t;
        } else if IsDirName(e.name) {
          return Tree(t.files, t.dirs + Ancestors(rel));
        } else {
          return Tree(t.files[rel := e.data], t.dirs + Ancestors(rel));
        }
      }
      i := i + 1;
    }
    assert !(PREFIXES[0].0 <= e.name) && !(PREFIXES[1].0 <= e.name);
    return t;
  }

  lemma PrefixPath(i: nat, name: string)
    requires i < |PREFIXES| && PREFIXES[i].0 <= name && forall j :: 0 <= j < i ==> !(PREFIXES[j].0 <= name)
    ensures var (src, dst) := PREFIXES[i];
            var rel := dst + name[|src|..];
            Relative(name) == if rel == dst then None else Some(rel)
  {
    var (src, dst) := PREFIXES[i];
    assert name == src + name[|src|..];
    assert i == 1 ==> !(PREFIXES[0].0 <= name);
    assert dst + name[|src|..] == dst <==> name[|src|..] == "" by {
      assert |dst + name[|src|..]| == |dst| + |name[|src|..]|;
    }
    assert "" + name[|src|..] == name[|src|..];
  }

  /** No two files of the archive land on one path. */
  ghost predicate DistinctPaths(entries: seq<ZipEntry>) {
    forall i, j :: 0 <= i < j < |entries| && IsFile(entries[i]) && IsFile(entries[j]) ==>
      Relative(entries[i].name) != Relative(entries[j].name)
  }

  predicate IsFile(e: ZipEntry) {
    Relative(e.name).Some? && (e.name != "" ==> e.name[|e.name| - 1] != '/')
  }

  /** The tree holds every wanted file with its contents, and nothing else. */
  ghost predicate HoldsEvery(t: Tree, entries: seq<ZipEntry>) {
    && (forall e :: e in entries && IsFile(e) ==>
        Relative(e.name).value in t.files && t.files[Relative(e.name).value] == e.data)
    && (forall p :: p in t.files ==> exists e :: e in entries && IsFile(e) && Relative(e.name) == Some(p))
  }

  /** A wanted path goes through this directory, or is it. */
  predicate Through(e: ZipEntry, dir: string) {
    match Relative(e.name)
    case None => false
    case Some(path) => dir != "" && dir + "/" <= path
  }

  /** The directories are those that lead to a wanted entry or are one. */
  lemma {:induction false} WholeHasDirs(entries: seq<ZipEntry>)
    ensures forall dir :: dir in UnpackAll(EMPTY, entries).dirs <==> exists e :: e in entries && Through(e, dir)
  {
    hide Relative;
    if entries != [] {
      var n := |entries| - 1;
      assert entries == entries[..n] + [entries[n]];
      WholeHasDirs(entries[..n]);
      forall dir
        ensures dir in UnpackAll(EMPTY, entries).dirs <==>
                dir in UnpackAll(EMPTY, entries[..n]).dirs || Through(entries[n], dir)
      {
        if Relative(entries[n].name).Some? {
          IsAncestor(Relative(entries[n].name).value, dir);
        }
      }
    }
  }

  lemma IsAncestor(path: string, dir: string)
    ensures dir in Ancestors(path) <==> dir != "" && dir + "/" <= path
  {
    if dir in Ancestors(path) {
      var i :| 0 < i < |path| && path[i] == '/' && path[..i] == dir;
      assert dir + "/" == path[..i + 1];
    }
    if dir != "" && dir + "/" <= path {
      assert path[|dir|] == '/' && path[..|dir|] == dir;
    }
  }

  lemma {:induction false} WholeHoldsEvery(entries: seq<ZipEntry>)
    requires DistinctPaths(entries)
    ensures HoldsEvery(UnpackAll(EMPTY, entries), entries)
  {
    hide HoldsEvery, Unpack;
    if entries == [] {
      HoldsNothing();
    } else {
      var n := |entries| - 1;
      assert entries == entries[..n] + [entries[n]];
      WholeHoldsEvery(entries[..n]);
      HoldsOneMore(UnpackAll(EMPTY, entries[..n]), entries, n);
    }
  }

  lemma HoldsNothing()
    ensures HoldsEvery(EMPTY, [])
  {
  }

  lemma HoldsOneMore(t: Tree, entries: seq<ZipEntry>, n: nat)
    requires n == |entries| - 1 && DistinctPaths(entries) && HoldsEvery(t, entries[..n])
    ensures HoldsEvery(Unpack(t, entries[n]), entries)
  {
    hide Relative, Ancestors, HoldsEvery, DistinctPaths;
    assert entries == entries[..n] + [entries[n]];
    if IsFile(entries[n]) {
      forall e | e in entries[..n] && IsFile(e)
        ensures Relative(e.name) != Relative(entries[n].name)
      {
        LastPathNew(entries, n, e);
      }
      HoldsWritten(t, entries[..n], entries[n]);
    } else {
      HoldsSkipped(t, Unpack(t, entries[n]), entries[..n], entries[n]);
    }
  }

  lemma LastPathNew(entries: seq<ZipEntry>, n: nat, e: ZipEntry)
    requires n == |entries| - 1 && DistinctPaths(entries) && IsFile(entries[n])
    requires e in entries[..n] && IsFile(e)
    ensures Relative(e.name) != Relative(entries[n].name)
  {
    hide Relative, IsFile;
    var i :| 0 <= i < n && entries[..n][i] == e;
    assert entries[i] == e;
  }

  lemma HoldsSkipped(t: Tree, r: Tree, front: seq<ZipEntry>, last: ZipEntry)
    requires HoldsEvery(t, front) && !IsFile(last) && r.files == t.files
    ensures HoldsEvery(r, front + [last])
  {
    hide Relative, IsDirName;
    assert forall e :: e in front + [last] <==> e in front || e == last;
  }

  lemma HoldsWritten(t: Tree, front: seq<ZipEntry>, last: ZipEntry)
    requires HoldsEvery(t, front) && IsFile(last)
    requires forall e :: e in front && IsFile(e) ==> Relative(e.name) != Relative(last.name)
    ensures HoldsEvery(Unpack(t, last), front + [last])
  {
    hide Relative, Ancestors;
    var r, all := Unpack(t, last), front + [last];
    assert forall e :: e in all <==> e in front || e == last;
    forall p | p in r.files
      ensures exists e :: e in all && IsFile(e) && Relative(e.name) == Some(p)
    {
      if p == Relative(last.name).value {
        assert last in all;
      } else {
        var e :| e in front && IsFile(e) && Relative(e.name) == Some(p);
        assert e in all;
      }
    }
  }

  // ----------------------------------------------------------------- the machine

  /** The marker file, by the number its text reads as. */
  datatype Marker = NoMarker | Marker(value: Option<nat>)

  /** Where the process stands. */
  datatype Phase =
    | Off
    | Ready(memo: bool)
    | Checking
    | ClearStaging
    | Extract(next: nat)
    | Writing(next: nat)
    | RemoveOld
    | Rename
    | Mark

  /** `zip` is the archive in place, `wanted` the time that the last call read of it, and
      `source` the archive that call opened, some time later. */
  datatype State = State(zip: Zip, dst: Option<Tree>, marker: Marker, staging: Option<Tree>, phase: Phase,
                         wanted: nat, source: Zip)

  predicate Under(path: string, dir: string) {
    dir + "/" < path
  }

  /** `_cache_looks_intact`: an expected directory that is not empty. */
  predicate LooksIntact(t: Tree) {
    exists p :: p in t.files.Keys + t.dirs && (Under(p, "scripts") || Under(p, "switch_mod") || Under(p, "data"))
  }

  predicate Below(path: string) {
    "scripts/" < path || "switch_mod/" < path || "data/" < path
  }

  lemma {:induction false} WholeHasFiles(entries: seq<ZipEntry>)
    ensures forall p :: p in UnpackAll(EMPTY, entries).files <==>
                        exists e :: e in entries && IsFile(e) && Relative(e.name) == Some(p)
  {
    hide Relative, Ancestors;
    if entries != [] {
      var n := |entries| - 1;
      assert entries == entries[..n] + [entries[n]];
      WholeHasFiles(entries[..n]);
      assert forall p :: p in UnpackAll(EMPTY, entries).files <==>
                         p in UnpackAll(EMPTY, entries[..n]).files ||
                         (IsFile(entries[n]) && Relative(entries[n].name) == Some(p));
    }
  }

  /** A whole tree looks intact exactly when a wanted file lies below one of the directories,
      or a directory on the way to a wanted entry does. */
  lemma IntactExactly(entries: seq<ZipEntry>)
    ensures LooksIntact(UnpackAll(EMPTY, entries)) <==>
            || (exists e :: e in entries && IsFile(e) && Below(Relative(e.name).value))
            || (exists e, dir :: e in entries && Through(e, dir) && Below(dir))
  {
    hide Relative, IsDirName, UnpackAll;
    WholeHasFiles(entries);
    WholeHasDirs(entries);
    var t := UnpackAll(EMPTY, entries);
    forall p
      ensures Below(p) <==> Under(p, "scripts") || Under(p, "switch_mod") || Under(p, "data")
    {
      assert "scripts" + "/" == "scripts/" && "switch_mod" + "/" == "switch_mod/" && "data" + "/" == "data/";
    }
    assert LooksIntact(t) <==> exists p :: p in t.files.Keys + t.dirs && Below(p);
  }

  /** The fast path for an archive of that time. */
  predicate AcceptsAt(s: State, mtime: nat) {
    s.dst.Some? && s.marker == Marker(Some(mtime)) && LooksIntact(s.dst.value)
  }

  /** A call that reads the time now takes the fast path. */
  predicate Accepts(s: State) {
    AcceptsAt(s, s.zip.mtime)
  }

  /** What is left while a tree is being removed, in whatever order. */
  ghost predicate Remains(left: Tree, t: Tree) {
    left.files.Keys <= t.files.Keys && left.dirs <= t.dirs
  }

  ghost predicate LessOf(left: Option<Tree>, t: Option<Tree>) {
    left.Some? ==> t.Some? && Remains(left.value, t.value)
  }

  /** An upgrade puts a later archive in place, at any time. */
  ghost predicate Upgrade(s: State, n: State) {
    n == s.(zip := n.zip) && n.zip.mtime > s.zip.mtime
  }

  ghost predicate Crash(s: State, n: State) {
    n == s.(phase := Off)
  }

  ghost predicate Launch(s: State, n: State) {
    s.phase == Off && n == s.(phase := Ready(false))
  }

  /** A call: answered from memory, or the time of the archive is read. */
  ghost predicate Call(s: State, n: State) {
    s.phase.Ready? && n == if s.phase.memo then s else s.(phase := Checking, wanted := s.zip.mtime)
  }

  /** The marker is compared with the time that was read. */
  ghost predicate Check(s: State, n: State) {
    s.phase == Checking && n == s.(phase := if AcceptsAt(s, s.wanted) then Ready(true) else ClearStaging)
  }

  /** An error is raised; the staging tree may be partly removed. */
  ghost predicate Fail(s: State, n: State) {
    && !s.phase.Off? && !s.phase.Ready?
    && LessOf(n.staging, s.staging)
    && n == s.(phase := Ready(false), staging := n.staging)
  }

  ghost predicate ClearStep(s: State, n: State) {
    && s.phase == ClearStaging
    && (|| (LessOf(n.staging, s.staging) && n == s.(staging := n.staging))
        || n == s.(staging := Some(EMPTY), source := s.zip, phase := Extract(0)))
  }

  /** The staging tree with a file only partly written. */
  function Partly(t: Tree, rel: string, part: string): Tree {
    Tree(t.files[rel := part], t.dirs + Ancestors(rel))
  }

  /** A file is opened and some of it written. */
  ghost predicate WriteStep(s: State, n: State) {
    && s.staging.Some? && (s.phase.Extract? || s.phase.Writing?) && s.phase.next < |s.source.entries|
    && IsFile(s.source.entries[s.phase.next])
    && exists part: string ::
         var rel := Relative(s.source.entries[s.phase.next].name).value;
         n == s.(phase := Writing(s.phase.next), staging := Some(Partly(s.staging.value, rel, part)))
  }

  /** The entry is complete. */
  ghost predicate EntryDone(s: State, n: State) {
    && s.staging.Some? && (s.phase.Extract? || s.phase.Writing?) && s.phase.next < |s.source.entries|
    && n == s.(phase := Extract(s.phase.next + 1),
               staging := Some(Unpack(s.staging.value, s.source.entries[s.phase.next])))
  }

  /** All entries written and the staging tree not empty. */
  ghost predicate Staged(s: State, n: State) {
    && s.phase == Extract(|s.source.entries|) && s.staging.Some? && LooksIntact(s.staging.value)
    && n == s.(phase := if s.dst.Some? then RemoveOld else Rename)
  }

  ghost predicate RemoveStep(s: State, n: State) {
    && s.phase == RemoveOld
    && (|| (LessOf(n.dst, s.dst) && (n.marker == s.marker || n.marker == NoMarker) &&
            n == s.(dst := n.dst, marker := n.marker))
        || n == s.(dst := None, marker := NoMarker, phase := Rename))
  }

  ghost predicate RenameStep(s: State, n: State) {
    s.phase == Rename && n == s.(dst := s.staging, staging := None, marker := NoMarker, phase := Mark)
  }

  /** The marker is written last; torn, it reads as nothing or as a smaller number. */
  ghost predicate MarkStep(s: State, n: State) {
    && s.phase == Mark
    && (|| (&& n == s.(marker := n.marker) && n.marker.Marker?
            && (n.marker.value.Some? ==> n.marker.value.value <= s.wanted))
        || n == s.(marker := Marker(Some(s.wanted)), phase := Ready(true)))
  }

  ghost predicate Next(s: State, n: State) {
    || Upgrade(s, n) || Crash(s, n) || Launch(s, n) || Call(s, n) || Check(s, n) || Fail(s, n)
    || ClearStep(s, n) || WriteStep(s, n)
    || EntryDone(s, n) || Staged(s, n) || RemoveStep(s, n) || RenameStep(s, n) || MarkStep(s, n)
  }

  ghost predicate Init(s: State) {
    s.dst == None && s.marker == NoMarker && s.staging == None && s.phase == Off && s.wanted <= s.zip.mtime
  }

  ghost predicate Run(states: seq<State>) {
    && states != [] && Init(states[0])
    && forall i {:trigger states[i]} :: 0 < i < |states| ==> Next(states[i - 1], states[i])
  }

  // ------------------------------------------------------------------ the invariant

  /** A marker never reads as a later time than the last that was read, and one that reads
      as the time of the archive in place stands in its whole tree or in one that does not
      look intact. */
  ghost predicate MarkerTrue(s: State) {
    s.marker.Marker? && s.marker.value.Some? ==>
      && s.marker.value.value <= s.wanted
      && (s.marker.value.value == s.zip.mtime && s.dst.Some? && LooksIntact(s.dst.value) ==>
          s.dst.value == Whole(s.zip))
  }

  /** The archive has been opened in this call and the call is not over. */
  predicate Extracting(p: Phase) {
    p.Extract? || p.Writing? || p.RemoveOld? || p.Rename? || p.Mark?
  }

  /** No time that was read is later than the archive in place; the archive that was opened
      lies between the two, and only if they are equal is it the one in place. */
  ghost predicate TimesTrue(s: State) {
    && s.wanted <= s.zip.mtime
    && (Extracting(s.phase) ==>
        s.wanted <= s.source.mtime <= s.zip.mtime && (s.source.mtime == s.zip.mtime ==> s.source == s.zip))
  }

  ghost predicate StagingTrue(s: State) {
    match s.phase
    case Extract(k) =>
      k <= |s.source.entries| && s.staging == Some(UnpackAll(EMPTY, s.source.entries[..k]))
    case Writing(k) =>
      && k < |s.source.entries| && s.staging.Some? && IsFile(s.source.entries[k])
      && Unpack(s.staging.value, s.source.entries[k]) ==
         Unpack(UnpackAll(EMPTY, s.source.entries[..k]), s.source.entries[k])
    case RemoveOld => s.staging == Some(Whole(s.source))
    case Rename => s.staging == Some(Whole(s.source))
    case _ => true
  }

  ghost predicate PhaseTrue(s: State) {
    match s.phase
    case Ready(memo) => memo && s.wanted == s.zip.mtime ==> s.dst == Some(Whole(s.zip))
    case ClearStaging => !Accepts(s)
    case Extract(_) => !Accepts(s)
    case Writing(_) => !Accepts(s)
    case RemoveOld => !Accepts(s)
    case Rename => !Accepts(s)
    case Mark => s.dst == Some(Whole(s.source))
    case _ => true
  }

  ghost predicate Inv(s: State) {
    MarkerTrue(s) && TimesTrue(s) && StagingTrue(s) && PhaseTrue(s)
  }

  /** Removing files cannot make a tree look intact. */
  lemma LessIntact(left: Tree, t: Tree)
    requires Remains(left, t) && LooksIntact(left)
    ensures LooksIntact(t)
  {
  }

  lemma StagingSteps(s: State, n: State)
    requires Inv(s) && (ClearStep(s, n) || WriteStep(s, n) || EntryDone(s, n) || Staged(s, n))
    ensures Inv(n)
  {
    hide Relative, LooksIntact, Ancestors;
    if ClearStep(s, n) {
      assert n.source.entries[..0] == [];
    } else if WriteStep(s, n) {
      WriteKeeps(s, n);
    } else if EntryDone(s, n) {
      var k := s.phase.next;
      assert s.source.entries[..k + 1][..k] == s.source.entries[..k];
    } else {
      assert s.source.entries[..|s.source.entries|] == s.source.entries;
    }
  }

  /** Whatever part of a file has been written, writing all of it gives the same tree. */
  lemma Overwritten(t: Tree, e: ZipEntry, part: string)
    requires IsFile(e)
    ensures var rel := Relative(e.name).value;
            Unpack(Partly(t, rel, part), e) == Unpack(t, e)
  {
    hide Relative;
    var rel := Relative(e.name).value;
    assert t.files[rel := part][rel := e.data] == t.files[rel := e.data];
    assert t.dirs + Ancestors(rel) + Ancestors(rel) == t.dirs + Ancestors(rel);
  }

  lemma WriteKeeps(s: State, n: State)
    requires Inv(s) && WriteStep(s, n)
    ensures Inv(n)
  {
    hide Relative, LooksIntact, Ancestors, Unpack, UnpackAll;
    var e := s.source.entries[s.phase.next];
    var rel := Relative(e.name).value;
    var part: string :| n == s.(phase := Writing(s.phase.next), staging := Some(Partly(s.staging.value, rel, part)));
    Overwritten(s.staging.value, e, part);
  }

  lemma OtherSteps(s: State, n: State)
    requires Inv(s)
    requires Upgrade(s, n) || Crash(s, n) || Launch(s, n) || Call(s, n) || Check(s, n) || Fail(s, n)
    ensures Inv(n)
  {
    hide LooksIntact, Whole;
  }

  lemma SwapSteps(s: State, n: State)
    requires Inv(s) && (RemoveStep(s, n) || RenameStep(s, n) || MarkStep(s, n))
    ensures Inv(n)
  {
    hide LooksIntact, Whole;
    if RemoveStep(s, n) && n.dst.Some? {
      if LooksIntact(n.dst.value) {
        LessIntact(n.dst.value, s.dst.value);
      }
    }
  }

  lemma StepKeeps(s: State, n: State)
    requires Inv(s) && Next(s, n)
    ensures Inv(n)
  {
    hide Inv, Upgrade, Crash, Launch, Call, Check, Fail;
    hide ClearStep, WriteStep, EntryDone, Staged, RemoveStep, RenameStep, MarkStep;
    if Upgrade(s, n) || Crash(s, n) || Launch(s, n) || Call(s, n) || Check(s, n) || Fail(s, n) {
      OtherSteps(s, n);
    } else if ClearStep(s, n) || WriteStep(s, n) || EntryDone(s, n) || Staged(s, n) {
      StagingSteps(s, n);
    } else {
      SwapSteps(s, n);
    }
  }

  lemma {:induction false} RunKeeps(states: seq<State>, k: nat)
    requires Run(states) && k < |states|
    ensures Inv(states[k])
  {
    if k > 0 {
      RunKeeps(states, k - 1);
      StepKeeps(states[k - 1], states[k]);
    }
  }

  /** The process remembers a tree for the archive that is in place. */
  predicate Remembers(s: State) {
    s.phase == Ready(true) && s.wanted == s.zip.mtime
  }

  /** Crash safety: at every point of every run, whatever was upgraded, crashed or failed
      in between, a tree that the fast path accepts is the whole tree of the archive in
      place, with every file under the two prefixes and nothing else. So is one that the
      process remembers, unless the archive was replaced after its time had been read. */
  lemma CacheNeverPoisoned(states: seq<State>, k: nat)
    requires Run(states) && k < |states|
    ensures Accepts(states[k]) || Remembers(states[k]) ==> states[k].dst == Some(Whole(states[k].zip))
    ensures (Accepts(states[k]) || Remembers(states[k])) && DistinctPaths(states[k].zip.entries) ==>
              HoldsEvery(states[k].dst.value, states[k].zip.entries)
  {
    hide LooksIntact, HoldsEvery;
    RunKeeps(states, k);
    if DistinctPaths(states[k].zip.entries) {
      WholeHoldsEvery(states[k].zip.entries);
    }
  }

  /** The clock matters, and nothing else does: of a tree accepted at some point of some run,
      an archive put in place of the current one gets the wrong tree accepted exactly when it
      carries the recorded time and unpacks to something else. */
  lemma SameTimeFools(states: seq<State>, k: nat, other: Zip)
    requires Run(states) && k < |states| && Accepts(states[k])
    ensures var n := states[k].(zip := other);
            Accepts(n) && n.dst != Some(Whole(other)) <==>
            other.mtime == states[k].zip.mtime && Whole(other) != Whole(states[k].zip)
  {
    hide LooksIntact, Whole, HoldsEvery;
    CacheNeverPoisoned(states, k);
  }

  // ------------------------------------------------------------ one call, undisturbed

  /** The cache as a running process sees it; `_extracted_bundled_root` is the memo. */
  class Cache {
    var state: State

    constructor (s: State)
      requires Inv(s) && s.phase.Ready?
      ensures state == s
    {
      state := s;
    }

    /** `_extract_bundled_tree` without an upgrade, a crash or an error from the file
        system. */
    method Resolve() returns (found: bool)
      requires Inv(state) && state.phase.Ready?
      modifies this
      ensures Inv(state) && state.phase.Ready? && state.zip == old(state.zip)
      ensures old(state.phase.memo) ==> found && state == old(state)
      ensures !old(state.phase.memo) && found ==> Remembers(state) && state.dst == Some(Whole(state.zip))
      ensures !found ==> !LooksIntact(Whole(state.zip)) && state.dst == old(state.dst)
    {
      hide LooksIntact, UnpackAll;
      if state.phase.memo {
        return true;
      }
      Advance(state.(phase := Checking, wanted := state.zip.mtime));
      if AcceptsAt(state, state.wanted) {
        Advance(state.(phase := Ready(true)));
        return true;
      }
      Advance(state.(phase := ClearStaging));
      Advance(state.(staging := Some(EMPTY), source := state.zip, phase := Extract(0)));
      while state.phase.next < |state.source.entries|
        invariant Inv(state) && state.phase.Extract? && state.phase.next <= |state.source.entries|
        invariant state.zip == old(state.zip) && state.dst == old(state.dst)
        invariant state.source == state.zip && state.wanted == state.zip.mtime
        decreases |state.source.entries| - state.phase.next
      {
        var k := state.phase.next;
        var staging := WriteEntry(state.staging.value, state.source.entries[k]);
        Advance(state.(phase := Extract(k + 1), staging := Some(staging)));
      }
      assert state.source.entries[..state.phase.next] == state.source.entries;
      if !LooksIntact(state.staging.value) {
        Advance(state.(phase := Ready(false), staging := None));
        return false;
      }
      Advance(state.(phase := if state.dst.Some? then RemoveOld else Rename));
      if state.phase == RemoveOld {
        Advance(state.(dst := None, marker := NoMarker, phase := Rename));
      }
      Advance(state.(dst := state.staging, staging := None, marker := NoMarker, phase := Mark));
      Advance(state.(marker := Marker(Some(state.wanted)), phase := Ready(true)));
      return true;
    }

    /** One step of the machine. */
    method Advance(n: State)
      requires Inv(state) && Next(state, n)
      modifies this
      ensures state == n && Inv(state)
    {
      StepKeeps(state, n);
      state := n;
    }
  }
}
