/**
 The outer transaction (tools/source-update/update.go): go.mod, go.sum and the workflow
 output file are snapshotted before they change and restored when a later step fails,
 with the install of the three targets as the last step.
 */
module Update {
  import opened Wrappers
  import opened FileTree
  import opened FileSystems
  import opened Install

  /** A file remembered before it is changed; the empty path stands for an unset workflow output. */
  datatype Snapshot = Snapshot(path: Path, data: Bytes, mode: Mode, existed: bool)

  datatype UpdateResult =
    | Updated
    | NotStarted
    | Failed(notRestored: seq<Path>, outputRestored: bool, install: Option<InstallResult>)

  function GoMod(root: Path): Path { root + ["go.mod"] }
  function GoSum(root: Path): Path { root + ["go.sum"] }

  /** No component is named like one of the updater's temporary files. */
  ghost predicate Plain(p: Path) {
    forall k :: 0 <= k < |p| ==> !TempName(p[k])
  }

  function Remembered(s: Snapshot): Option<Node> {
    if s.existed then Some(File(s.data, s.mode)) else None
  }

  ghost predicate Remembers(s: Snapshot, t: Node) {
    Lookup(t, s.path) == Remembered(s)
  }

  function Report(commit: string, version: string, image: string): Bytes {
    "source_commit=" + commit + "\nsource_version=" + version + "\noperand_image=" + image + "\n"
  }

  /** The text cut at its line ends. */
  function Lines(s: string): (ls: seq<string>)
    ensures ls != []
  {
    if s == "" then [""]
    else if s[0] == '\n' then [""] + Lines(s[1..])
    else var rest := Lines(s[1..]); [[s[0]] + rest[0]] + rest[1..]
  }

  lemma {:induction false} LineThenRest(line: string, rest: string)
    requires '\n' !in line
    ensures Lines(line + "\n" + rest) == [line] + Lines(rest)
    decreases |line|
  {
    var all := line + "\n" + rest;
    if line == "" {
      assert all[1..] == rest;
    } else {
      assert all[1..] == line[1..] + "\n" + rest;
      LineThenRest(line[1..], rest);
      assert line == [line[0]] + line[1..];
    }
  }

  lemma ThreeLines(x: string, second: string, y: string, third: string, z: string)
    requires second == "\nsource_version=" && third == "\noperand_image="
    ensures "source_commit=" + x + second + y + third + z + "\n" ==
            "source_commit=" + x + "\n" + ("source_version=" + y + "\n" + ("operand_image=" + z + "\n" + ""))
  {
    assert second == "\n" + "source_version=" && third == "\n" + "operand_image=";
  }

  /** The workflow reads three settings, each value under its own key, unless a value brings a line end of its own. */
  lemma ReportReads(commit: string, version: string, image: string)
    requires '\n' !in commit && '\n' !in version && '\n' !in image
    ensures Lines(Report(commit, version, image)) ==
            ["source_commit=" + commit, "source_version=" + version, "operand_image=" + image, ""]
  {
    var a, b, c := "source_commit=" + commit, "source_version=" + version, "operand_image=" + image;
    assert '\n' !in "source_commit=" && '\n' !in "source_version=" && '\n' !in "operand_image=";
    ThreeLines(commit, "\nsource_version=", version, "\noperand_image=", image);
    LineThenRest(a, b + "\n" + (c + "\n" + ""));
    LineThenRest(b, c + "\n" + "");
    LineThenRest(c, "");
  }

  ghost predicate Elsewhere(t: Node, t': Node, root: Path) {
    forall q: Path :: Apart(q, GoMod(root)) && Apart(q, GoSum(root)) ==> Lookup(t', q) == Lookup(t, q)
  }

  /** A failure of a call that only undoing makes: a removal, or a step on a restore file or a backup. */
  predicate Undoing(f: Fault) {
    || f.op.RemoveAllOp? || f.op.RemoveOp?
    || (f.path != [] && (RESTORE_PREFIX <= f.path[|f.path| - 1] || f.path[|f.path| - 1] == "backup"))
  }

  /** All that failed from the `m`-th fault on are such calls. */
  ghost predicate UndoingFrom(faults: seq<Fault>, m: nat) {
    m <= |faults| && forall k :: m <= k < |faults| ==> Undoing(faults[k])
  }

  /** All that failed since `from` are such calls. */
  ghost predicate OnlyUndoing(from: seq<Fault>, to: seq<Fault>) {
    from <= to && forall k {:trigger to[k]} :: |from| <= k < |to| ==> Undoing(to[k])
  }

  /** A failure that keeps the file at `path` from being put back; failing to remove a temporary file does not. */
  predicate Stopping(f: Fault, path: Path)
    requires path != []
  {
    f == Fault(RemoveOp, path) || (!f.op.RemoveOp? && NamedIn(f.path, Parent(path), RESTORE_PREFIX))
  }

  ghost predicate Stopped(faults: seq<Fault>, lo: nat, hi: nat, path: Path)
    requires path != []
  {
    hi <= |faults| && exists k {:trigger faults[k]} :: lo <= k < hi && Stopping(faults[k], path)
  }

  lemma StoppedStays(faults: seq<Fault>, faults': seq<Fault>, lo: nat, hi: nat, lo': nat, hi': nat, path: Path)
    requires path != [] && Stopped(faults, lo, hi, path) && faults <= faults' && lo' <= lo && hi <= hi' <= |faults'|
    ensures Stopped(faults', lo', hi', path) && lo' < hi'
  {
    var k :| lo <= k < hi && Stopping(faults[k], path);
    assert faults'[k] == faults[k];
  }

  /** A file can be put there: in a directory, and not in the place of one. */
  predicate Restorable(t: Node, p: Path)
    requires p != []
  {
    IsDir(t, Parent(p)) && !IsDir(t, p)
  }

  /** The tree permits putting the snapshot back. */
  predicate Feasible(s: Snapshot, t: Node)
    requires s.path != []
  {
    if s.existed then Restorable(t, s.path) else !IsDir(t, s.path)
  }

  /** Directories that are not at or below either path are still directories. */
  ghost predicate DirsKept2(t: Node, t': Node, p: Path, q: Path) {
    forall d: Path :: IsDir(t, d) && !(p <= d) && !(q <= d) ==> IsDir(t', d)
  }

  /** No component is named like a temporary file of a restore. */
  ghost predicate Calm(p: Path) {
    forall k :: 0 <= k < |p| ==> !(RESTORE_PREFIX <= p[k])
  }

  lemma PlainIsCalm(p: Path)
    requires Plain(p)
    ensures Calm(p)
  {
    forall k | 0 <= k < |p| ensures !(RESTORE_PREFIX <= p[k]) { assert !TempName(p[k]); }
  }

  /** A temporary file beside `path` is apart from every path that is apart from `path` and names none. */
  lemma TempApart(path: Path, tmp: Path, q: Path)
    requires path != [] && NamedIn(tmp, Parent(path), RESTORE_PREFIX)
    requires Calm(q) && (q == path || Apart(q, path))
    ensures Apart(q, tmp)
  {}

  /** Writes, chmods and closes a temporary file; only a failing call on it stops that. */
  method FillTemp(fs: FileSystem, tmp: Path, data: Bytes, mode: Mode) returns (ok: bool)
    requires fs.Valid() && tmp != [] && IsFile(fs.root, tmp)
    modifies fs
    ensures fs.Valid() && IsFile(fs.root, tmp) && (ok ==> Lookup(fs.root, tmp) == Some(File(data, mode)))
    ensures OnlyAt(old(fs.root), fs.root, tmp) && DirsKept(old(fs.root), fs.root, tmp)
    ensures StatesOnlyAt(old(fs.root), old(fs.history), fs.history, tmp)
    ensures ok ==> fs.faults == old(fs.faults)
    ensures !ok ==>
              |fs.faults| == |old(fs.faults)| + 1 && old(fs.faults) <= fs.faults &&
              fs.faults[|old(fs.faults)|].path == tmp
    ensures !ok ==> !fs.faults[|old(fs.faults)|].op.RemoveOp?
  {
    ParentOf(fs.root, tmp);
    ok := fs.Write(tmp, data, 0x180);
    if ok { ok := fs.Chmod(tmp, mode); }
    if ok { ok := fs.Close(tmp); }
  }

  /** Fills the temporary file and renames it over the file. */
  method Overwrite(fs: FileSystem, path: Path, tmp: Path, data: Bytes, mode: Mode) returns (ok: bool)
    requires fs.Valid() && path != [] && Apart(path, tmp) && tmp != [] && Parent(tmp) == Parent(path) &&
               IsFile(fs.root, tmp)
    modifies fs
    ensures fs.Valid()
    ensures Lookup(fs.root, path) == if ok then Some(File(data, mode)) else Lookup(old(fs.root), path)
    ensures forall q: Path :: Apart(q, path) && Apart(q, tmp) ==> Lookup(fs.root, q) == Lookup(old(fs.root), q)
    ensures DirsKept2(old(fs.root), fs.root, path, tmp) && !IsDir(fs.root, tmp)
    ensures old(fs.history) <= fs.history
    ensures forall k {:trigger fs.history[k]} :: |old(fs.history)| <= k < |fs.history| ==>
              Lookup(fs.history[k], path) in {Lookup(old(fs.root), path), Some(File(data, mode))}
    ensures old(fs.faults) <= fs.faults && (!ok && !IsDir(old(fs.root), path) ==> |old(fs.faults)| < |fs.faults|)
    ensures forall k {:trigger fs.faults[k]} :: |old(fs.faults)| <= k < |fs.faults| ==>
              fs.faults[k].path == tmp && !fs.faults[k].op.RemoveOp?
  {
    ok := FillTemp(fs, tmp, data, mode);
    ParentOf(fs.root, tmp);
    if ok { ok := fs.Rename(tmp, path); }
  }

  /** Every temporary file that was not there before is gone, or its removal failed. */
  ghost predicate TempsGone(t: Node, t': Node, f: seq<Fault>, f': seq<Fault>, path: Path)
    requires path != []
  {
    forall q: Path :: NamedIn(q, Parent(path), RESTORE_PREFIX) && Lookup(t, q).None? ==>
      Lookup(t', q).None? || Hit(f, f', Fault(RemoveOp, q))
  }

  /** Fills the temporary file, renames it over the file, and removes it if it is still there. */
  method ViaTemp(fs: FileSystem, path: Path, tmp: Path, data: Bytes, mode: Mode) returns (ok: bool)
    requires fs.Valid() && path != [] && Apart(path, tmp) && NamedIn(tmp, Parent(path), RESTORE_PREFIX) &&
               IsFile(fs.root, tmp)
    modifies fs
    ensures fs.Valid()
    ensures Lookup(fs.root, path) == if ok then Some(File(data, mode)) else Lookup(old(fs.root), path)
    ensures forall q: Path :: Apart(q, path) && Apart(q, tmp) ==> Lookup(fs.root, q) == Lookup(old(fs.root), q)
    ensures DirsKept2(old(fs.root), fs.root, path, tmp)
    ensures old(fs.history) <= fs.history
    ensures forall k {:trigger fs.history[k]} :: |old(fs.history)| <= k < |fs.history| ==>
              Lookup(fs.history[k], path) in {Lookup(old(fs.root), path), Some(File(data, mode))}
    ensures OnlyUndoing(old(fs.faults), fs.faults)
    ensures !IsDir(old(fs.root), path) && !ok ==> Stopped(fs.faults, |old(fs.faults)|, |fs.faults|, path)
    ensures Lookup(fs.root, tmp).None? || Hit(old(fs.faults), fs.faults, Fault(RemoveOp, tmp))
  {
    assert Parent(tmp) == Parent(path);
    ghost var t, f0 := fs.root, fs.faults;
    ok := Overwrite(fs, path, tmp, data, mode);
    ghost var t', f := fs.root, fs.faults;
    var removal := fs.Remove(tmp);
    if removal.RemoveFailed? { assert fs.faults[|f|] == Fault(RemoveOp, tmp); }
    RestoreFrame(t, t', fs.root, path, tmp);
    RestoreFaults(f0, f, fs.faults, path, tmp);
  }

  /**
   Writes the new contents beside the file and renames it over the file: the file is the old
   one or the complete new one, at the end and in every state a crash could leave. Where a file
   can be put, only a failing call of its own stops it.
   */
  method RestoreFile(fs: FileSystem, path: Path, data: Bytes, mode: Mode) returns (ok: bool, ghost tmp: Path)
    requires fs.Valid() && path != [] && Plain(path)
    modifies fs
    ensures fs.Valid() && NamedIn(tmp, Parent(path), RESTORE_PREFIX)
    ensures Lookup(fs.root, path) == if ok then Some(File(data, mode)) else Lookup(old(fs.root), path)
    ensures forall q: Path :: Apart(q, path) && Apart(q, tmp) ==> Lookup(fs.root, q) == Lookup(old(fs.root), q)
    ensures DirsKept2(old(fs.root), fs.root, path, tmp)
    ensures old(fs.history) <= fs.history
    ensures forall k {:trigger fs.history[k]} :: |old(fs.history)| <= k < |fs.history| ==>
              Lookup(fs.history[k], path) in {Lookup(old(fs.root), path), Some(File(data, mode))}
    ensures OnlyUndoing(old(fs.faults), fs.faults)
    ensures Restorable(old(fs.root), path) && !ok ==> Stopped(fs.faults, |old(fs.faults)|, |fs.faults|, path)
    ensures TempsGone(old(fs.root), fs.root, old(fs.faults), fs.faults, path)
  {
    ok := false;
    tmp := Parent(path) + [RESTORE_PREFIX];
    ghost var f0 := fs.faults;
    var made := fs.Create(Parent(path), RESTORE_PREFIX, File("", 0x180));
    if made.None? {
      if IsDir(fs.root, Parent(path)) { assert Stopping(fs.faults[|f0|], path); }
      return;
    }
    tmp := made.value;
    PlainIsCalm(path);
    TempApart(path, tmp, path);
    ghost var t := fs.root;
    ok := ViaTemp(fs, path, made.value, data, mode);
    TempUsed(old(fs.root), t, fs.root, f0, fs.faults, path, tmp);
  }

  /** Making, using and removing a temporary file touches the file and leaves no new one behind unnoticed. */
  lemma TempUsed(t0: Node, t: Node, t': Node, f: seq<Fault>, f': seq<Fault>, path: Path, tmp: Path)
    requires path != [] && Plain(path) && NamedIn(tmp, Parent(path), RESTORE_PREFIX)
    requires OnlyAbove(t0, t, tmp) && forall q: Path :: IsDir(t0, q) ==> IsDir(t, q)
    requires (forall q: Path :: Apart(q, path) && Apart(q, tmp) ==> Lookup(t', q) == Lookup(t, q))
    requires DirsKept2(t, t', path, tmp)
    requires Lookup(t', tmp).None? || Hit(f, f', Fault(RemoveOp, tmp))
    ensures forall q: Path :: Apart(q, path) && Apart(q, tmp) ==> Lookup(t', q) == Lookup(t0, q)
    ensures DirsKept2(t0, t', path, tmp) && TempsGone(t0, t', f, f', path)
  {
    OtherTempsStay(t, t', path, tmp);
    forall q: Path | NamedIn(q, Parent(path), RESTORE_PREFIX) && Lookup(t0, q).None?
      ensures Lookup(t', q).None? || Hit(f, f', Fault(RemoveOp, q))
    {
      if q != tmp { assert Apart(q, tmp) && Lookup(t, q) == Lookup(t0, q); }
    }
  }

  /** Another temporary file beside the same file is not this one's business. */
  lemma OtherTempsStay(t: Node, t': Node, path: Path, tmp: Path)
    requires path != [] && Plain(path) && NamedIn(tmp, Parent(path), RESTORE_PREFIX)
    requires forall q: Path :: Apart(q, path) && Apart(q, tmp) ==> Lookup(t', q) == Lookup(t, q)
    ensures forall q: Path :: NamedIn(q, Parent(path), RESTORE_PREFIX) && q != tmp ==> Lookup(t', q) == Lookup(t, q)
  {
    forall q: Path | NamedIn(q, Parent(path), RESTORE_PREFIX) && q != tmp ensures Lookup(t', q) == Lookup(t, q) {
      assert TempName(q[|path| - 1]) && !TempName(path[|path| - 1]);
    }
  }

  /** Using and removing the temporary file touches the file and nothing else. */
  lemma RestoreFrame(t: Node, t': Node, t'': Node, path: Path, tmp: Path)
    requires (forall q: Path :: Apart(q, path) && Apart(q, tmp) ==> Lookup(t', q) == Lookup(t, q)) &&
               DirsKept2(t, t', path, tmp)
    requires OnlyAt(t', t'', tmp) && DirsKept(t', t'', tmp)
    ensures forall q: Path :: Apart(q, path) && Apart(q, tmp) ==> Lookup(t'', q) == Lookup(t, q)
    ensures DirsKept2(t, t'', path, tmp)
  {}

  lemma RestoreFaults(f0: seq<Fault>, f: seq<Fault>, f': seq<Fault>, path: Path, tmp: Path)
    requires path != [] && NamedIn(tmp, Parent(path), RESTORE_PREFIX) && f0 <= f
    requires forall k {:trigger f[k]} :: |f0| <= k < |f| ==> f[k].path == tmp && !f[k].op.RemoveOp?
    requires f' == f || f' == f + [Fault(RemoveOp, tmp)]
    ensures OnlyUndoing(f0, f') && (|f0| < |f| ==> Stopped(f', |f0|, |f'|, path))
  {
    forall k | |f0| <= k < |f'| ensures Undoing(f'[k]) { if k < |f| { assert f'[k] == f[k]; } }
    if |f0| < |f| { assert f'[|f0|] == f[|f0|] && Stopping(f'[|f0|], path); }
  }

  /** Puts the remembered file back, or removes the file that was not there. */
  method Restore(fs: FileSystem, s: Snapshot) returns (ok: bool, ghost tmp: Path)
    requires fs.Valid() && Plain(s.path)
    modifies fs
    ensures fs.Valid()
    ensures s.path == [] ==> ok && fs.root == old(fs.root) && fs.faults == old(fs.faults)
    ensures s.path != [] ==>
              NamedIn(tmp, Parent(s.path), RESTORE_PREFIX) && DirsKept2(old(fs.root), fs.root, s.path, tmp)
    ensures s.path != [] ==> Lookup(fs.root, s.path) == if ok then Remembered(s) else Lookup(old(fs.root), s.path)
    ensures forall q: Path :: Apart(q, s.path) && Apart(q, tmp) ==> Lookup(fs.root, q) == Lookup(old(fs.root), q)
    ensures OnlyUndoing(old(fs.faults), fs.faults)
    ensures s.path != [] && Feasible(s, old(fs.root)) && !ok ==>
              Stopped(fs.faults, |old(fs.faults)|, |fs.faults|, s.path)
    ensures s.path != [] ==> TempsGone(old(fs.root), fs.root, old(fs.faults), fs.faults, s.path)
  {
    if s.path == [] {
      ok, tmp := true, [];
    } else if s.existed {
      ok, tmp := RestoreFile(fs, s.path, s.data, s.mode);
    } else {
      tmp := Parent(s.path) + [RESTORE_PREFIX];
      ghost var t := fs.root;
      var removal := fs.Remove(s.path);
      OtherTempsStay(t, fs.root, s.path, tmp);
      ok := !removal.RemoveFailed?;
      if |old(fs.faults)| < |fs.faults| { assert Stopping(fs.faults[|old(fs.faults)|], s.path); }
    }
  }

  /**
   Where the faults of each restore begin: those of restore `i` are the ones recorded between
   `marks[i]` and `marks[i + 1]`.
   */
  ghost predicate Marks(marks: seq<nat>, from: nat, to: nat, n: nat) {
    && |marks| == n + 1 && from <= marks[0] && marks[n] <= to
    && (forall i :: 0 <= i < n ==> marks[i] <= marks[i + 1])
  }

  /** The first `n` files have been tried: each is back or listed, the listed and the others are as they were. */
  ghost predicate Tried(t0: Node, t: Node, files: seq<Snapshot>, n: int, notRestored: seq<Path>)
    requires forall i :: 0 <= i < |files| ==> files[i].path != []
  {
    && 0 <= n <= |files|
    && (forall i :: 0 <= i < n ==> files[i].path in notRestored || Remembers(files[i], t))
    && (forall i :: 0 <= i < |files| && (i >= n || files[i].path in notRestored) ==>
         Lookup(t, files[i].path) == Lookup(t0, files[i].path))
    && (forall i :: n <= i < |files| ==> files[i].path !in notRestored && Feasible(files[i], t))
    && (forall p :: p in notRestored ==> exists i :: 0 <= i < n && files[i].path == p)
  }

  /** Restoring one file leaves the others as they are, and as restorable. */
  lemma OthersStay(t: Node, t': Node, files: seq<Snapshot>, n: int, tmp: Path)
    requires forall i :: 0 <= i < |files| ==> files[i].path != [] && Plain(files[i].path)
    requires forall i, j :: 0 <= i < j < |files| ==> Apart(files[i].path, files[j].path)
    requires 0 <= n < |files| && NamedIn(tmp, Parent(files[n].path), RESTORE_PREFIX) &&
               DirsKept2(t, t', files[n].path, tmp)
    requires forall q: Path :: Apart(q, files[n].path) && Apart(q, tmp) ==> Lookup(t', q) == Lookup(t, q)
    ensures forall i :: 0 <= i < |files| && i != n ==> Lookup(t', files[i].path) == Lookup(t, files[i].path)
    ensures forall i :: 0 <= i < |files| && i != n && Feasible(files[i], t) ==> Feasible(files[i], t')
  {
    forall i | 0 <= i < |files| && i != n
      ensures Lookup(t', files[i].path) == Lookup(t, files[i].path)
      ensures IsDir(t, Parent(files[i].path)) ==> IsDir(t', Parent(files[i].path))
    {
      assert Apart(files[i].path, files[n].path);
      PlainIsCalm(files[i].path);
      TempApart(files[n].path, tmp, files[i].path);
      UpStays(files[n].path, tmp, files[i].path);
    }
  }

  lemma TriedNext(t0: Node, t: Node, t': Node, files: seq<Snapshot>, n: int, notRestored: seq<Path>, ok: bool)
    requires forall i :: 0 <= i < |files| ==> files[i].path != []
    requires forall i, j :: 0 <= i < j < |files| ==> Apart(files[i].path, files[j].path)
    requires 0 <= n < |files| && Tried(t0, t, files, n, notRestored)
    requires Lookup(t', files[n].path) == if ok then Remembered(files[n]) else Lookup(t, files[n].path)
    requires forall i :: 0 <= i < |files| && i != n ==> Lookup(t', files[i].path) == Lookup(t, files[i].path)
    requires forall i :: 0 <= i < |files| && i != n && Feasible(files[i], t) ==> Feasible(files[i], t')
    ensures Tried(t0, t', files, n + 1, if ok then notRestored else notRestored + [files[n].path])
  {
    ListedNext(files, n, notRestored, ok);
  }

  lemma ListedNext(files: seq<Snapshot>, n: int, notRestored: seq<Path>, ok: bool)
    requires forall i :: 0 <= i < |files| ==> files[i].path != []
    requires forall i, j :: 0 <= i < j < |files| ==> Apart(files[i].path, files[j].path)
    requires 0 <= n < |files| && (forall i :: n <= i < |files| ==> files[i].path !in notRestored)
    requires forall p :: p in notRestored ==> exists i :: 0 <= i < n && files[i].path == p
    ensures var after := if ok then notRestored else notRestored + [files[n].path];
            && (forall i :: n + 1 <= i < |files| ==> files[i].path !in after)
            && (forall i :: 0 <= i < n ==> (files[i].path in after <==> files[i].path in notRestored))
            && (forall p :: p in after ==> exists i :: 0 <= i < n + 1 && files[i].path == p)
  {
    var after := if ok then notRestored else notRestored + [files[n].path];
    forall p | p in after ensures exists i :: 0 <= i < n + 1 && files[i].path == p {
      if p in notRestored { var i :| 0 <= i < n && files[i].path == p; } else { assert files[n].path == p; }
    }
    forall i | 0 <= i < |files| && i != n ensures files[i].path != files[n].path {
      assert Apart(files[i].path, files[n].path);
    }
  }

  /** What restoring the files must leave alone: everything apart from them that is no temporary file of a restore. */
  ghost predicate OthersKept(t: Node, t': Node, files: seq<Snapshot>) {
    forall q: Path :: Calm(q) && (forall i :: 0 <= i < |files| ==> Apart(q, files[i].path)) ==>
        Lookup(t', q) == Lookup(t, q)
  }

  lemma OthersKeptNext(t0: Node, t: Node, t': Node, files: seq<Snapshot>, n: int, tmp: Path)
    requires 0 <= n < |files| && files[n].path != [] && OthersKept(t0, t, files)
    requires NamedIn(tmp, Parent(files[n].path), RESTORE_PREFIX)
    requires forall q: Path :: Apart(q, files[n].path) && Apart(q, tmp) ==> Lookup(t', q) == Lookup(t, q)
    ensures OthersKept(t0, t', files)
  {
    forall q: Path | Calm(q) && (forall i :: 0 <= i < |files| ==> Apart(q, files[i].path))
      ensures Lookup(t', q) == Lookup(t0, q)
    {
      TempApart(files[n].path, tmp, q);
    }
  }

  /** Each of the first `n` files that is listed was stopped by a failing call of its own restore. */
  ghost predicate Explained(faults: seq<Fault>, files: seq<Snapshot>, n: int, notRestored: seq<Path>, marks: seq<nat>)
    requires forall i :: 0 <= i < |files| ==> files[i].path != []
  {
    && 0 <= n <= |files| && |marks| == n + 1
    && forall i :: 0 <= i < n && files[i].path in notRestored ==> Stopped(faults, marks[i], marks[i + 1], files[i].path)
  }

  lemma ExplainedNext(f: seq<Fault>, f': seq<Fault>, files: seq<Snapshot>, n: int, notRestored: seq<Path>,
                      marks: seq<nat>, ok: bool)
    requires forall i :: 0 <= i < |files| ==> files[i].path != []
    requires forall i, j :: 0 <= i < j < |files| ==> Apart(files[i].path, files[j].path)
    requires 0 <= n < |files| && Explained(f, files, n, notRestored, marks) && f <= f' && marks[n] == |f| &&
               files[n].path !in notRestored
    requires !ok ==> Stopped(f', |f|, |f'|, files[n].path)
    ensures Explained(f', files, n + 1, if ok then notRestored else notRestored + [files[n].path], marks + [|f'|])
  {
    forall i | 0 <= i < n && files[i].path in notRestored ensures Stopped(f', marks[i], marks[i + 1], files[i].path) {
      StoppedStays(f, f', marks[i], marks[i + 1], marks[i], marks[i + 1], files[i].path);
    }
    forall i | 0 <= i < n ensures files[i].path != files[n].path { assert Apart(files[i].path, files[n].path); }
  }

  /**
   Every file is tried, whatever happened to the others: one that is not put back has a failing
   call of its own, and one without such a call is back as remembered.
   */
  method RestoreModules(fs: FileSystem, files: seq<Snapshot>) returns (notRestored: seq<Path>, ghost marks: seq<nat>)
    requires fs.Valid()
    requires forall i :: 0 <= i < |files| ==> files[i].path != [] && Plain(files[i].path) && Feasible(files[i], fs.root)
    requires forall i, j :: 0 <= i < j < |files| ==> Apart(files[i].path, files[j].path)
    modifies fs
    ensures fs.Valid()
    ensures Tried(old(fs.root), fs.root, files, |files|, notRestored)
    ensures OthersKept(old(fs.root), fs.root, files)
    ensures OnlyUndoing(old(fs.faults), fs.faults) && Marks(marks, |old(fs.faults)|, |fs.faults|, |files|)
    ensures Explained(fs.faults, files, |files|, notRestored, marks)
  {
    notRestored, marks := [], [|fs.faults|];
    for n := 0 to |files|
      invariant fs.Valid() && Tried(old(fs.root), fs.root, files, n, notRestored)
      invariant OthersKept(old(fs.root), fs.root, files)
      invariant OnlyUndoing(old(fs.faults), fs.faults) && Marks(marks, |old(fs.faults)|, |fs.faults|, n) &&
                  marks[n] == |fs.faults|
      invariant Explained(fs.faults, files, n, notRestored, marks)
    {
      ghost var t, f := fs.root, fs.faults;
      var ok, tmp := Restore(fs, files[n]);
      OthersKeptNext(old(fs.root), t, fs.root, files, n, tmp);
      OthersStay(t, fs.root, files, n, tmp);
      TriedNext(old(fs.root), t, fs.root, files, n, notRestored, ok);
      UndoingChains(old(fs.faults), f, fs.faults);
      ExplainedNext(f, fs.faults, files, n, notRestored, marks, ok);
      marks := marks + [|fs.faults|];
      if !ok { notRestored := notRestored + [files[n].path]; }
    }
  }

  lemma UndoingChains(a: seq<Fault>, b: seq<Fault>, c: seq<Fault>)
    requires OnlyUndoing(a, b) && OnlyUndoing(b, c)
    ensures OnlyUndoing(a, c)
  {
    forall k | |a| <= k < |c| ensures Undoing(c[k]) { if k < |b| { assert c[k] == b[k]; } }
  }

  /** The directory of one file is neither another of them nor a temporary file. */
  lemma UpStays(path: Path, tmp: Path, other: Path)
    requires path != [] && other != [] && Plain(other) && NamedIn(tmp, Parent(path), RESTORE_PREFIX)
    requires other == path || Apart(other, path)
    ensures !(path <= Parent(other)) && !(tmp <= Parent(other))
  {
    assert tmp <= Parent(other) ==> TempName(tmp[|tmp| - 1]);
  }

  /** Reads a file that may be absent; any other failure to read is an error. */
  method TakeSnapshot(fs: FileSystem, path: Path) returns (s: Option<Snapshot>)
    modifies fs`faults
    ensures s.Some? ==> s.value.path == path && Remembers(s.value, fs.root)
    ensures old(fs.faults) <= fs.faults &&
              (s.None? ==> IsDir(fs.root, path) || Hit(old(fs.faults), fs.faults, Fault(ReadOp, path)))
    ensures s.None? && !IsDir(fs.root, path) ==> |old(fs.faults)| < |fs.faults|
  {
    var r := fs.ReadFile(path);
    match r {
      case Contents(data, mode) => s := Some(Snapshot(path, data, mode, true));
      case NoFile => s := Some(Snapshot(path, "", 0, false));
      case ReadFailed =>
        if !IsDir(fs.root, path) { assert fs.faults[|old(fs.faults)|] == Fault(ReadOp, path); }
        s := None;
    }
  }

  /** A missing go.sum is remembered as missing; a missing go.mod is an error. */
  method SnapshotModuleFiles(fs: FileSystem, root: Path) returns (files: Option<seq<Snapshot>>)
    modifies fs`faults
    ensures files.Some? ==>
              |files.value| == 2 && files.value[0].path == GoMod(root) && files.value[1].path == GoSum(root)
    ensures files.Some? ==>
              files.value[0].existed && Remembers(files.value[0], fs.root) && Remembers(files.value[1], fs.root)
    ensures old(fs.faults) <= fs.faults
    ensures files.None? ==>
              || !IsFile(fs.root, GoMod(root)) || IsDir(fs.root, GoSum(root))
              || Hit(old(fs.faults), fs.faults, Fault(ReadOp, GoMod(root))) ||
                  Hit(old(fs.faults), fs.faults, Fault(ReadOp, GoSum(root)))
  {
    ghost var f0 := fs.faults;
    var mod := TakeSnapshot(fs, GoMod(root));
    if mod.None? || !mod.value.existed { return None; }
    ghost var f1 := fs.faults;
    var sum := TakeSnapshot(fs, GoSum(root));
    if sum.None? {
      if !IsDir(fs.root, GoSum(root)) { HitWidens(f0, f1, fs.faults, fs.faults, Fault(ReadOp, GoSum(root))); }
      return None;
    }
    files := Some([mod.value, sum.value]);
  }

  /** One run of the go tool: whether it succeeded, and the go.mod it left. */
  datatype Run = Run(ok: bool, goMod: Option<Node>)

  class GoTool {
    ghost var runs: seq<Run>

    constructor ()
      ensures runs == []
    {
      runs := [];
    }

    /** `go mod edit` or `go mod tidy`: rewrites go.mod, may rewrite, add or remove go.sum, and may fail. */
    method Command(fs: FileSystem, root: Path) returns (ok: bool)
      requires fs.Valid() && IsFile(fs.root, GoMod(root)) && !IsDir(fs.root, GoSum(root)) &&
                 Apart(GoMod(root), GoSum(root))
      modifies this, fs`root, fs`history
      ensures fs.Valid() && Elsewhere(old(fs.root), fs.root, root)
      ensures IsFile(fs.root, GoMod(root)) && !IsDir(fs.root, GoSum(root))
      ensures runs == old(runs) + [Run(ok, Lookup(fs.root, GoMod(root)))]
    {
      var data: Bytes, mode: Mode, sum: Option<Bytes> := *, *, *;
      ParentOf(fs.root, GoMod(root));
      assert Parent(GoMod(root)) == root == Parent(GoSum(root));
      fs.Replace(GoMod(root), Some(File(data, mode)));
      fs.Replace(GoSum(root), if sum.Some? then Some(File(sum.value, mode)) else None);
      ok := *;
      runs := runs + [Run(ok, Lookup(fs.root, GoMod(root)))];
    }
  }

  ghost predicate HoldsPin(goMod: Option<Node>, version: string, pinOf: Bytes -> Option<string>) {
    goMod.Some? && goMod.value.File? && pinOf(goMod.value.data) == Some(version)
  }

  /** The go tool failed, or left another pin after tidying. */
  ghost predicate GoTrouble(from: seq<Run>, to: seq<Run>, version: string, pinOf: Bytes -> Option<string>) {
    && from <= to
    && ((exists k {:trigger to[k]} :: |from| <= k < |to| && !to[k].ok)
        || (|to| == |from| + 2 && !HoldsPin(to[|to| - 1].goMod, version, pinOf)))
  }

  /** The six things an update changes; the workflow output only when it is set. */
  ghost predicate SixRestored(t: Node, t': Node, root: Path, output: Path) {
    && Lookup(t', root + ["go.mod"]) == Lookup(t, root + ["go.mod"])
    && Lookup(t', root + ["go.sum"]) == Lookup(t, root + ["go.sum"])
    && (output != [] ==> Lookup(t', output) == Lookup(t, output))
    && Lookup(t', root + ["config", "manifests", "mcp-lifecycle-operator"]) ==
         Lookup(t, root + ["config", "manifests", "mcp-lifecycle-operator"])
    && Lookup(t', root + ["internal", "controller", "resources", "mcp-lifecycle-operator.yaml"]) ==
         Lookup(t, root + ["internal", "controller", "resources", "mcp-lifecycle-operator.yaml"])
    && Lookup(t', root + ["operand-image.json"]) == Lookup(t, root + ["operand-image.json"])
  }

  predicate Clean(r: UpdateResult) {
    && r.Failed? && r.notRestored == [] && r.outputRestored
    && (r.install.None? || r.install.value.StagingFailed? ||
         (r.install.value.RolledBack? && r.install.value.recovery == []))
  }

  /** The workflow output, when set, is none of the updater's own files and no staged output. */
  ghost predicate GoodOutput(root: Path, output: Path, staged: seq<Path>) {
    && Plain(root) && Plain(output)
    && (output != [] ==>
          && (forall q :: q in [GoMod(root), GoSum(root), root + CONFIG, root + INSTALLER, root + IMAGE_PIN] ==>
               Apart(output, q))
          && forall q :: q in staged ==> Apart(output, q))
  }

  function Targets(root: Path): seq<Path> {
    [root + CONFIG, root + INSTALLER, root + IMAGE_PIN]
  }

  /** The updater's own files are plain and pairwise apart. */
  lemma FixedPaths(root: Path)
    requires Plain(root)
    ensures Plain(GoMod(root)) && Plain(GoSum(root)) && Apart(GoMod(root), GoSum(root))
    ensures forall q :: q in Targets(root) ==> Plain(q) && Apart(GoMod(root), q) && Apart(GoSum(root), q)
  {
    forall tail: Path | tail in [["go.mod"], ["go.sum"], CONFIG, INSTALLER, IMAGE_PIN] ensures Plain(root + tail) {
      forall k | 0 <= k < |root + tail| ensures !TempName((root + tail)[k]) {
        if k >= |root| { assert tail[k - |root|][0] != '.'; }
      }
    }
    assert GoMod(root)[|root|] == "go.mod" && GoSum(root)[|root|] == "go.sum";
    assert (root + CONFIG)[|root|] == "config" && (root + INSTALLER)[|root|] == "internal" &&
        (root + IMAGE_PIN)[|root|] == "operand-image.json";
  }

  /** Plain paths apart from the targets are none of the install's business. */
  lemma PlainIsForeign(root: Path, items: seq<Item>, q: Path)
    requires Plain(q) && forall i :: 0 <= i < |items| ==> Apart(q, items[i].target)
    ensures Foreign(root, items, q)
  {}

  /** An install leaves the module files and the workflow output alone, and everything else that is not a target. */
  lemma InstallSpares(t: Node, t': Node, root: Path, items: seq<Item>, output: Path)
    requires GoodOutput(root, output, []) && (forall i :: 0 <= i < |items| ==> items[i].target in Targets(root))
    requires ForeignKept(t, t', root, items)
    ensures SameModules(t, t', root) && (output != [] ==> Lookup(t', output) == Lookup(t, output)) &&
              BystandersKept(t, t', root, output)
  {
    FixedPaths(root);
    PlainIsForeign(root, items, GoMod(root));
    PlainIsForeign(root, items, GoSum(root));
    if output != [] {
      OutputBesides(root, output);
      PlainIsForeign(root, items, output);
    }
    forall q: Path | Plain(q) && (forall p :: p in Targets(root) ==> Apart(q, p)) ensures Lookup(t', q) == Lookup(t, q)
    {
      PlainIsForeign(root, items, q);
    }
  }

  /**
   The targets after an install that did not happen: as at the start, or as its rollback left
   them, each original back in place or whole at the backup that the report names.
   */
  ghost predicate TargetsUnwound(t0: Node, t: Node, root: Path, install: Option<InstallResult>, es: seq<InstallEntry>) {
    if install.Some? && install.value.RolledBack? then
      && |es| == 3
      && forall k :: 0 <= k < 3 ==>
           && Shaped(es[k]) && es[k].target == Targets(root)[k]
           && NamedIn(es[k].workspace, Parent(es[k].target), WORKSPACE_PREFIX)
           && Undone(t, es[k], Lookup(t0, Targets(root)[k]), install.value.recovery)
    else
      forall q :: q in Targets(root) ==> Lookup(t, q) == Lookup(t0, q)
  }

  /** What holds of the targets and the output when the rollback of the module files starts. */
  ghost predicate Unwound(t0: Node, t: Node, root: Path, output: Path, outputRestored: bool,
                          install: Option<InstallResult>, es: seq<InstallEntry>)
  {
    && (outputRestored && output != [] ==> Lookup(t, output) == Lookup(t0, output))
    && TargetsUnwound(t0, t, root, install, es)
  }

  /** Nothing the updater does not own is different. */
  ghost predicate BystandersKept(t: Node, t': Node, root: Path, output: Path) {
    forall q: Path :: Plain(q) && Apart(q, GoMod(root)) && Apart(q, GoSum(root)) && (output != [] ==> Apart(q, output))
                      && (forall p :: p in Targets(root) ==> Apart(q, p)) ==>
      Lookup(t', q) == Lookup(t, q)
  }

  lemma WorkspaceIsCalm(root: Path, target: Path, ws: Path)
    requires Plain(target) && target != [] && NamedIn(ws, Parent(target), WORKSPACE_PREFIX)
    ensures Calm(ws + ["backup"])
  {
    PlainIsCalm(target);
    var b := ws + ["backup"];
    forall k | 0 <= k < |b| ensures !(RESTORE_PREFIX <= b[k]) {
      if k < |target| - 1 {
        assert b[k] == target[k];
      } else if k == |target| - 1 {
        assert b[k][9] == WORKSPACE_PREFIX[9] != RESTORE_PREFIX[9];
      } else {
        assert b[k] == "backup" && "backup"[0] != RESTORE_PREFIX[0];
      }
    }
  }

  /** Restoring a file of the updater's moves no target and no backup. */
  lemma TargetsStay(t0: Node, t: Node, t': Node, root: Path, files: seq<Snapshot>, install: Option<InstallResult>,
                    es: seq<InstallEntry>)
    requires Plain(root) && OthersKept(t, t', files) && TargetsUnwound(t0, t, root, install, es)
    requires forall i :: 0 <= i < |files| ==> Plain(files[i].path) && forall q :: q in Targets(root) ==>
               Apart(q, files[i].path)
    ensures TargetsUnwound(t0, t', root, install, es)
  {
    FixedPaths(root);
    forall q | q in Targets(root) ensures Lookup(t', q) == Lookup(t, q) { PlainIsCalm(q); }
    if install.Some? && install.value.RolledBack? {
      forall k | 0 <= k < 3 ensures Undone(t', es[k], Lookup(t0, Targets(root)[k]), install.value.recovery) {
        BackupStays(t, t', root, files, es[k]);
        assert Targets(root)[k] in Targets(root);
      }
    }
  }

  lemma BackupStays(t: Node, t': Node, root: Path, files: seq<Snapshot>, e: InstallEntry)
    requires Plain(root) && OthersKept(t, t', files) && Shaped(e) && e.target in Targets(root)
    requires NamedIn(e.workspace, Parent(e.target), WORKSPACE_PREFIX)
    requires forall i :: 0 <= i < |files| ==> Plain(files[i].path) && Apart(e.target, files[i].path)
    ensures Lookup(t', e.backup) == Lookup(t, e.backup)
  {
    FixedPaths(root);
    WorkspaceIsCalm(root, e.target, e.workspace);
    forall i | 0 <= i < |files| ensures Apart(e.backup, files[i].path) {
      WorkspaceApart(root, e.target, e.workspace, files[i].path);
      ApartBelow(files[i].path, e.workspace, e.backup);
    }
  }

  /**
   What could not be put back had a failing call of its own: `marks` delimit the restores of the
   output, of go.mod and of go.sum among the faults, and each of those is a failure of undoing.
   */
  ghost predicate Accounted(from: nat, faults: seq<Fault>, marks: seq<nat>, r: UpdateResult, root: Path, output: Path)
    requires r.Failed?
  {
    && |marks| == 4 && from <= marks[0] <= marks[1] <= marks[2] <= marks[3] <= |faults| && UndoingFrom(faults, marks[0])
    && (!r.outputRestored ==> output != [] && Stopped(faults, marks[0], marks[1], output))
    && (GoMod(root) in r.notRestored ==> Stopped(faults, marks[1], marks[2], GoMod(root)))
    && (GoSum(root) in r.notRestored ==> Stopped(faults, marks[2], marks[3], GoSum(root)))
    && (forall p :: p in r.notRestored ==> p in [GoMod(root), GoSum(root)])
  }

  /** Each module file is back or listed. */
  ghost predicate ModulesBack(t0: Node, t: Node, root: Path, notRestored: seq<Path>) {
    && (GoMod(root) !in notRestored ==> Lookup(t, GoMod(root)) == Lookup(t0, GoMod(root)))
    && (GoSum(root) !in notRestored ==> Lookup(t, GoSum(root)) == Lookup(t0, GoSum(root)))
  }

  /**
   Restores the module files after a failure and reports all that could not be put back; the
   undoing began at the fault `mark`, with the restore of the output.
   */
  method Rollback(fs: FileSystem, root: Path, files: seq<Snapshot>, ghost output: Path, outputRestored: bool,
                  install: Option<InstallResult>, ghost t0: Node, ghost f0: seq<Fault>, ghost mark: nat,
                  ghost es: seq<InstallEntry>)
    returns (r: UpdateResult, ghost marks: seq<nat>)
    requires fs.Valid() && GoodOutput(root, output, [])
    requires |files| == 2 && files[0].path == GoMod(root) && files[1].path == GoSum(root)
    requires Remembers(files[0], t0) && Remembers(files[1], t0)
    requires IsFile(fs.root, GoMod(root)) && !IsDir(fs.root, GoSum(root))
    requires Unwound(t0, fs.root, root, output, outputRestored, install, es)
    requires f0 <= fs.faults && |f0| <= mark && UndoingFrom(fs.faults, mark)
    requires !outputRestored ==> output != [] && Stopped(fs.faults, mark, |fs.faults|, output)
    modifies fs
    ensures fs.Valid() && r.Failed? && r.install == install && r.outputRestored == outputRestored &&
              old(fs.faults) <= fs.faults
    ensures ModulesBack(t0, fs.root, root, r.notRestored) &&
              Unwound(t0, fs.root, root, output, outputRestored, install, es)
    ensures BystandersKept(old(fs.root), fs.root, root, output)
    ensures Accounted(|f0|, fs.faults, marks, r, root, output)
  {
    ghost var t, f := fs.root, fs.faults;
    ModulesFeasible(t, root, files, output);
    var notRestored;
    ghost var tries;
    notRestored, tries := RestoreModules(fs, files);
    r, marks := Failed(notRestored, outputRestored, install), [mark] + tries;
    ModulesTried(t0, t, fs.root, root, files, notRestored);
    UnwoundStays(t0, t, fs.root, root, files, output, outputRestored, install, es);
    UndoingJoins(f, fs.faults, mark);
    AccountedNow(|f0|, f, fs.faults, mark, tries, r, root, files, output);
  }

  lemma AccountedNow(from: nat, f: seq<Fault>, faults: seq<Fault>, mark: nat, tries: seq<nat>, r: UpdateResult,
                     root: Path, files: seq<Snapshot>, output: Path)
    requires |files| == 2 && files[0].path == GoMod(root) && files[1].path == GoSum(root) && r.Failed?
    requires f <= faults && from <= mark <= |f| && UndoingFrom(faults, mark)
    requires !r.outputRestored ==> output != [] && Stopped(f, mark, |f|, output)
    requires Marks(tries, |f|, |faults|, 2)
    requires forall i :: 0 <= i < 2 && files[i].path in r.notRestored ==>
               Stopped(faults, tries[i], tries[i + 1], files[i].path)
    requires forall p :: p in r.notRestored ==> p in [GoMod(root), GoSum(root)]
    ensures Accounted(from, faults, [mark] + tries, r, root, output)
  {
    assert tries[0] <= tries[0 + 1] && tries[1] <= tries[1 + 1];
    if !r.outputRestored { StoppedStays(f, faults, mark, |f|, mark, tries[0], output); }
    assert files[0].path in r.notRestored ==> Stopped(faults, tries[0], tries[0 + 1], files[0].path);
    assert files[1].path in r.notRestored ==> Stopped(faults, tries[1], tries[1 + 1], files[1].path);
  }

  lemma ModulesFeasible(t: Node, root: Path, files: seq<Snapshot>, output: Path)
    requires GoodOutput(root, output, []) && |files| == 2 && files[0].path == GoMod(root) &&
               files[1].path == GoSum(root)
    requires IsFile(t, GoMod(root)) && !IsDir(t, GoSum(root))
    ensures forall i :: 0 <= i < |files| ==> files[i].path != [] && Plain(files[i].path) && Feasible(files[i], t)
    ensures Apart(files[0].path, files[1].path)
  {
    RollbackPaths(root, files, output);
    ParentOf(t, GoMod(root));
    assert Parent(GoMod(root)) == root == Parent(GoSum(root));
  }

  /** Restoring the module files unwinds nothing else. */
  lemma UnwoundStays(t0: Node, t: Node, t': Node, root: Path, files: seq<Snapshot>, output: Path,
                     outputRestored: bool, install: Option<InstallResult>, es: seq<InstallEntry>)
    requires GoodOutput(root, output, []) && |files| == 2 && files[0].path == GoMod(root) &&
               files[1].path == GoSum(root)
    requires OthersKept(t, t', files) && Unwound(t0, t, root, output, outputRestored, install, es)
    ensures Unwound(t0, t', root, output, outputRestored, install, es) && BystandersKept(t, t', root, output)
  {
    RollbackPaths(root, files, output);
    TargetsStay(t0, t, t', root, files, install, es);
    PlainIsCalm(output);
    OnlyModulesDiffer(t, t', root, files);
  }

  lemma OnlyModulesDiffer(t: Node, t': Node, root: Path, files: seq<Snapshot>)
    requires |files| == 2 && files[0].path == GoMod(root) && files[1].path == GoSum(root) && OthersKept(t, t', files)
    ensures forall q: Path :: Plain(q) && Apart(q, GoMod(root)) && Apart(q, GoSum(root)) ==>
              Lookup(t', q) == Lookup(t, q)
  {
    forall q: Path | Plain(q) && Apart(q, GoMod(root)) && Apart(q, GoSum(root)) ensures Lookup(t', q) == Lookup(t, q) {
      PlainIsCalm(q);
      assert forall i :: 0 <= i < |files| ==> Apart(q, files[i].path);
    }
  }

  lemma ModulesTried(t0: Node, t: Node, t': Node, root: Path, files: seq<Snapshot>, notRestored: seq<Path>)
    requires |files| == 2 && files[0].path == GoMod(root) && files[1].path == GoSum(root)
    requires Remembers(files[0], t0) && Remembers(files[1], t0) && Tried(t, t', files, 2, notRestored)
    ensures ModulesBack(t0, t', root, notRestored) && forall p :: p in notRestored ==> p in [GoMod(root), GoSum(root)]
  {
    assert files[0].path in notRestored || Remembers(files[0], t');
    assert files[1].path in notRestored || Remembers(files[1], t');
  }

  lemma UndoingJoins(a: seq<Fault>, b: seq<Fault>, m: nat)
    requires UndoingFrom(a, m) && OnlyUndoing(a, b)
    ensures UndoingFrom(b, m)
  {
    forall k | m <= k < |b| ensures Undoing(b[k]) { if k < |a| { assert b[k] == a[k]; } }
  }

  /** The module files' snapshots satisfy what restoring them asks for. */
  lemma RollbackPaths(root: Path, files: seq<Snapshot>, output: Path)
    requires GoodOutput(root, output, []) && |files| == 2 && files[0].path == GoMod(root) &&
               files[1].path == GoSum(root)
    ensures forall i :: 0 <= i < |files| ==> files[i].path != [] && Plain(files[i].path)
    ensures Apart(files[0].path, files[1].path)
    ensures forall q, i :: 0 <= i < |files| && (q in Targets(root) || (q == output && q != [])) ==>
              Plain(q) && Apart(q, files[i].path)
  {
    FixedPaths(root);
  }

  /** An empty report of the install: every target is as at the start. */
  lemma TargetsBack(t0: Node, t: Node, root: Path, install: Option<InstallResult>, es: seq<InstallEntry>)
    requires TargetsUnwound(t0, t, root, install, es) &&
               (install.Some? && install.value.RolledBack? ==> install.value.recovery == [])
    ensures forall q :: q in Targets(root) ==> Lookup(t, q) == Lookup(t0, q)
  {
    if install.Some? && install.value.RolledBack? {
      forall k | 0 <= k < 3 ensures Lookup(t, Targets(root)[k]) == Lookup(t0, Targets(root)[k]) {
        assert Undone(t, es[k], Lookup(t0, Targets(root)[k]), install.value.recovery);
      }
    }
  }

  /** Nothing listed and everything unwound: all six are as at the start. */
  lemma AllBack(t0: Node, t: Node, root: Path, output: Path, r: UpdateResult, es: seq<InstallEntry>)
    requires Clean(r) && ModulesBack(t0, t, root, r.notRestored) &&
               Unwound(t0, t, root, output, r.outputRestored, r.install, es)
    ensures SixRestored(t0, t, root, output)
  {
    TargetsBack(t0, t, root, r.install, es);
    assert root + CONFIG in Targets(root) && root + INSTALLER in Targets(root) && root + IMAGE_PIN in Targets(root);
  }


  /** Nothing but the module files has changed since `t0`, and go.mod holds the wanted pin. */
  ghost predicate Pinned(t0: Node, t: Node, root: Path, version: string, pinOf: Bytes -> Option<string>) {
    Elsewhere(t0, t, root) && exists data, mode ::
        Lookup(t, GoMod(root)) == Some(File(data, mode)) && pinOf(data) == Some(version)
  }

  /**
   Edits, tidies and reads back the pin; it fails only when the go tool did, left another pin, or
   go.mod could not be read.
   */
  method SynchronizeModule(fs: FileSystem, tool: GoTool, root: Path, version: string, pinOf: Bytes -> Option<string>)
    returns (ok: bool)
    requires fs.Valid() && IsFile(fs.root, GoMod(root)) && !IsDir(fs.root, GoSum(root)) &&
               Apart(GoMod(root), GoSum(root))
    modifies fs, tool
    ensures fs.Valid() && Elsewhere(old(fs.root), fs.root, root) && IsFile(fs.root, GoMod(root)) &&
              !IsDir(fs.root, GoSum(root))
    ensures old(tool.runs) <= tool.runs && old(fs.faults) <= fs.faults
    ensures ok ==> Pinned(old(fs.root), fs.root, root, version, pinOf)
    ensures !ok ==>
              GoTrouble(old(tool.runs), tool.runs, version, pinOf) ||
              Hit(old(fs.faults), fs.faults, Fault(ReadOp, GoMod(root)))
  {
    ok := tool.Command(fs, root);
    if !ok {
      assert !tool.runs[|old(tool.runs)|].ok;
      return;
    }
    ok := tool.Command(fs, root);
    if !ok {
      assert !tool.runs[|old(tool.runs)| + 1].ok;
      return;
    }
    var json := fs.ReadFile(GoMod(root));
    ok := json.Contents? && pinOf(json.data) == Some(version);
    if json.ReadFailed? { assert fs.faults[|old(fs.faults)|] == Fault(ReadOp, GoMod(root)); }
  }

  /** Only the module files and the workflow output differ. */
  ghost predicate BeforeInstall(t0: Node, t: Node, root: Path, output: Path) {
    forall q: Path :: Apart(q, GoMod(root)) && Apart(q, GoSum(root)) && (output != [] ==> Apart(q, output)) ==>
        Lookup(t, q) == Lookup(t0, q)
  }

  lemma BeforeInstallKeeps(t0: Node, t: Node, root: Path, items: seq<Item>, output: Path, umask: Mode)
    requires BeforeInstall(t0, t, root, output)
    requires GoodOutput(root, output, seq(|items|, i requires 0 <= i < |items| => items[i].staged))
    requires forall i :: 0 <= i < |items| ==> items[i].target in Targets(root) && Apart(items[i].staged, root)
    ensures Originals(t, items) == Originals(t0, items) && Images(t, items, umask) == Images(t0, items, umask)
  {
    FixedPaths(root);
    var staged := seq(|items|, i requires 0 <= i < |items| => items[i].staged);
    forall i | 0 <= i < |items|
      ensures Lookup(t, items[i].staged) == Lookup(t0, items[i].staged) &&
                Lookup(t, items[i].target) == Lookup(t0, items[i].target)
    {
      assert staged[i] in staged;
      ApartBelow(items[i].staged, root, GoMod(root));
      ApartBelow(items[i].staged, root, GoSum(root));
      assert items[i].target in [GoMod(root), GoSum(root), root + CONFIG, root + INSTALLER, root + IMAGE_PIN];
    }
  }

  ghost predicate SameModules(t: Node, t': Node, root: Path) {
    Lookup(t', GoMod(root)) == Lookup(t, GoMod(root)) && Lookup(t', GoSum(root)) == Lookup(t, GoSum(root))
  }

  /** Restores the workflow output; nothing apart from it notices. */
  method RestoreOutput(fs: FileSystem, ghost root: Path, was: Snapshot, ghost t0: Node) returns (ok: bool)
    requires fs.Valid() && GoodOutput(root, was.path, []) && (was.path != [] ==> Remembers(was, t0))
    requires was.path != [] ==> Feasible(was, fs.root)
    modifies fs
    ensures fs.Valid() && (was.path == [] ==> fs.root == old(fs.root))
    ensures ok && was.path != [] ==> Lookup(fs.root, was.path) == Lookup(t0, was.path)
    ensures OthersKept(old(fs.root), fs.root, [was]) && SameModules(old(fs.root), fs.root, root)
    ensures BystandersKept(old(fs.root), fs.root, root, was.path)
    ensures OnlyUndoing(old(fs.faults), fs.faults)
    ensures !ok ==> was.path != [] && Stopped(fs.faults, |old(fs.faults)|, |fs.faults|, was.path)
  {
    ghost var t := fs.root;
    ghost var tmp;
    ok, tmp := Restore(fs, was);
    if was.path != [] {
      OthersKeptNext(t, t, fs.root, [was], 0, tmp);
      OutputAlone(root, was, t, fs.root);
    }
  }

  /** Restoring the output reaches none of the updater's files, and nobody else's. */
  lemma OutputAlone(root: Path, was: Snapshot, t: Node, t': Node)
    requires GoodOutput(root, was.path, []) && was.path != [] && OthersKept(t, t', [was])
    ensures SameModules(t, t', root) && BystandersKept(t, t', root, was.path)
  {
    FixedPaths(root);
    var mine := [GoMod(root), GoSum(root), root + CONFIG, root + INSTALLER, root + IMAGE_PIN];
    assert GoMod(root) in mine && GoSum(root) in mine;
    assert [was][0] == was;
    forall q: Path | Plain(q) && Apart(q, was.path) ensures Lookup(t', q) == Lookup(t, q) { PlainIsCalm(q); }
  }

  /** Appends the report to the output, which must be there. */
  method AppendReport(fs: FileSystem, ghost root: Path, output: Path, report: Bytes) returns (ok: bool)
    requires fs.Valid() && GoodOutput(root, output, []) && output != []
    modifies fs
    ensures fs.Valid() && OnlyAt(old(fs.root), fs.root, output)
    ensures ok ==> exists was, mode ::
              Lookup(old(fs.root), output) == Some(File(was, mode)) &&
                  Lookup(fs.root, output) == Some(File(was + report, mode))
    ensures !ok && Lookup(old(fs.root), output).None? ==> fs.root == old(fs.root) && fs.faults == old(fs.faults)
    ensures IsFile(old(fs.root), output) ==> IsFile(fs.root, output)
    ensures old(fs.faults) <= fs.faults
    ensures !ok && IsFile(old(fs.root), output) ==>
              Hit(old(fs.faults), fs.faults, Fault(AppendOp, output)) ||
              Hit(old(fs.faults), fs.faults, Fault(CloseOp, output))
  {
    ok := fs.Append(output, report);
    if ok { ok := fs.Close(output); }
    if fs.faults != old(fs.faults) { assert fs.faults[|old(fs.faults)|] in {Fault(AppendOp, output),
        Fault(CloseOp, output)}; }
  }

  /** Appends the report; on failure the output is restored as far as possible. */
  method WriteOutput(fs: FileSystem, ghost root: Path, was: Snapshot, report: Bytes, ghost t0: Node)
    returns (ok: bool, restored: bool, ghost mark: nat)
    requires fs.Valid() && GoodOutput(root, was.path, []) && Elsewhere(t0, fs.root, root)
    requires was.path != [] ==> Remembers(was, fs.root)
    modifies fs
    ensures fs.Valid()
    ensures ok ==> BeforeInstall(t0, fs.root, root, was.path)
    ensures SameModules(old(fs.root), fs.root, root)
    ensures ok && was.path != [] ==> exists data, mode ::
              Lookup(t0, was.path) == Some(File(data, mode)) &&
                  Lookup(fs.root, was.path) == Some(File(data + report, mode))
    ensures !ok ==> Unwound(t0, fs.root, root, was.path, restored, None, [])
    ensures BystandersKept(old(fs.root), fs.root, root, was.path)
    ensures was.path != [] ==> Remembers(was, t0)
    ensures old(fs.faults) <= fs.faults && |old(fs.faults)| <= mark && UndoingFrom(fs.faults, mark)
    ensures !restored ==> was.path != [] && Stopped(fs.faults, mark, |fs.faults|, was.path)
    ensures !ok ==> was.path != [] && (IsFile(t0, was.path) ==> |old(fs.faults)| < |fs.faults|)
  {
    restored, mark := true, |fs.faults|;
    if was.path == [] { return true, true, mark; }
    FixedPaths(root);
    assert Remembers(was, t0) by { assert Apart(was.path, GoMod(root)) && Apart(was.path, GoSum(root)); }
    ghost var t := fs.root;
    ok := AppendReport(fs, root, was.path, report);
    OutputLineAlone(root, was.path, t0, t, fs.root);
    mark := |fs.faults|;
    if !ok {
      if was.existed { ParentOf(fs.root, was.path); }
      ghost var t' := fs.root;
      OutputBesides(root, was.path);
      restored := RestoreOutput(fs, root, was, t0);
      TargetsStay(t0, t', fs.root, root, [was], None, []);
    }
  }

  /** A change of the output alone reaches none of the updater's files. */
  lemma OutputLineAlone(root: Path, output: Path, t0: Node, t: Node, t': Node)
    requires GoodOutput(root, output, []) && output != [] && Elsewhere(t0, t, root) && OnlyAt(t, t', output)
    ensures SameModules(t, t', root) && BeforeInstall(t0, t', root, output) && BystandersKept(t, t', root, output)
    ensures TargetsUnwound(t0, t', root, None, [])
  {
    FixedPaths(root);
    var mine := [GoMod(root), GoSum(root), root + CONFIG, root + INSTALLER, root + IMAGE_PIN];
    assert GoMod(root) in mine && GoSum(root) in mine;
    forall q | q in Targets(root) ensures Lookup(t', q) == Lookup(t0, q) { assert q in mine; }
  }

  /** The inputs an update needs: go.mod, no directory for go.sum, the output if set, and outputs that can be staged. */
  ghost predicate Ready(t: Node, root: Path, output: Path, items: seq<Item>)
    requires forall i :: 0 <= i < |items| ==> items[i].target != []
  {
    IsFile(t, GoMod(root)) && !IsDir(t, GoSum(root)) && (output != [] ==> IsFile(t, output)) && AllStageable(t, items)
  }

  lemma NoPaths(ps: seq<Path>)
    ensures (forall p :: p !in ps) ==> ps == []
  {
    if ps != [] { assert ps[0] in ps; }
  }

  /** Every complaint is about a failure of undoing. */
  lemma ComplaintsUndo(from: seq<Fault>, to: seq<Fault>, cs: seq<Complaint>)
    requires Blamed(from, to, cs)
    ensures cs != [] ==> exists k :: |from| <= k < |to| && Undoing(to[k])
  {
    if cs != [] {
      assert cs[0] in cs;
      assert Undoing(Origin(cs[0]));
    }
  }

  /** No failure of undoing: everything was put back. */
  lemma UndoingWorks(from: seq<Fault>, to: seq<Fault>, marks: seq<nat>, r: UpdateResult, root: Path, output: Path)
    requires from <= to && r.Failed? && Accounted(|from|, to, marks, r, root, output)
    requires r.install.Some? ==> !r.install.value.Installed? && Blamed(from, to, ReportOf(r.install.value))
    requires forall k :: |from| <= k < |to| ==> !Undoing(to[k])
    ensures Clean(r)
  {
    NothingUndoing(to, |from|, marks[0]);
    NoPaths(r.notRestored);
    if r.install.Some? { ComplaintsUndo(from, to, ReportOf(r.install.value)); }
  }

  lemma NothingUndoing(faults: seq<Fault>, from: nat, m: nat)
    requires from <= m
    ensures UndoingFrom(faults, m) && (forall k :: from <= k < |faults| ==> !Undoing(faults[k])) ==> m == |faults|
  {
    if m < |faults| { assert Undoing(faults[m]) || !Undoing(faults[m]); }
  }

  /** Where there is something, its ancestors are directories. */
  lemma AncestorStands(t: Node, q: Path, p: Path)
    requires q < p && Lookup(t, p).Some?
    ensures IsDir(t, q)
  {
    LookupSplit(t, q, p);
    assert p[|q|..] != [];
  }

  /** What could be staged before the module files and the output changed still can. */
  lemma StageableStays(t0: Node, t: Node, root: Path, items: seq<Item>, output: Path)
    requires BeforeInstall(t0, t, root, output)
    requires GoodOutput(root, output, seq(|items|, i requires 0 <= i < |items| => items[i].staged))
    requires forall i :: 0 <= i < |items| ==>
               items[i].target != [] && items[i].target in Targets(root) && Apart(items[i].staged, root)
    requires IsFile(t, GoMod(root)) && (output != [] ==> IsFile(t, output))
    ensures AllStageable(t0, items) ==> AllStageable(t, items)
  {
    if AllStageable(t0, items) {
      StagedStays(t0, t, root, items, output);
      forall i | 0 <= i < |items| ensures Clear(t, Parent(items[i].target)) {
        assert Stageable(t0, items[i]);
        WayStays(t0, t, root, items[i].target, output);
      }
    }
  }

  lemma StagedStays(t0: Node, t: Node, root: Path, items: seq<Item>, output: Path)
    requires BeforeInstall(t0, t, root, output)
    requires GoodOutput(root, output, seq(|items|, i requires 0 <= i < |items| => items[i].staged))
    requires forall i :: 0 <= i < |items| ==> Apart(items[i].staged, root)
    ensures forall i :: 0 <= i < |items| ==> Lookup(t, items[i].staged) == Lookup(t0, items[i].staged)
  {
    var staged := seq(|items|, i requires 0 <= i < |items| => items[i].staged);
    forall i | 0 <= i < |items| ensures Lookup(t, items[i].staged) == Lookup(t0, items[i].staged) {
      assert staged[i] in staged;
      ApartBelow(items[i].staged, root, GoMod(root));
      ApartBelow(items[i].staged, root, GoSum(root));
    }
  }

  lemma WayStays(t0: Node, t: Node, root: Path, target: Path, output: Path)
    requires BeforeInstall(t0, t, root, output) && GoodOutput(root, output, []) && target != [] &&
               target in Targets(root)
    requires IsFile(t, GoMod(root)) && (output != [] ==> IsFile(t, output)) && Clear(t0, Parent(target))
    ensures Clear(t, Parent(target))
  {
    FixedPaths(root);
    assert target in [GoMod(root), GoSum(root), root + CONFIG, root + INSTALLER, root + IMAGE_PIN];
    assert Parent(GoMod(root)) == root == Parent(GoSum(root));
    forall q: Path | q <= Parent(target) && Lookup(t, q).Some? ensures IsDir(t, q) {
      assert q < target;
      if q <= root {
        AncestorStands(t, q, GoMod(root));
      } else if output != [] && q < output {
        AncestorStands(t, q, output);
      } else {
        assert Apart(q, GoMod(root)) && Apart(q, GoSum(root));
      }
    }
  }

  /** What an update promises when it fails, whatever else fails while it is undone. */
  ghost predicate FailedWell(t0: Node, t: Node, f0: seq<Fault>, faults: seq<Fault>, root: Path, output: Path,
                             r: UpdateResult, marks: seq<nat>, es: seq<InstallEntry>)
    requires r.Failed?
  {
    && f0 <= faults && Accounted(|f0|, faults, marks, r, root, output)
    && ModulesBack(t0, t, root, r.notRestored) && Unwound(t0, t, root, output, r.outputRestored, r.install, es)
    && (r.install.Some? ==> !r.install.value.Installed? && Blamed(f0, faults, ReportOf(r.install.value)))
  }

  /** The new outputs, the go.mod as synchronized, and the report. */
  ghost predicate Done(t0: Node, t: Node, t': Node, root: Path, items: seq<Item>, umask: Mode, output: Path,
                       report: Bytes)
  {
    && Committed(t', items, Images(t0, items, umask))
    && Lookup(t', GoMod(root)) == Lookup(t, GoMod(root))
    && (output != [] ==> exists was, mode ::
         Lookup(t0, output) == Some(File(was, mode)) && Lookup(t', output) == Some(File(was + report, mode)))
  }

  /** The steps of an update; `t1` is the tree with go.mod synchronized. */
  method RunUpdate(fs: FileSystem, tool: GoTool, root: Path, version: string, report: Bytes,
                   stagedConfig: Path, stagedInstaller: Path, stagedPin: Path, output: Path,
                   pinOf: Bytes -> Option<string>)
    returns (r: UpdateResult, ghost marks: seq<nat>, ghost es: seq<InstallEntry>, ghost t1: Node)
    requires fs.Valid() && GoodOutput(root, output, [stagedConfig, stagedInstaller, stagedPin])
    requires Apart(stagedConfig, root) && Apart(stagedInstaller, root) && Apart(stagedPin, root)
    modifies fs, tool
    ensures fs.Valid() && old(fs.faults) <= fs.faults && old(tool.runs) <= tool.runs
    ensures r.Updated? ==>
              && HoldsPin(Lookup(t1, GoMod(root)), version, pinOf)
              && Done(old(fs.root), t1, fs.root, root, Items(root, stagedConfig, stagedInstaller, stagedPin), fs.umask,
                   output, report)
    ensures r.NotStarted? ==> fs.root == old(fs.root)
    ensures BystandersKept(old(fs.root), fs.root, root, output)
    ensures r.Failed? ==> FailedWell(old(fs.root), fs.root, old(fs.faults), fs.faults, root, output, r, marks, es)
    ensures fs.faults == old(fs.faults) &&
              Ready(old(fs.root), root, output, Items(root, stagedConfig, stagedInstaller, stagedPin)) ==>
              r.Updated? || GoTrouble(old(tool.runs), tool.runs, version, pinOf)
  {
    ghost var t0, f0 := fs.root, fs.faults;
    marks, es, t1 := [], [], t0;
    FixedPaths(root);
    var files := SnapshotModuleFiles(fs, root);
    if files.None? { return NotStarted, [], [], t0; }
    var ok := SynchronizeModule(fs, tool, root, version, pinOf);
    t1 := fs.root;
    if ok {
      r, marks, es := Continue(fs, root, report, files.value, stagedConfig, stagedInstaller, stagedPin, output, t0, f0);
    } else {
      StillUnwound(t0, fs.root, root, output);
      r, marks := Rollback(fs, root, files.value, output, true, None, t0, f0, |fs.faults|, []);
      es := [];
    }
  }

  /**
   Applies an update as one transaction over go.mod, go.sum, the workflow output and the three
   targets. `pinOf` is what the go tool and `sourcePin` read from the bytes of a go.mod.
   */
  method ApplyUpdate(fs: FileSystem, tool: GoTool, root: Path, version: string, commit: string, image: string,
                     stagedConfig: Path, stagedInstaller: Path, stagedPin: Path, output: Path,
                     pinOf: Bytes -> Option<string>)
    returns (r: UpdateResult, ghost marks: seq<nat>, ghost es: seq<InstallEntry>)
    requires fs.Valid() && GoodOutput(root, output, [stagedConfig, stagedInstaller, stagedPin])
    requires Apart(stagedConfig, root) && Apart(stagedInstaller, root) && Apart(stagedPin, root)
    modifies fs, tool
    ensures fs.Valid() && old(fs.faults) <= fs.faults && old(tool.runs) <= tool.runs
    ensures r.Updated? ==>
              && Lookup(old(fs.root), stagedConfig).Some? && IsFile(old(fs.root), stagedInstaller)
              && IsFile(old(fs.root), stagedPin)
              && Lookup(fs.root, root + ["config", "manifests", "mcp-lifecycle-operator"]) ==
                   Some(CopiedTree(Lookup(old(fs.root), stagedConfig).value, fs.umask))
              && Lookup(fs.root, root + ["internal", "controller", "resources", "mcp-lifecycle-operator.yaml"]) ==
                   Some(CopiedFile(Lookup(old(fs.root), stagedInstaller).value, fs.umask))
              && Lookup(fs.root, root + ["operand-image.json"]) ==
                   Some(CopiedFile(Lookup(old(fs.root), stagedPin).value, fs.umask))
    ensures r.Updated? ==>
              exists data, mode ::
                Lookup(fs.root, root + ["go.mod"]) == Some(File(data, mode)) && pinOf(data) == Some(version)
    ensures r.Updated? && output != [] ==>
              exists was, mode ::
                && Lookup(old(fs.root), output) == Some(File(was, mode))
                && Lookup(fs.root, output) == Some(File(was + Report(commit, version, image), mode))
    ensures r.NotStarted? ==> fs.root == old(fs.root)
    ensures BystandersKept(old(fs.root), fs.root, root, output)
    ensures r.Failed? ==> FailedWell(old(fs.root), fs.root, old(fs.faults), fs.faults, root, output, r, marks, es)
    ensures Clean(r) ==> SixRestored(old(fs.root), fs.root, root, output)
    ensures r.Failed? && (forall k :: |old(fs.faults)| <= k < |fs.faults| ==> !Undoing(fs.faults[k])) ==> Clean(r)
    ensures fs.faults == old(fs.faults) &&
              Ready(old(fs.root), root, output, Items(root, stagedConfig, stagedInstaller, stagedPin)) ==>
              r.Updated? || GoTrouble(old(tool.runs), tool.runs, version, pinOf)
  {
    ghost var t0, f0, t1 := fs.root, fs.faults, fs.root;
    r, marks, es, t1 := RunUpdate(fs, tool, root, version, Report(commit, version, image), stagedConfig,
      stagedInstaller, stagedPin, output, pinOf);
    if r.Failed? {
      FailedMeans(t0, fs.root, f0, fs.faults, root, output, r, marks, es);
    } else if r.Updated? {
      DoneMeans(t0, t1, fs.root, root, version, Report(commit, version, image), stagedConfig, stagedInstaller,
        stagedPin, fs.umask, output, pinOf);
    }
  }

  /** What an update that got through has put where. */
  lemma DoneMeans(t0: Node, t1: Node, t: Node, root: Path, version: string, report: Bytes, stagedConfig: Path,
                  stagedInstaller: Path, stagedPin: Path, umask: Mode, output: Path, pinOf: Bytes -> Option<string>)
    requires Done(t0, t1, t, root, Items(root, stagedConfig, stagedInstaller, stagedPin), umask, output, report)
    requires HoldsPin(Lookup(t1, GoMod(root)), version, pinOf)
    ensures Lookup(t0, stagedConfig).Some? && IsFile(t0, stagedInstaller) && IsFile(t0, stagedPin)
    ensures Lookup(t, root + ["config", "manifests", "mcp-lifecycle-operator"]) ==
            Some(CopiedTree(Lookup(t0, stagedConfig).value, umask))
    ensures Lookup(t, root + ["internal", "controller", "resources", "mcp-lifecycle-operator.yaml"]) ==
            Some(CopiedFile(Lookup(t0, stagedInstaller).value, umask))
    ensures Lookup(t, root + ["operand-image.json"]) == Some(CopiedFile(Lookup(t0, stagedPin).value, umask))
    ensures exists data, mode :: Lookup(t, root + ["go.mod"]) == Some(File(data, mode)) && pinOf(data) == Some(version)
    ensures output != [] ==> exists was, mode ::
              Lookup(t0, output) == Some(File(was, mode)) && Lookup(t, output) == Some(File(was + report, mode))
  {
    CommittedMeans(t0, t, root, stagedConfig, stagedInstaller, stagedPin, umask);
  }

  /** A clean failure has restored all six, and a failure is clean when no call of the undoing failed. */
  lemma FailedMeans(t0: Node, t: Node, f0: seq<Fault>, faults: seq<Fault>, root: Path, output: Path, r: UpdateResult,
                    marks: seq<nat>, es: seq<InstallEntry>)
    requires r.Failed? && FailedWell(t0, t, f0, faults, root, output, r, marks, es)
    ensures Clean(r) ==> SixRestored(t0, t, root, output)
    ensures (forall k :: |f0| <= k < |faults| ==>
               && !faults[k].op.RemoveAllOp? && !faults[k].op.RemoveOp?
               && (faults[k].path != [] ==>
                     var name := faults[k].path[|faults[k].path| - 1];
                     !(".operand-restore-" <= name) && name != "backup")) ==> Clean(r)
  {
    if Clean(r) { AllBack(t0, t, root, output, r, es); }
    if forall k :: |f0| <= k < |faults| ==> !Undoing(faults[k]) { UndoingWorks(f0, faults, marks, r, root, output); }
  }

  /** As long as only the module files differ there is nothing else to unwind. */
  lemma StillUnwound(t0: Node, t: Node, root: Path, output: Path)
    requires GoodOutput(root, output, []) && Elsewhere(t0, t, root)
    ensures Unwound(t0, t, root, output, true, None, []) && (output != [] ==> Lookup(t, output) == Lookup(t0, output))
  {
    FixedPaths(root);
    if output != [] {
      assert GoMod(root) in [GoMod(root), GoSum(root), root + CONFIG, root + INSTALLER, root + IMAGE_PIN];
      assert GoSum(root) in [GoMod(root), GoSum(root), root + CONFIG, root + INSTALLER, root + IMAGE_PIN];
    }
  }

  /** The workflow output as it is; nothing to remember when it is not set. */
  method SnapshotOutput(fs: FileSystem, output: Path) returns (was: Option<Snapshot>)
    modifies fs`faults
    ensures was.Some? ==> was.value.path == output && (output != [] ==> Remembers(was.value, fs.root))
    ensures old(fs.faults) <= fs.faults
    ensures was.None? ==> output != [] && (IsDir(fs.root, output) || |old(fs.faults)| < |fs.faults|)
  {
    was := Some(Snapshot([], "", 0, false));
    if output != [] { was := TakeSnapshot(fs, output); }
  }

  /** Report, then install, and undo both if that fails. */
  method ReportAndInstall(fs: FileSystem, root: Path, report: Bytes, files: seq<Snapshot>, was: Snapshot,
                          stagedConfig: Path, stagedInstaller: Path, stagedPin: Path, ghost t0: Node,
                          ghost f0: seq<Fault>)
    returns (r: UpdateResult, ghost marks: seq<nat>, ghost es: seq<InstallEntry>)
    requires fs.Valid() && GoodOutput(root, was.path, []) &&
               GoodOutput(root, was.path, [stagedConfig, stagedInstaller, stagedPin])
    requires Apart(stagedConfig, root) && Apart(stagedInstaller, root) && Apart(stagedPin, root)
    requires |files| == 2 && files[0].path == GoMod(root) && files[1].path == GoSum(root)
    requires Remembers(files[0], t0) && Remembers(files[1], t0) && Elsewhere(t0, fs.root, root)
    requires was.path != [] ==> Remembers(was, fs.root)
    requires IsFile(fs.root, GoMod(root)) && !IsDir(fs.root, GoSum(root)) && f0 <= fs.faults
    modifies fs
    ensures BystandersKept(old(fs.root), fs.root, root, was.path)
    ensures fs.Valid() && (r.Updated? || r.Failed?) && f0 <= fs.faults && old(fs.faults) <= fs.faults
    ensures r.Updated? ==>
              Done(t0, old(fs.root), fs.root, root, Items(root, stagedConfig, stagedInstaller, stagedPin), fs.umask,
              was.path, report)
    ensures r.Failed? ==> FailedWell(t0, fs.root, f0, fs.faults, root, was.path, r, marks, es)
    ensures |fs.faults| == |f0| && (was.path != [] ==> IsFile(t0, was.path)) &&
              AllStageable(t0, Items(root, stagedConfig, stagedInstaller, stagedPin)) ==>
              r.Updated?
  {
    var ok, restored;
    ghost var mark;
    ok, restored, mark := WriteOutput(fs, root, was, report, t0);
    if ok {
      r, marks, es := InstallLast(fs, root, files, was, stagedConfig, stagedInstaller, stagedPin, t0, f0);
    } else {
      r, marks := Rollback(fs, root, files, was.path, restored, None, t0, f0, mark, []);
      es := [];
    }
  }

  /** The update from the workflow output on: report, then install, and undo both if that fails. */
  method Continue(fs: FileSystem, root: Path, report: Bytes, files: seq<Snapshot>, stagedConfig: Path,
                  stagedInstaller: Path, stagedPin: Path, output: Path, ghost t0: Node, ghost f0: seq<Fault>)
    returns (r: UpdateResult, ghost marks: seq<nat>, ghost es: seq<InstallEntry>)
    requires fs.Valid() && GoodOutput(root, output, [stagedConfig, stagedInstaller, stagedPin])
    requires Apart(stagedConfig, root) && Apart(stagedInstaller, root) && Apart(stagedPin, root)
    requires |files| == 2 && files[0].path == GoMod(root) && files[1].path == GoSum(root)
    requires Remembers(files[0], t0) && Remembers(files[1], t0) && Elsewhere(t0, fs.root, root)
    requires IsFile(fs.root, GoMod(root)) && !IsDir(fs.root, GoSum(root)) && f0 <= fs.faults
    modifies fs
    ensures BystandersKept(old(fs.root), fs.root, root, output)
    ensures fs.Valid() && (r.Updated? || r.Failed?) && f0 <= fs.faults
    ensures r.Updated? ==>
              Done(t0, old(fs.root), fs.root, root, Items(root, stagedConfig, stagedInstaller, stagedPin), fs.umask,
              output, report)
    ensures r.Failed? ==> FailedWell(t0, fs.root, f0, fs.faults, root, output, r, marks, es)
    ensures |fs.faults| == |f0| && (output != [] ==> IsFile(t0, output)) &&
              AllStageable(t0, Items(root, stagedConfig, stagedInstaller, stagedPin)) ==>
              r.Updated?
  {
    var was := SnapshotOutput(fs, output);
    StillUnwound(t0, fs.root, root, output);
    if was.None? {
      r, marks := Rollback(fs, root, files, output, true, None, t0, f0, |fs.faults|, []);
      es := [];
      return;
    }
    r, marks, es := ReportAndInstall(fs, root, report, files, was.value, stagedConfig, stagedInstaller, stagedPin, t0,
        f0);
  }

  /** The last step: install the targets, or put everything else back. */
  method InstallLast(fs: FileSystem, root: Path, files: seq<Snapshot>, was: Snapshot,
                     stagedConfig: Path, stagedInstaller: Path, stagedPin: Path, ghost t0: Node, ghost f0: seq<Fault>)
    returns (r: UpdateResult, ghost marks: seq<nat>, ghost es: seq<InstallEntry>)
    requires fs.Valid() && GoodOutput(root, was.path, []) &&
               GoodOutput(root, was.path, [stagedConfig, stagedInstaller, stagedPin])
    requires Apart(stagedConfig, root) && Apart(stagedInstaller, root) && Apart(stagedPin, root)
    requires |files| == 2 && files[0].path == GoMod(root) && files[1].path == GoSum(root)
    requires Remembers(files[0], t0) && Remembers(files[1], t0) &&
               (was.path != [] ==> Remembers(was, t0) && was.existed)
    requires BeforeInstall(t0, fs.root, root, was.path) && (was.path != [] ==> IsFile(fs.root, was.path))
    requires IsFile(fs.root, GoMod(root)) && !IsDir(fs.root, GoSum(root)) && f0 <= fs.faults
    modifies fs
    ensures BystandersKept(old(fs.root), fs.root, root, was.path)
    ensures fs.Valid() && (r.Updated? || r.Failed?) && f0 <= fs.faults && old(fs.faults) <= fs.faults
    ensures r.Updated? ==>
              && (var items := Items(root, stagedConfig, stagedInstaller, stagedPin);
                   Committed(fs.root, items, Images(t0, items, fs.umask)))
              && Lookup(fs.root, GoMod(root)) == Lookup(old(fs.root), GoMod(root))
              && (was.path != [] ==> Lookup(fs.root, was.path) == Lookup(old(fs.root), was.path))
    ensures r.Failed? ==> FailedWell(t0, fs.root, f0, fs.faults, root, was.path, r, marks, es)
    ensures |fs.faults| == |f0| && AllStageable(t0, Items(root, stagedConfig, stagedInstaller, stagedPin)) ==>
              r.Updated?
  {
    var installed;
    installed, es := InstallTargets(fs, root, stagedConfig, stagedInstaller, stagedPin, was.path, t0, f0);
    marks := [];
    if installed.Installed? { return Updated, [], es; }
    r, marks := UndoAll(fs, root, files, was, installed, t0, f0, es);
  }

  /** The install, as far as the transaction around it is concerned. */
  method InstallTargets(fs: FileSystem, root: Path, stagedConfig: Path, stagedInstaller: Path, stagedPin: Path,
                        ghost output: Path, ghost t0: Node, ghost f0: seq<Fault>)
    returns (installed: InstallResult, ghost es: seq<InstallEntry>)
    requires fs.Valid() && GoodOutput(root, output, [stagedConfig, stagedInstaller, stagedPin])
    requires Apart(stagedConfig, root) && Apart(stagedInstaller, root) && Apart(stagedPin, root)
    requires BeforeInstall(t0, fs.root, root, output) && (output != [] ==> IsFile(fs.root, output))
    requires IsFile(fs.root, GoMod(root)) && f0 <= fs.faults
    modifies fs
    ensures BystandersKept(old(fs.root), fs.root, root, output)
    ensures fs.Valid() && SameModules(old(fs.root), fs.root, root) &&
              (output != [] ==> Lookup(fs.root, output) == Lookup(old(fs.root), output))
    ensures var items := Items(root, stagedConfig, stagedInstaller, stagedPin);
            installed.Installed? ==> Committed(fs.root, items, Images(t0, items, fs.umask))
    ensures !installed.Installed? ==> TargetsUnwound(t0, fs.root, root, Some(installed), es)
    ensures Blamed(f0, fs.faults, ReportOf(installed)) && old(fs.faults) <= fs.faults
    ensures |fs.faults| == |f0| && AllStageable(t0, Items(root, stagedConfig, stagedInstaller, stagedPin)) ==>
              installed.Installed?
  {
    ghost var t, f := fs.root, fs.faults;
    ghost var items := Items(root, stagedConfig, stagedInstaller, stagedPin);
    assert seq(|items|, i requires 0 <= i < |items| => items[i].staged) == [stagedConfig, stagedInstaller, stagedPin];
    BeforeInstallKeeps(t0, t, root, items, output, fs.umask);
    StageableStays(t0, t, root, items, output);
    installed, es := InstallOutputs(fs, root, stagedConfig, stagedInstaller, stagedPin);
    InstallSpares(t, fs.root, root, items, output);
    InstallConcluded(t0, t, fs.root, root, items, fs.umask, installed, es);
    BlamedSince(f0, f, fs.faults, ReportOf(installed));
    if |fs.faults| == |f0| { assert fs.faults == f; }
  }

  lemma OutputFrame(t0: Node, t: Node, t': Node, root: Path, was: Snapshot, installed: InstallResult,
                    es: seq<InstallEntry>)
    requires GoodOutput(root, was.path, []) && OthersKept(t, t', [was]) && (was.path == [] ==> t' == t)
    requires TargetsUnwound(t0, t, root, Some(installed), es)
    ensures TargetsUnwound(t0, t', root, Some(installed), es)
  {
    if was.path != [] {
      OutputBesides(root, was.path);
      TargetsStay(t0, t, t', root, [was], Some(installed), es);
    }
  }

  lemma OutputBesides(root: Path, output: Path)
    requires GoodOutput(root, output, []) && output != []
    ensures forall q :: q in Targets(root) ==> Apart(q, output)
  {
    var mine := [GoMod(root), GoSum(root), root + CONFIG, root + INSTALLER, root + IMAGE_PIN];
    forall q | q in Targets(root) ensures Apart(q, output) { assert q in mine; }
  }

  lemma InstallConcluded(t0: Node, t: Node, t': Node, root: Path, items: seq<Item>, umask: Mode, r: InstallResult,
                         es: seq<InstallEntry>)
    requires |items| == 3 && items[0].target == root + CONFIG && items[1].target == root + INSTALLER &&
               items[2].target == root + IMAGE_PIN
    requires Outcome(t, t', root, items, umask, r, es)
    requires Originals(t, items) == Originals(t0, items) && Images(t, items, umask) == Images(t0, items, umask)
    ensures r.Installed? ==> Committed(t', items, Images(t0, items, umask))
    ensures !r.Installed? ==> TargetsUnwound(t0, t', root, Some(r), es)
  {
    InstallUnwound(t0, t', root, items, r, es);
  }

  /** What an install that did not happen leaves at the targets. */
  lemma InstallUnwound(t0: Node, t: Node, root: Path, items: seq<Item>, r: InstallResult, es: seq<InstallEntry>)
    requires |items| == 3 && items[0].target == root + CONFIG && items[1].target == root + INSTALLER &&
               items[2].target == root + IMAGE_PIN
    requires r.StagingFailed? ==> Untouched(t, items, Originals(t0, items))
    requires r.RolledBack? ==>
               |es| == 3 && EntriesOf(root, items, es) && AllUndone(t, es, Originals(t0, items), r.recovery, 0)
    ensures !r.Installed? ==> TargetsUnwound(t0, t, root, Some(r), es)
  {
    assert forall k :: 0 <= k < 3 ==> Targets(root)[k] == items[k].target;
    if r.StagingFailed? {
      forall q | q in Targets(root) ensures Lookup(t, q) == Lookup(t0, q) {
        assert q == items[0].target || q == items[1].target || q == items[2].target;
      }
    }
    if r.RolledBack? {
      forall k | 0 <= k < 3 ensures Undone(t, es[k], Lookup(t0, Targets(root)[k]), r.recovery) {
        assert Originals(t0, items)[k] == Lookup(t0, items[k].target);
      }
    }
  }

  /** After a failed install: the output, then the module files. */
  method UndoAll(fs: FileSystem, root: Path, files: seq<Snapshot>, was: Snapshot, installed: InstallResult,
                 ghost t0: Node, ghost f0: seq<Fault>, ghost es: seq<InstallEntry>)
    returns (r: UpdateResult, ghost marks: seq<nat>)
    requires fs.Valid() && GoodOutput(root, was.path, []) && !installed.Installed?
    requires |files| == 2 && files[0].path == GoMod(root) && files[1].path == GoSum(root)
    requires Remembers(files[0], t0) && Remembers(files[1], t0)
    requires was.path != [] ==> Remembers(was, t0) && was.existed && IsFile(fs.root, was.path)
    requires IsFile(fs.root, GoMod(root)) && !IsDir(fs.root, GoSum(root))
    requires TargetsUnwound(t0, fs.root, root, Some(installed), es) && Blamed(f0, fs.faults, ReportOf(installed))
    modifies fs
    ensures BystandersKept(old(fs.root), fs.root, root, was.path)
    ensures fs.Valid() && r.Failed? && old(fs.faults) <= fs.faults
    ensures FailedWell(t0, fs.root, f0, fs.faults, root, was.path, r, marks, es)
  {
    ghost var f1 := fs.faults;
    if was.path != [] { ParentOf(fs.root, was.path); }
    ghost var t := fs.root;
    var restored := RestoreOutput(fs, root, was, t0);
    OutputFrame(t0, t, fs.root, root, was, installed, es);
    r, marks := Rollback(fs, root, files, was.path, restored, Some(installed), t0, f0, |f1|, es);
    BlamedGrows(f0, f1, fs.faults, ReportOf(installed));
  }
}
