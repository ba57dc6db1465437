/**
 The operating system's file operations, each of which may fail at any call. `root` is
 the tree as it stands; `history` records every tree a crash could leave behind, one
 state for an atomic step and several for a step that is not atomic; `faults` records
 every call that failed although the state permitted it.
 */
module FileSystems {
  import opened Wrappers
  import opened FileTree

  datatype Stat = Present | Missing | StatFailed
  datatype Removal = Removed | NothingThere | RemoveFailed
  datatype ReadResult = Contents(data: Bytes, mode: Mode) | NoFile | ReadFailed

  /** Execute bits survive `os.CopyFS`; read and write are granted to all, less the umask. */
  function TreeMode(mode: Mode, umask: Mode): Mode {
    (0x1B6 | mode) & !umask
  }

  function CopiedTree(n: Node, umask: Mode): Node {
    match n
    case File(data, mode) => File(data, TreeMode(mode, umask))
    case Dir(entries) => Dir(map k | k in entries :: CopiedTree(entries[k], umask))
  }

  /**
   A copied tree has the same directories and the same files with the same contents; a file keeps its
   execute bits, and read and write are granted to all, each less what the umask takes.
   */
  lemma {:induction false} CopiedTreeAt(n: Node, umask: Mode, q: Path)
    ensures Lookup(n, q).None? ==> Lookup(CopiedTree(n, umask), q).None?
    ensures IsDir(n, q) ==> IsDir(CopiedTree(n, umask), q)
    ensures forall data, mode :: Lookup(n, q) == Some(File(data, mode)) ==>
              exists mode' :: Lookup(CopiedTree(n, umask), q) == Some(File(data, mode')) &&
                mode' & 0x49 == mode & 0x49 & !umask && mode' & 0x1B6 == 0x1B6 & !umask
    decreases |q|
  {
    if q == [] {
      if n.File? { TreeModeBits(n.mode, umask); }
    } else if n.Dir? && q[0] in n.entries {
      CopiedTreeAt(n.entries[q[0]], umask, q[1..]);
    }
  }

  lemma TreeModeBits(mode: Mode, umask: Mode)
    ensures TreeMode(mode, umask) & 0x49 == mode & 0x49 & !umask
    ensures TreeMode(mode, umask) & 0x1B6 == 0x1B6 & !umask
  {}

  function CopiedFile(n: Node, umask: Mode): Node
    requires n.File?
  {
    File(n.data, n.mode & !umask)
  }

  /** `p` lies directly in `dir` under a name that starts with `prefix`. */
  predicate NamedIn(p: Path, dir: Path, prefix: string) {
    |p| == |dir| + 1 && dir <= p && prefix <= p[|dir|]
  }

  /** The states recorded since `from` all satisfy `OnlyAt` for one path. */
  ghost predicate StatesOnlyAt(before: Node, from: seq<Node>, to: seq<Node>, p: Path) {
    from <= to && forall k {:trigger to[k]} :: |from| <= k < |to| ==> OnlyAt(before, to[k], p)
  }

  ghost predicate StatesOnlyAbove(before: Node, from: seq<Node>, to: seq<Node>, p: Path) {
    from <= to && forall k {:trigger to[k]} :: |from| <= k < |to| ==> OnlyAbove(before, to[k], p)
  }

  datatype Op = StatOp | ReadOp | RenameOp | RemoveAllOp | RemoveOp | MkdirOp | CreateOp | WriteOp | ChmodOp | CloseOp
      | AppendOp | CopyOp

  /** A call that failed for no reason in the tree; a rename is filed under its source. */
  datatype Fault = Fault(op: Op, path: Path)

  /** `f` is among the faults recorded since `from`. */
  ghost predicate Hit(from: seq<Fault>, to: seq<Fault>, f: Fault) {
    from <= to && exists k {:trigger to[k]} :: |from| <= k < |to| && to[k] == f
  }

  /** What was hit stays hit, and a later start sees no more. */
  lemma HitWidens(a: seq<Fault>, b: seq<Fault>, c: seq<Fault>, d: seq<Fault>, f: Fault)
    requires a <= b <= c <= d && Hit(b, c, f)
    ensures Hit(a, d, f)
  {
    var k :| |b| <= k < |c| && c[k] == f;
    assert d[k] == f;
  }

  /** The rename is possible: something to move, a directory to move it to, and at most a file to replace by a file. */
  predicate Movable(t: Node, src: Path, dst: Path)
    requires dst != []
  {
    && Lookup(t, src).Some? && IsDir(t, Parent(dst))
    && (Lookup(t, dst).None? || (Lookup(t, dst).value.File? && Lookup(t, src).value.File?))
  }

  predicate IsFile(t: Node, p: Path) {
    Lookup(t, p).Some? && Lookup(t, p).value.File?
  }

  class FileSystem {
    const umask: Mode
    var root: Node
    ghost var history: seq<Node>
    ghost var faults: seq<Fault>

    constructor (tree: Node, umask: Mode)
      requires tree.Dir?
      ensures Valid() && root == tree && history == [tree] && faults == [] && this.umask == umask
    {
      root := tree;
      history, faults := [tree], [];
      this.umask := umask;
    }

    ghost predicate Valid()
      reads `root, `history
    {
      root.Dir? && history != [] && history[|history| - 1] == root
    }

    ghost method Blame(op: Op, p: Path)
      modifies `faults
      ensures faults == old(faults) + [Fault(op, p)]
    {
      faults := faults + [Fault(op, p)];
    }

    method Lstat(p: Path) returns (s: Stat)
      modifies `faults
      ensures s.Present? ==> Lookup(root, p).Some?
      ensures s.Missing? ==> Lookup(root, p).None?
      ensures faults == if s.StatFailed? then old(faults) + [Fault(StatOp, p)] else old(faults)
    {
      var working: bool := *;
      if !working { Blame(StatOp, p); }
      s := if !working then StatFailed else if Lookup(root, p).Some? then Present else Missing;
    }

    method ReadFile(p: Path) returns (r: ReadResult)
      modifies `faults
      ensures r.Contents? ==> Lookup(root, p) == Some(File(r.data, r.mode))
      ensures r.NoFile? ==> Lookup(root, p).None?
      ensures faults == if r.ReadFailed? && !IsDir(root, p) then old(faults) + [Fault(ReadOp, p)] else old(faults)
    {
      var working: bool := *;
      r := ReadFailed;
      match Lookup(root, p) {
        case None => if working { r := NoFile; } else { Blame(ReadOp, p); }
        case Some(File(data, mode)) => if working { r := Contents(data, mode); } else { Blame(ReadOp, p); }
        case Some(Dir(_)) =>
      }
    }

    /** Closing a file that was written; the last writes may fail only now. */
    method Close(p: Path) returns (ok: bool)
      modifies `faults
      ensures faults == if ok then old(faults) else old(faults) + [Fault(CloseOp, p)]
    {
      ok := *;
      if !ok { Blame(CloseOp, p); }
    }

    /** Atomic: the node is at `src` or at `dst`, never at both and never at neither. */
    method Rename(src: Path, dst: Path) returns (ok: bool)
      requires Valid() && src != [] && dst != [] && Apart(src, dst)
      modifies this
      ensures Valid()
      ensures !ok ==> root == old(root) && history == old(history)
      ensures ok ==> history == old(history) + [root]
      ensures ok ==>
                Lookup(old(root), src).Some? && Lookup(root, src).None? && Lookup(root, dst) == Lookup(old(root), src)
      ensures ok ==> forall q: Path :: Apart(q, src) && Apart(q, dst) ==> Lookup(root, q) == Lookup(old(root), q)
      ensures ok ==> forall q: Path :: IsDir(old(root), q) && !(src <= q) && !(dst <= q) ==> IsDir(root, q)
      ensures faults == if !ok && Movable(old(root), src, dst) then old(faults) + [Fault(RenameOp, src)]
                else old(faults)
    {
      ok := *;
      if !Movable(root, src, dst) {
        ok := false;
      } else if ok {
        var moved := Lookup(root, src);
        MoveFrame(root, src, dst);
        root := Put(Cut(root, src), dst, moved.value);
        history := history + [root];
      } else {
        Blame(RenameOp, src);
      }
    }

    /** Not atomic: a crash or a failure can leave any pruned part of the tree behind. */
    method RemoveAll(p: Path) returns (ok: bool)
      requires Valid() && p != []
      modifies this
      ensures Valid()
      ensures ok ==> Lookup(root, p).None?
      ensures OnlyAt(old(root), root, p)
      ensures StatesOnlyAt(old(root), old(history), history, p)
      ensures Lookup(root, p).Some? ==>
                Lookup(old(root), p).Some? && Pruned(Lookup(root, p).value, Lookup(old(root), p).value)
      ensures OnlyRemoves(old(root), root)
      ensures faults == if ok then old(faults) else old(faults) + [Fault(RemoveAllOp, p)]
    {
      var there, left: Node := Lookup(root, p), *;
      if there.Some? && Pruned(left, there.value) && IsDir(root, Parent(p)) {
        PutFrame(root, p, left);
        PruneRemoves(root, p, left);
        root := Put(root, p, left);
        history := history + [root];
      }
      ok := *;
      if ok {
        CutFrame(root, p);
        CutRemoves(root, p);
        root := Cut(root, p);
        history := history + [root];
      } else {
        Blame(RemoveAllOp, p);
      }
    }

    /** Removes one file. */
    method Remove(p: Path) returns (r: Removal)
      requires Valid() && p != []
      modifies this
      ensures Valid()
      ensures r.Removed? ==> Lookup(root, p).None?
      ensures r.NothingThere? ==> Lookup(old(root), p).None?
      ensures !r.Removed? ==> root == old(root)
      ensures OnlyAt(old(root), root, p)
      ensures StatesOnlyAt(old(root), old(history), history, p) && DirsKept(old(root), root, p)
      ensures faults == if r.RemoveFailed? && !IsDir(old(root), p) then old(faults) + [Fault(RemoveOp, p)]
                else old(faults)
    {
      var working: bool := *;
      var there := Lookup(root, p);
      r := RemoveFailed;
      if IsDir(root, p) {
      } else if !working {
        Blame(RemoveOp, p);
      } else if there.None? {
        r := NothingThere;
      } else {
        CutFrame(root, p);
        root := Cut(root, p);
        history := history + [root];
        r := Removed;
      }
    }

    method MkdirAll(p: Path) returns (ok: bool)
      requires Valid()
      modifies this
      ensures Valid()
      ensures ok ==> IsDir(root, p)
      ensures OnlyAbove(old(root), root, p)
      ensures StatesOnlyAbove(old(root), old(history), history, p)
      ensures forall q: Path :: Clear(old(root), q) ==> Clear(root, q)
      ensures ok ==> faults == old(faults)
      ensures !ok ==> faults == old(faults) + [Fault(MkdirOp, p)] || (faults == old(faults) && !Clear(old(root), p))
    {
      var i := 0;
      while i < |p|
        invariant 0 <= i <= |p| && Valid() && faults == old(faults)
        invariant IsDir(root, p[..i])
        invariant OnlyAbove(old(root), root, p)
        invariant StatesOnlyAbove(old(root), old(history), history, p)
        invariant forall q: Path :: Clear(old(root), q) ==> Clear(root, q)
      {
        var next := p[..i + 1];
        assert Parent(next) == p[..i];
        var there := Lookup(root, next);
        if there.None? {
          var working: bool := *;
          if !working {
            Blame(MkdirOp, p);
            return false;
          }
          CreateFrame(root, next, EMPTY_DIR);
          MkdirClear(root, next);
          assert OnlyAbove(root, Put(root, next, EMPTY_DIR), p);
          root := Put(root, next, EMPTY_DIR);
          history := history + [root];
        } else if there.value.File? {
          assert !Clear(root, p);
          return false;
        }
        i := i + 1;
      }
      assert p[..i] == p;
      ok := true;
    }

    /** Creates an empty directory, or file, under a name that was not taken. */
    method Create(dir: Path, prefix: string, n: Node) returns (r: Option<Path>)
      requires Valid()
      requires n == EMPTY_DIR || n.File?
      modifies this
      ensures Valid()
      ensures r.None? ==> root == old(root) && history == old(history)
      ensures r.Some? ==> NamedIn(r.value, dir, prefix)
      ensures r.Some? ==> Lookup(old(root), r.value).None? && Lookup(root, r.value) == Some(n) && IsDir(root, dir)
      ensures r.Some? ==> OnlyAbove(old(root), root, r.value) && history == old(history) + [root]
      ensures forall q: Path :: IsDir(old(root), q) ==> IsDir(root, q)
      ensures n == EMPTY_DIR ==> forall q: Path :: Clear(old(root), q) ==> Clear(root, q)
      ensures faults == if r.None? && IsDir(old(root), dir) then old(faults) + [Fault(CreateOp, dir + [prefix])]
                else old(faults)
    {
      var suffix: string := *;
      var working: bool := *;
      var p := dir + [prefix + suffix];
      assert Parent(p) == dir;
      if working && IsDir(root, dir) && Lookup(root, p).None? {
        CreateFrame(root, p, n);
        if n == EMPTY_DIR { MkdirClear(root, p); }
        root := Put(root, p, n);
        history := history + [root];
        r := Some(p);
      } else {
        if IsDir(root, dir) { Blame(CreateOp, dir + [prefix]); }
        r := None;
      }
    }

    /** Sets the file at `p`; a failed write leaves a prefix of the new data, or the old file. */
    method Write(p: Path, data: Bytes, mode: Mode) returns (ok: bool)
      requires Valid() && p != []
      modifies this
      ensures Valid()
      ensures ok ==> Lookup(root, p) == Some(File(data, mode))
      ensures IsDir(old(root), Parent(p)) && !IsDir(old(root), p) ==>
                !IsDir(root, p) && (IsFile(old(root), p) ==> IsFile(root, p))
      ensures OnlyAt(old(root), root, p) && DirsKept(old(root), root, p)
      ensures StatesOnlyAt(old(root), old(history), history, p)
      ensures faults == if !ok && IsDir(old(root), Parent(p)) && !IsDir(old(root), p)
                then old(faults) + [Fault(WriteOp, p)] else old(faults)
    {
      var written: nat, working: bool := *, *;
      ok := false;
      if !IsDir(root, Parent(p)) || IsDir(root, p) { return; }
      if written <= |data| {
        PutFrame(root, p, File(data[..written], mode));
        root := Put(root, p, File(data[..written], mode));
        history := history + [root];
        ok := working && written == |data|;
        assert data[..|data|] == data;
      }
      if !ok { Blame(WriteOp, p); }
    }

    method Chmod(p: Path, mode: Mode) returns (ok: bool)
      requires Valid() && p != []
      modifies this
      ensures Valid()
      ensures ok ==> exists data, was ::
                Lookup(old(root), p) == Some(File(data, was)) && Lookup(root, p) == Some(File(data, mode))
      ensures !ok ==> root == old(root)
      ensures OnlyAt(old(root), root, p) && DirsKept(old(root), root, p)
      ensures StatesOnlyAt(old(root), old(history), history, p)
      ensures faults == if !ok && IsFile(old(root), p) then old(faults) + [Fault(ChmodOp, p)] else old(faults)
    {
      ok := *;
      if !IsFile(root, p) {
        ok := false;
      } else if ok {
        ParentOf(root, p);
        PutFrame(root, p, File(Lookup(root, p).value.data, mode));
        root := Put(root, p, File(Lookup(root, p).value.data, mode));
        history := history + [root];
      } else {
        Blame(ChmodOp, p);
      }
    }

    /** Appends to an existing file and leaves its mode alone; part may be written on failure. */
    method Append(p: Path, data: Bytes) returns (ok: bool)
      requires Valid() && p != []
      modifies this
      ensures Valid()
      ensures ok ==> exists was, mode ::
                Lookup(old(root), p) == Some(File(was, mode)) && Lookup(root, p) == Some(File(was + data, mode))
      ensures IsFile(old(root), p) ==> IsFile(root, p)
      ensures !IsFile(old(root), p) ==> root == old(root)
      ensures OnlyAt(old(root), root, p) && DirsKept(old(root), root, p)
      ensures StatesOnlyAt(old(root), old(history), history, p)
      ensures faults == if !ok && IsFile(old(root), p) then old(faults) + [Fault(AppendOp, p)] else old(faults)
    {
      ok := false;
      var written: nat, working: bool := *, *;
      if !IsFile(root, p) { return; }
      var was, mode := Lookup(root, p).value.data, Lookup(root, p).value.mode;
      if written <= |data| {
        ParentOf(root, p);
        PutFrame(root, p, File(was + data[..written], mode));
        root := Put(root, p, File(was + data[..written], mode));
        history := history + [root];
        ok := working && written == |data|;
        assert data[..|data|] == data;
      }
      if !ok { Blame(AppendOp, p); }
    }

    /** Not atomic: a failed copy leaves anything, or nothing, at `dst`. */
    method CopyTree(src: Path, dst: Path) returns (ok: bool)
      requires Valid() && dst != []
      modifies this
      ensures Valid()
      ensures ok ==> IsDir(old(root), src) && Lookup(root, dst) == Some(CopiedTree(Lookup(old(root), src).value, umask))
      ensures OnlyAt(old(root), root, dst)
      ensures StatesOnlyAt(old(root), old(history), history, dst)
      ensures forall q: Path :: Clear(old(root), q) && !(dst <= q) ==> Clear(root, q)
      ensures faults == if !ok && IsDir(old(root), src) && IsDir(old(root), Parent(dst))
                then old(faults) + [Fault(CopyOp, dst)] else old(faults)
    {
      var working: bool := *;
      ok := working && IsDir(root, src) && IsDir(root, Parent(dst));
      if ok {
        PutCopy(dst, CopiedTree(Lookup(root, src).value, umask));
      } else {
        if IsDir(root, src) && IsDir(root, Parent(dst)) { Blame(CopyOp, dst); }
        PutDebris(dst);
      }
    }

    method CopyFile(src: Path, dst: Path) returns (ok: bool)
      requires Valid() && dst != []
      modifies this
      ensures Valid()
      ensures ok ==>
                IsFile(old(root), src) && Lookup(root, dst) == Some(CopiedFile(Lookup(old(root), src).value, umask))
      ensures OnlyAt(old(root), root, dst)
      ensures StatesOnlyAt(old(root), old(history), history, dst)
      ensures forall q: Path :: Clear(old(root), q) && !(dst <= q) ==> Clear(root, q)
      ensures faults == if !ok && IsFile(old(root), src) && IsDir(old(root), Parent(dst))
                then old(faults) + [Fault(CopyOp, dst)] else old(faults)
    {
      var working: bool := *;
      ok := working && IsFile(root, src) && IsDir(root, Parent(dst));
      if ok {
        PutCopy(dst, CopiedFile(Lookup(root, src).value, umask));
      } else {
        if IsFile(root, src) && IsDir(root, Parent(dst)) { Blame(CopyOp, dst); }
        PutDebris(dst);
      }
    }

    /** The finished copy, and before it an arbitrary unfinished one. */
    method PutCopy(dst: Path, n: Node)
      requires Valid() && dst != [] && IsDir(root, Parent(dst))
      modifies `root, `history
      ensures Valid()
      ensures Lookup(root, dst) == Some(n)
      ensures OnlyAt(old(root), root, dst)
      ensures StatesOnlyAt(old(root), old(history), history, dst)
      ensures forall q: Path :: Clear(old(root), q) && !(dst <= q) ==> Clear(root, q)
    {
      var before := root;
      PutDebris(dst);
      PutFrame(before, dst, n);
      PutClear(before, dst, n);
      root := Put(before, dst, n);
      history := history + [root];
    }

    /** Another process leaves a file, or nothing, where no directory was. */
    method Replace(p: Path, file: Option<Node>)
      requires Valid() && p != [] && !IsDir(root, p) && (file.Some? ==> file.value.File? && IsDir(root, Parent(p)))
      modifies `root, `history
      ensures Valid()
      ensures Lookup(root, p) == file
      ensures OnlyAt(old(root), root, p) && DirsKept(old(root), root, p)
    {
      if file.Some? {
        PutFrame(root, p, file.value);
        root := Put(root, p, file.value);
      } else {
        CutFrame(root, p);
        root := Cut(root, p);
      }
      history := history + [root];
    }

    method PutDebris(dst: Path)
      requires Valid() && dst != []
      modifies `root, `history
      ensures Valid()
      ensures OnlyAt(old(root), root, dst)
      ensures StatesOnlyAt(old(root), old(history), history, dst)
      ensures forall q: Path :: Clear(old(root), q) && !(dst <= q) ==> Clear(root, q)
    {
      var debris: Node, some: bool := *, *;
      if some && IsDir(root, Parent(dst)) {
        PutFrame(root, dst, debris);
        PutClear(root, dst, debris);
        root := Put(root, dst, debris);
        history := history + [root];
      }
    }
  }
}
