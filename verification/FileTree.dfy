/**
 The file system as a value: a tree of named nodes. A path is a sequence of names and
 `Lookup` is the only observer the other modules reason with. Moving a node moves the
 whole subtree below it, which is what renaming a directory does.
 */
module FileTree {
  import opened Wrappers

  type Path = seq<string>
  type Bytes = string
  type Mode = bv9

  datatype Node = File(data: Bytes, mode: Mode) | Dir(entries: map<string, Node>)

  const EMPTY_DIR: Node := Dir(map[])

  /** Neither path lies at or below the other. */
  predicate Apart(p: Path, q: Path) {
    !(p <= q) && !(q <= p)
  }

  function Parent(p: Path): Path
    requires p != []
  {
    p[..|p| - 1]
  }

  function Lookup(t: Node, p: Path): Option<Node> {
    if p == [] then Some(t)
    else if t.Dir? && p[0] in t.entries then Lookup(t.entries[p[0]], p[1..])
    else None
  }

  predicate IsDir(t: Node, p: Path) {
    Lookup(t, p).Some? && Lookup(t, p).value.Dir?
  }

  /** No file stands in the way of making `p` a directory. */
  ghost predicate Clear(t: Node, p: Path) {
    forall q: Path :: q <= p && Lookup(t, q).Some? ==> IsDir(t, q)
  }

  /** Nothing is there that was not there before. */
  ghost predicate OnlyRemoves(t: Node, t': Node) {
    forall q: Path :: Lookup(t, q).None? ==> Lookup(t', q).None?
  }

  /** Directories that are not at or below `p` are still directories. */
  ghost predicate DirsKept(t: Node, t': Node, p: Path) {
    forall q: Path :: IsDir(t, q) && !(p <= q) ==> IsDir(t', q)
  }

  /** The tree with `n` at `p`; the directory that is to hold it must exist. */
  function Put(t: Node, p: Path, n: Node): Node
    requires p != [] && IsDir(t, Parent(p))
    decreases |p|
  {
    if |p| == 1 then
      Dir(t.entries[p[0] := n])
    else
      ParentBelow(t, p);
      Dir(t.entries[p[0] := Put(t.entries[p[0]], p[1..], n)])
  }

  /** The tree with everything at and below `p` gone. */
  function Cut(t: Node, p: Path): Node
    requires p != []
    decreases |p|
  {
    if !t.Dir? || p[0] !in t.entries then t
    else if |p| == 1 then Dir(t.entries - {p[0]})
    else Dir(t.entries[p[0] := Cut(t.entries[p[0]], p[1..])])
  }

  lemma ParentBelow(t: Node, p: Path)
    requires |p| > 1 && IsDir(t, Parent(p))
    ensures t.Dir? && p[0] in t.entries && IsDir(t.entries[p[0]], Parent(p[1..]))
  {
    assert Parent(p)[1..] == Parent(p[1..]);
  }

  /** `a` is `b` with some entries, possibly deep ones, removed: an unfinished removal. */
  predicate Pruned(a: Node, b: Node) {
    a == b || (a.Dir? && b.Dir? && a.entries.Keys <= b.entries.Keys &&
               forall k | k in a.entries :: Pruned(a.entries[k], b.entries[k]))
  }

  /** Every difference between the two trees lies on the line of `p`: above, at or below it. */
  ghost predicate OnlyAt(t: Node, t': Node, p: Path) {
    forall q: Path :: Apart(q, p) ==> Lookup(t', q) == Lookup(t, q)
  }

  /** As `OnlyAt`, and what lies strictly below `p` is the same too. */
  ghost predicate OnlyAbove(t: Node, t': Node, p: Path) {
    forall q: Path :: !(q <= p) ==> Lookup(t', q) == Lookup(t, q)
  }

  lemma PrefixTail(p: Path, q: Path)
    requires p != [] && q != [] && p[0] == q[0]
    ensures p <= q <==> p[1..] <= q[1..]
  {
    assert p == [p[0]] + p[1..] && q == [q[0]] + q[1..];
  }

  /** A path apart from `p` is apart from everything below `p`. */
  lemma ApartBelow(q: Path, p: Path, r: Path)
    requires Apart(q, p) && p <= r
    ensures Apart(q, r)
  {
  }

  lemma {:induction false} LookupSplit(t: Node, p: Path, q: Path)
    requires p <= q
    ensures Lookup(t, q) == (if Lookup(t, p).Some? then Lookup(Lookup(t, p).value, q[|p|..]) else None)
    decreases |p|
  {
    if p == [] {
    } else if t.Dir? && p[0] in t.entries {
      PrefixTail(p, q);
      LookupSplit(t.entries[p[0]], p[1..], q[1..]);
      assert q[1..][|p[1..]|..] == q[|p|..];
    }
  }

  /** Whatever is there lies in a directory. */
  lemma ParentOf(t: Node, p: Path)
    requires p != [] && Lookup(t, p).Some?
    ensures IsDir(t, Parent(p))
  {
    LookupSplit(t, Parent(p), p);
  }

  lemma {:induction false} PutLookup(t: Node, p: Path, n: Node, q: Path)
    requires p != [] && IsDir(t, Parent(p))
    ensures p <= q ==> Lookup(Put(t, p, n), q) == Lookup(n, q[|p|..])
    ensures Apart(p, q) ==> Lookup(Put(t, p, n), q) == Lookup(t, q)
    ensures q < p ==> IsDir(Put(t, p, n), q)
    decreases |p|
  {
    if |p| > 1 { ParentBelow(t, p); }
    if q != [] && q[0] == p[0] {
      PrefixTail(p, q);
      PrefixTail(q, p);
      if |p| == 1 {
        assert p <= q;
      } else {
        PutLookup(t.entries[p[0]], p[1..], n, q[1..]);
        if p <= q { assert q[1..][|p[1..]|..] == q[|p|..]; }
      }
    }
  }

  lemma {:induction false} CutLookup(t: Node, p: Path, q: Path)
    requires p != []
    ensures p <= q ==> Lookup(Cut(t, p), q) == None
    ensures Apart(p, q) ==> Lookup(Cut(t, p), q) == Lookup(t, q)
    ensures q < p ==> (IsDir(Cut(t, p), q) <==> IsDir(t, q))
    decreases |p|
  {
    if q != [] && q[0] == p[0] {
      PrefixTail(p, q);
      PrefixTail(q, p);
      if t.Dir? && p[0] in t.entries && |p| > 1 {
        CutLookup(t.entries[p[0]], p[1..], q[1..]);
      } else if |p| == 1 {
        assert p <= q;
      }
    }
  }

  lemma PutFrame(t: Node, p: Path, n: Node)
    requires p != [] && IsDir(t, Parent(p))
    ensures OnlyAt(t, Put(t, p, n), p) && DirsKept(t, Put(t, p, n), p)
    ensures Lookup(Put(t, p, n), p) == Some(n)
    ensures Put(t, p, n).Dir?
  {
    forall q: Path ensures Apart(q, p) ==> Lookup(Put(t, p, n), q) == Lookup(t, q) { PutLookup(t, p, n, q); }
    forall q: Path | IsDir(t, q) && !(p <= q) ensures IsDir(Put(t, p, n), q) { PutLookup(t, p, n, q); }
    PutLookup(t, p, n, p);
  }

  /** Changing what is at `p` clears or blocks no way that does not lead through `p`. */
  lemma PutClear(t: Node, p: Path, n: Node)
    requires p != [] && IsDir(t, Parent(p))
    ensures forall q: Path :: Clear(t, q) && !(p <= q) ==> Clear(Put(t, p, n), q)
  {
    forall q: Path, r: Path | Clear(t, q) && !(p <= q) && r <= q && Lookup(Put(t, p, n), r).Some?
      ensures IsDir(Put(t, p, n), r)
    {
      PutLookup(t, p, n, r);
    }
  }

  /** A new directory blocks no way. */
  lemma MkdirClear(t: Node, p: Path)
    requires p != [] && IsDir(t, Parent(p)) && Lookup(t, p) == None
    ensures forall q: Path :: Clear(t, q) ==> Clear(Put(t, p, EMPTY_DIR), q)
  {
    forall q: Path, r: Path | Clear(t, q) && r <= q && Lookup(Put(t, p, EMPTY_DIR), r).Some?
      ensures IsDir(Put(t, p, EMPTY_DIR), r)
    {
      PutLookup(t, p, EMPTY_DIR, r);
    }
  }

  lemma {:induction false} PrunedLookup(a: Node, b: Node, q: Path)
    requires Pruned(a, b) && Lookup(b, q).None?
    ensures Lookup(a, q).None?
    decreases |q|
  {
    if q != [] && a.Dir? && q[0] in a.entries && a != b { PrunedLookup(a.entries[q[0]], b.entries[q[0]], q[1..]); }
  }

  /** Leaving a pruned part, or nothing, at `p` adds nothing anywhere. */
  lemma PruneRemoves(t: Node, p: Path, left: Node)
    requires p != [] && IsDir(t, Parent(p)) && Lookup(t, p).Some? && Pruned(left, Lookup(t, p).value)
    ensures OnlyRemoves(t, Put(t, p, left))
  {
    forall q: Path | Lookup(t, q).None? ensures Lookup(Put(t, p, left), q).None? {
      PutLookup(t, p, left, q);
      if p <= q {
        LookupSplit(t, p, q);
        PrunedLookup(left, Lookup(t, p).value, q[|p|..]);
      } else if q <= p {
        LookupSplit(t, q, p);
      }
    }
  }

  lemma CutRemoves(t: Node, p: Path)
    requires p != []
    ensures OnlyRemoves(t, Cut(t, p))
  {
    forall q: Path | Lookup(t, q).None? ensures Lookup(Cut(t, p), q).None? { CutNothing(t, p, q); }
  }

  lemma {:induction false} CutNothing(t: Node, p: Path, q: Path)
    requires p != [] && Lookup(t, q).None?
    ensures Lookup(Cut(t, p), q).None?
    decreases |p|
  {
    if q != [] && t.Dir? && p[0] in t.entries && |p| > 1 && q[0] == p[0] {
      CutNothing(t.entries[p[0]], p[1..], q[1..]);
    }
  }

  /** Creating a file or an empty directory where nothing was changes no other lookup below. */
  lemma CreateFrame(t: Node, p: Path, n: Node)
    requires p != [] && IsDir(t, Parent(p)) && Lookup(t, p) == None
    requires n.File? || n == EMPTY_DIR
    ensures OnlyAbove(t, Put(t, p, n), p)
    ensures Lookup(Put(t, p, n), p) == Some(n)
    ensures forall q: Path :: IsDir(t, q) ==> IsDir(Put(t, p, n), q)
  {
    forall q: Path ensures !(q <= p) ==> Lookup(Put(t, p, n), q) == Lookup(t, q) {
      PutLookup(t, p, n, q);
      if p <= q { LookupSplit(t, p, q); }
    }
    forall q: Path | IsDir(t, q) ensures IsDir(Put(t, p, n), q) {
      PutLookup(t, p, n, q);
      if p <= q { LookupSplit(t, p, q); }
    }
    PutLookup(t, p, n, p);
  }

  lemma CutFrame(t: Node, p: Path)
    requires p != []
    ensures OnlyAt(t, Cut(t, p), p) && DirsKept(t, Cut(t, p), p)
    ensures Lookup(Cut(t, p), p) == None
    ensures t.Dir? ==> Cut(t, p).Dir?
  {
    forall q: Path ensures Apart(q, p) ==> Lookup(Cut(t, p), q) == Lookup(t, q) { CutLookup(t, p, q); }
    forall q: Path | IsDir(t, q) && !(p <= q) ensures IsDir(Cut(t, p), q) { CutLookup(t, p, q); }
    CutLookup(t, p, p);
  }

  /** What a rename does to the tree, seen through `Lookup`. */
  lemma MoveFrame(t: Node, src: Path, dst: Path)
    requires src != [] && dst != [] && Apart(src, dst)
    requires Lookup(t, src).Some? && IsDir(t, Parent(dst))
    ensures IsDir(Cut(t, src), Parent(dst))
    ensures var t' := Put(Cut(t, src), dst, Lookup(t, src).value);
            && Lookup(t', src) == None
            && Lookup(t', dst) == Lookup(t, src)
            && t'.Dir?
            && (forall q: Path :: Apart(q, src) && Apart(q, dst) ==> Lookup(t', q) == Lookup(t, q))
            && (forall q: Path :: IsDir(t, q) && !(src <= q) && !(dst <= q) ==> IsDir(t', q))
  {
    var up := Parent(dst);
    assert src <= up ==> src <= dst;
    CutLookup(t, src, up);
    assert IsDir(Cut(t, src), up);
    CutFrame(t, src);
    PutFrame(Cut(t, src), dst, Lookup(t, src).value);
  }
}
