/**
 The staged swap of three targets and its fallible undo (tools/source-update/install.go).
 Each entry owns a workspace beside its target; `backedUp` and `installed` record how far
 the swap of that entry went. The contracts say where every original lies, in the final
 state and in every state a crash could expose.
 */
module Install {
  import opened Wrappers
  import opened FileTree
  import opened FileSystems

  const CONFIG: Path := ["config", "manifests", "mcp-lifecycle-operator"]
  const INSTALLER: Path := ["internal", "controller", "resources", "mcp-lifecycle-operator.yaml"]
  const IMAGE_PIN: Path := ["operand-image.json"]
  const WORKSPACE_PREFIX := ".operand-install-"
  const RESTORE_PREFIX := ".operand-restore-"

  datatype Item = Item(target: Path, staged: Path, dir: bool)

  datatype InstallEntry = InstallEntry(
    target: Path, workspace: Path, output: Path, backup: Path, backedUp: bool, installed: bool)

  datatype Cause = LstatFailure(at: Path) | BackupFailure(at: Path) | InstallFailure(at: Path)

  /** What a rollback could not do; the first two name the backup that still holds an original. */
  datatype Complaint =
    | RemoveFailure(target: Path, retained: Option<Path>)
    | RestoreFailure(retainedAt: Path)
    | CleanupFailure(workspace: Path)

  datatype InstallResult =
    | Installed(warnings: seq<Complaint>)
    | StagingFailed(leftovers: seq<Complaint>)
    | RolledBack(cause: Cause, recovery: seq<Complaint>)

  /** The call whose failure a complaint reports. */
  function Origin(c: Complaint): Fault {
    match c
    case RemoveFailure(target, _) => Fault(RemoveAllOp, target)
    case RestoreFailure(at) => Fault(RenameOp, at)
    case CleanupFailure(workspace) => Fault(RemoveAllOp, workspace)
  }

  predicate Named(p: Path, name: string) { p != [] && p[|p| - 1] == name }

  /** Every complaint stems from a failure of its own call since `from`. */
  ghost predicate Blamed(from: seq<Fault>, to: seq<Fault>, cs: seq<Complaint>) {
    && from <= to
    && forall c :: c in cs ==> Hit(from, to, Origin(c)) && (c.RestoreFailure? ==> Named(c.retainedAt, "backup"))
  }

  /** The failing call behind the cause of a rollback. */
  ghost predicate CauseHit(from: seq<Fault>, to: seq<Fault>, cause: Cause, es: seq<InstallEntry>) {
    match cause
    case LstatFailure(at) => Hit(from, to, Fault(StatOp, at))
    case BackupFailure(at) => Hit(from, to, Fault(RenameOp, at))
    case InstallFailure(at) => exists k ::
        0 <= k < |es| && es[k].target == at && Hit(from, to, Fault(RenameOp, es[k].output))
  }

  /** A failure that stops the staging of `item`. */
  predicate StagingFault(item: Item, f: Fault)
    requires item.target != []
  {
    var up := Parent(item.target);
    || f == Fault(MkdirOp, up) || f == Fault(CreateOp, up + [WORKSPACE_PREFIX])
    || (f.op.CopyOp? && Named(f.path, "output") && NamedIn(Parent(f.path), up, WORKSPACE_PREFIX))
  }

  ghost predicate StagingHit(from: seq<Fault>, to: seq<Fault>, item: Item)
    requires item.target != []
  {
    from <= to && exists k {:trigger to[k]} :: |from| <= k < |to| && StagingFault(item, to[k])
  }

  predicate SourceFits(t: Node, item: Item) {
    if item.dir then IsDir(t, item.staged) else IsFile(t, item.staged)
  }

  /** The staged output can be copied, and nothing stands in the way of the target's directory. */
  ghost predicate Stageable(t: Node, item: Item)
    requires item.target != []
  {
    SourceFits(t, item) && Clear(t, Parent(item.target))
  }

  // ---------------------------------------------------------------- layout

  predicate TempName(name: string) {
    WORKSPACE_PREFIX <= name || RESTORE_PREFIX <= name
  }

  /** `q` is, or lies in, a temporary file or directory the updater makes inside `root`. */
  predicate OwnTemp(root: Path, q: Path) {
    root <= q && exists k :: |root| <= k < |q| && TempName(q[k])
  }

  function Items(root: Path, stagedConfig: Path, stagedInstaller: Path, stagedPin: Path): seq<Item> {
    [Item(root + CONFIG, stagedConfig, true),
     Item(root + INSTALLER, stagedInstaller, false),
     Item(root + IMAGE_PIN, stagedPin, false)]
  }

  ghost predicate GoodItems(root: Path, items: seq<Item>) {
    && (forall i :: 0 <= i < |items| ==>
         root < items[i].target && !OwnTemp(root, items[i].target) && Apart(items[i].staged, root))
    && (forall i, j :: 0 <= i < j < |items| ==> Apart(items[i].target, items[j].target))
  }

  /** Paths the swap must not disturb while staging: each target, and whatever is apart from all of them. */
  ghost predicate Outside(root: Path, items: seq<Item>, q: Path) {
    !OwnTemp(root, q) && forall i :: 0 <= i < |items| ==> q == items[i].target || Apart(q, items[i].target)
  }

  ghost predicate Kept(t: Node, t': Node, root: Path, items: seq<Item>) {
    forall q: Path :: Outside(root, items, q) ==> Lookup(t', q) == Lookup(t, q)
  }

  /** Paths the swap must never disturb at all. */
  ghost predicate Foreign(root: Path, items: seq<Item>, q: Path) {
    !OwnTemp(root, q) && forall i :: 0 <= i < |items| ==> Apart(q, items[i].target)
  }

  ghost predicate ForeignKept(t: Node, t': Node, root: Path, items: seq<Item>) {
    forall q: Path :: Foreign(root, items, q) ==> Lookup(t', q) == Lookup(t, q)
  }

  ghost predicate Shaped(e: InstallEntry) {
    && e.target != [] && e.workspace != [] && Apart(e.target, e.workspace)
    && e.output == e.workspace + ["output"] && e.backup == e.workspace + ["backup"]
  }

  /** The entries' targets and workspaces are pairwise apart. */
  ghost predicate Layout(es: seq<InstallEntry>) {
    && (forall i :: 0 <= i < |es| ==> Shaped(es[i]))
    && (forall i, j :: 0 <= i < |es| && 0 <= j < |es| && i != j ==>
          Apart(es[i].target, es[j].target) && Apart(es[i].workspace, es[j].workspace) &&
          Apart(es[i].workspace, es[j].target))
  }

  ghost predicate SamePaths(a: InstallEntry, b: InstallEntry) {
    a.target == b.target && a.workspace == b.workspace && a.output == b.output && a.backup == b.backup
  }

  ghost predicate SameAllPaths(xs: seq<InstallEntry>, ys: seq<InstallEntry>) {
    |xs| == |ys| && forall i :: 0 <= i < |xs| ==> SamePaths(xs[i], ys[i])
  }

  /** The entries are the items', each with a workspace of the updater's own beside its target. */
  ghost predicate EntriesOf(root: Path, items: seq<Item>, es: seq<InstallEntry>) {
    && |es| <= |items| && Layout(es)
    && forall i :: 0 <= i < |es| ==>
         es[i].target == items[i].target && NamedIn(es[i].workspace, Parent(es[i].target), WORKSPACE_PREFIX)
  }

  /** What a successful staging of `item` puts in the workspace. */
  ghost function Image(t: Node, item: Item, umask: Mode): Option<Node> {
    match Lookup(t, item.staged)
    case None => None
    case Some(n) => if item.dir then Some(CopiedTree(n, umask)) else if n.File? then Some(CopiedFile(n, umask))
        else None
  }

  // ---------------------------------------------------------------- the protocol's state

  /** The flags say exactly where the original and the staged copy lie. */
  ghost predicate Tracks(t: Node, e: InstallEntry, original: Option<Node>, image: Node) {
    && (e.backedUp ==> original.Some?)
    && Lookup(t, e.backup) == (if e.backedUp then original else None)
    && (e.installed ==> (e.backedUp <==> original.Some?) && Lookup(t, e.target) == Some(image))
    && (!e.installed ==>
          Lookup(t, e.target) == (if e.backedUp then None else original) && Lookup(t, e.output) == Some(image))
  }

  /** The original is whole, at its target or at its backup. */
  ghost predicate Safe(t: Node, e: InstallEntry, original: Option<Node>) {
    original.Some? ==> Lookup(t, e.target) == original || Lookup(t, e.backup) == original
  }

  ghost predicate AllSafe(t: Node, es: seq<InstallEntry>, originals: seq<Option<Node>>) {
    |es| == |originals| && forall k :: 0 <= k < |es| ==> Safe(t, es[k], originals[k])
  }

  ghost predicate SafeSince(from: seq<Node>, to: seq<Node>, es: seq<InstallEntry>, originals: seq<Option<Node>>) {
    from <= to && forall k {:trigger to[k]} :: |from| <= k < |to| ==> AllSafe(to[k], es, originals)
  }

  /** Some complaint about this target or its backup tells the operator that `backup` still holds the original. */
  ghost predicate Names(recovery: seq<Complaint>, target: Path, backup: Path) {
    RestoreFailure(backup) in recovery || RemoveFailure(target, Some(backup)) in recovery
  }

  /** The entry after a rollback: restored, or reported with its original still at the backup. */
  ghost predicate Undone(t: Node, e: InstallEntry, original: Option<Node>, recovery: seq<Complaint>) {
    && (e.backedUp ==> original.Some? && Lookup(t, e.backup) == original && Names(recovery, e.target, e.backup))
    && (!e.backedUp ==> Lookup(t, e.backup).None?)
    && (!e.backedUp ==>
          Lookup(t, e.target) == original || (original.None? && RemoveFailure(e.target, None) in recovery))
  }

  /** Differences only on the lines of the entry's own target and workspace. */
  ghost predicate Confined(t: Node, t': Node, e: InstallEntry) {
    forall q: Path :: Apart(q, e.target) && Apart(q, e.workspace) ==> Lookup(t', q) == Lookup(t, q)
  }

  /** Every state since `from` is confined to `e` and keeps its original safe. */
  ghost predicate StepsOf(before: Node, from: seq<Node>, to: seq<Node>, e: InstallEntry, original: Option<Node>) {
    from <= to && forall k {:trigger to[k]} :: |from| <= k < |to| ==>
        Confined(before, to[k], e) && Safe(to[k], e, original)
  }

  /** `p` has the name of a workspace beside one of the targets. */
  ghost predicate Beside(items: seq<Item>, p: Path)
    requires forall i :: 0 <= i < |items| ==> items[i].target != []
  {
    exists j :: 0 <= j < |items| && NamedIn(p, Parent(items[j].target), WORKSPACE_PREFIX)
  }

  /** `p` has the name of a workspace and lies in none. */
  predicate WorkspaceName(root: Path, p: Path) {
    root < p && WORKSPACE_PREFIX <= p[|p| - 1] && !OwnTemp(root, Parent(p))
  }

  /** No workspace but those made is different. */
  ghost predicate WorkspacesKept(root: Path, t: Node, t': Node, made: set<Path>) {
    forall p: Path :: WorkspaceName(root, p) && p !in made ==> Lookup(t', p) == Lookup(t, p)
  }

  function Unswept(report: seq<Complaint>): set<Path> {
    set c | c in report && c.CleanupFailure? :: c.workspace
  }

  /** Ways that lead through no temporary directory stay clear. */
  ghost predicate ClearKept(root: Path, t: Node, t': Node) {
    forall q: Path :: !OwnTemp(root, q) && Clear(t, q) ==> Clear(t', q)
  }

  /** The workspaces that were not there before are the entries'. */
  ghost predicate OnlyEntries(t0: Node, t: Node, items: seq<Item>, es: seq<InstallEntry>)
    requires forall i :: 0 <= i < |items| ==> items[i].target != []
  {
    forall p: Path :: Beside(items, p) && Lookup(t0, p).None? && Lookup(t, p).Some? ==> exists k ::
        0 <= k < |es| && p == es[k].workspace
  }

  /** Every workspace that was not there before is gone, reported, or keeps an original. */
  ghost predicate Swept(t0: Node, t: Node, items: seq<Item>, report: seq<Complaint>, es: seq<InstallEntry>)
    requires forall i :: 0 <= i < |items| ==> items[i].target != []
  {
    forall p: Path :: Beside(items, p) && Lookup(t0, p).None? && Lookup(t, p).Some? ==>
      CleanupFailure(p) in report || exists k :: 0 <= k < |es| && es[k].backedUp && p == es[k].workspace
  }

  // ---------------------------------------------------------------- frame lemmas

  lemma ItemsAreGood(root: Path, stagedConfig: Path, stagedInstaller: Path, stagedPin: Path)
    requires Apart(stagedConfig, root) && Apart(stagedInstaller, root) && Apart(stagedPin, root)
    ensures GoodItems(root, Items(root, stagedConfig, stagedInstaller, stagedPin))
  {
    var items := Items(root, stagedConfig, stagedInstaller, stagedPin);
    assert items[0].target[|root|] == "config";
    assert items[1].target[|root|] == "internal";
    assert items[2].target[|root|] == "operand-image.json";
    forall i | 0 <= i < |items| ensures !OwnTemp(root, items[i].target) {
      var tail := if i == 0 then CONFIG else if i == 1 then INSTALLER else IMAGE_PIN;
      assert items[i].target == root + tail;
      forall k | |root| <= k < |items[i].target| ensures !TempName(items[i].target[k]) {
        assert items[i].target[k] == tail[k - |root|];
        assert tail[k - |root|][0] != '.';
      }
    }
  }

  /** A workspace of one target is apart from every path the swap must leave alone. */
  lemma WorkspaceApart(root: Path, target: Path, ws: Path, q: Path)
    requires root < target && NamedIn(ws, Parent(target), WORKSPACE_PREFIX)
    requires !OwnTemp(root, q) && (q == target || Apart(q, target))
    ensures Apart(ws, q)
  {}

  /** Two workspaces are apart when the second was made while the first existed. */
  lemma FreshWorkspaceApart(t: Node, target1: Path, ws1: Path, target2: Path, ws2: Path)
    requires target1 != [] && target2 != []
    requires NamedIn(ws1, Parent(target1), WORKSPACE_PREFIX) && NamedIn(ws2, Parent(target2), WORKSPACE_PREFIX)
    requires Lookup(t, ws1).Some? && Lookup(t, ws2).None?
    requires Apart(ws1, target2) && Apart(ws2, target1)
    ensures Apart(ws1, ws2)
  {
    assert |ws1| < |ws2| && ws1 <= ws2 ==> ws1 <= target2;
    assert |ws2| < |ws1| && ws2 <= ws1 ==> ws2 <= target1;
    assert |ws1| == |ws2| && (ws1 <= ws2 || ws2 <= ws1) ==> ws1 == ws2;
  }

  lemma ApartFromEntry(q: Path, e: InstallEntry)
    requires Shaped(e) && Apart(q, e.workspace)
    ensures Apart(q, e.output) && Apart(q, e.backup)
  {
    ApartBelow(q, e.workspace, e.output);
    ApartBelow(q, e.workspace, e.backup);
  }

  /** A step confined to one entry leaves all paths of the others alone. */
  lemma OthersKept(t: Node, t': Node, es: seq<InstallEntry>, i: int)
    requires Layout(es) && 0 <= i < |es| && Confined(t, t', es[i])
    ensures forall k :: 0 <= k < |es| && k != i ==>
      && Lookup(t', es[k].target) == Lookup(t, es[k].target)
      && Lookup(t', es[k].output) == Lookup(t, es[k].output)
      && Lookup(t', es[k].backup) == Lookup(t, es[k].backup)
  {
    forall k | 0 <= k < |es| && k != i
      ensures Lookup(t', es[k].target) == Lookup(t, es[k].target)
      ensures Lookup(t', es[k].output) == Lookup(t, es[k].output)
      ensures Lookup(t', es[k].backup) == Lookup(t, es[k].backup)
    {
      ApartFromEntry(es[i].target, es[k]);
      ApartFromEntry(es[i].workspace, es[k]);
    }
  }

  /** A run of steps confined to entry `i` that keeps its original keeps everybody's. */
  lemma StepsSafe(before: Node, from: seq<Node>, to: seq<Node>, es: seq<InstallEntry>, originals: seq<Option<Node>>,
                  i: int)
    requires Layout(es) && 0 <= i < |es| && AllSafe(before, es, originals)
    requires StepsOf(before, from, to, es[i], originals[i])
    ensures SafeSince(from, to, es, originals)
  {
    forall k | |from| <= k < |to| ensures AllSafe(to[k], es, originals) {
      OthersKept(before, to[k], es, i);
    }
  }

  lemma ConfinedIsForeignKept(t: Node, t': Node, root: Path, items: seq<Item>, es: seq<InstallEntry>, i: int)
    requires GoodItems(root, items) && EntriesOf(root, items, es) && 0 <= i < |es| && Confined(t, t', es[i])
    ensures ForeignKept(t, t', root, items)
  {
    forall q: Path | Foreign(root, items, q) ensures Lookup(t', q) == Lookup(t, q) {
      WorkspaceApart(root, es[i].target, es[i].workspace, q);
    }
  }

  /** Restored or reported: an empty report means every target is as it was. */
  lemma EmptyReportMeansRestored(t: Node, es: seq<InstallEntry>, originals: seq<Option<Node>>, recovery: seq<Complaint>)
    requires |es| == |originals| && recovery == []
    requires forall k :: 0 <= k < |es| ==> Undone(t, es[k], originals[k], recovery)
    ensures forall k :: 0 <= k < |es| ==> !es[k].backedUp && Lookup(t, es[k].target) == originals[k]
  {}

  lemma AboveTargetKept(t: Node, t': Node, root: Path, item: Item)
    requires GoodItems(root, [item]) && item.target != [] && OnlyAbove(t, t', Parent(item.target))
    ensures Kept(t, t', root, [item])
  {
    forall q: Path | Outside(root, [item], q) ensures Lookup(t', q) == Lookup(t, q) {
      assert q == [item][0].target || Apart(q, [item][0].target);
      assert !(q <= Parent(item.target));
    }
  }

  lemma WorkspaceLineKept(t: Node, t': Node, root: Path, item: Item, ws: Path, p: Path)
    requires GoodItems(root, [item]) && item.target != []
    requires NamedIn(ws, Parent(item.target), WORKSPACE_PREFIX) && ws <= p && OnlyAt(t, t', p)
    ensures Kept(t, t', root, [item])
  {
    assert [item][0] == item;
    forall q: Path | Outside(root, [item], q) ensures Lookup(t', q) == Lookup(t, q) {
      assert q == [item][0].target || Apart(q, [item][0].target);
      WorkspaceApart(root, item.target, ws, q);
      ApartBelow(q, ws, p);
    }
  }

  ghost predicate KeptSince(before: Node, from: seq<Node>, to: seq<Node>, root: Path, items: seq<Item>) {
    from <= to && forall k {:trigger to[k]} :: |from| <= k < |to| ==> Kept(before, to[k], root, items)
  }

  lemma WorkspaceStatesKept(before: Node, from: seq<Node>, to: seq<Node>, root: Path, item: Item, ws: Path, p: Path)
    requires GoodItems(root, [item]) && item.target != []
    requires NamedIn(ws, Parent(item.target), WORKSPACE_PREFIX) && ws <= p && StatesOnlyAt(before, from, to, p)
    ensures KeptSince(before, from, to, root, [item])
  {
    forall k | |from| <= k < |to| ensures Kept(before, to[k], root, [item]) {
      WorkspaceLineKept(before, to[k], root, item, ws, p);
    }
  }

  lemma KeptJoins(t: Node, t1: Node, h: seq<Node>, h1: seq<Node>, h2: seq<Node>, root: Path, items: seq<Item>)
    requires Kept(t, t1, root, items) && KeptSince(t, h, h1, root, items) && KeptSince(t1, h1, h2, root, items)
    ensures KeptSince(t, h, h2, root, items)
  {}

  lemma StagedSourceApart(root: Path, item: Item, p: Path)
    requires GoodItems(root, [item]) && root <= p
    ensures Apart(item.staged, p)
  {
    assert [item][0] == item;
    ApartBelow(item.staged, root, p);
  }

  // ---------------------------------------------------------------- the operations

  /** Making directories above a workspace's place changes no workspace. */
  lemma AboveSparesWorkspaces(root: Path, t: Node, t': Node, up: Path)
    requires root <= up && !OwnTemp(root, up) && OnlyAbove(t, t', up)
    ensures WorkspacesKept(root, t, t', {})
  {
    forall p: Path | WorkspaceName(root, p) ensures Lookup(t', p) == Lookup(t, p) {
      assert TempName(p[|p| - 1]);
    }
  }

  /** What happens in or to one workspace changes no other. */
  lemma OtherWorkspaceApart(root: Path, up: Path, ws: Path, p: Path)
    requires root <= up && !OwnTemp(root, up) && NamedIn(ws, up, WORKSPACE_PREFIX) && WorkspaceName(root, p) && p != ws
    ensures Apart(p, ws)
  {
    assert TempName(p[|p| - 1]) && TempName(ws[|ws| - 1]);
  }

  lemma LineSparesWorkspaces(root: Path, t: Node, t': Node, up: Path, ws: Path, q: Path)
    requires root <= up && !OwnTemp(root, up) && NamedIn(ws, up, WORKSPACE_PREFIX) && ws <= q && OnlyAt(t, t', q)
    ensures WorkspacesKept(root, t, t', {ws})
  {
    forall p: Path | WorkspaceName(root, p) && p != ws ensures Lookup(t', p) == Lookup(t, p) {
      OtherWorkspaceApart(root, up, ws, p);
      ApartBelow(p, ws, q);
    }
  }

  lemma CreateSparesWorkspaces(root: Path, t: Node, t': Node, up: Path, ws: Path)
    requires root <= up && !OwnTemp(root, up) && NamedIn(ws, up, WORKSPACE_PREFIX) && OnlyAbove(t, t', ws)
    ensures WorkspacesKept(root, t, t', {ws})
  {
    forall p: Path | WorkspaceName(root, p) && p != ws ensures Lookup(t', p) == Lookup(t, p) {
      OtherWorkspaceApart(root, up, ws, p);
    }
  }

  /** The target's directory and an empty workspace in it; only a failing call or a file in the way stops that. */
  method MakeWorkspace(fs: FileSystem, root: Path, item: Item) returns (ws: Option<Path>)
    requires fs.Valid() && GoodItems(root, [item]) && item.target != []
    modifies fs
    ensures fs.Valid() && Kept(old(fs.root), fs.root, root, [item])
    ensures KeptSince(old(fs.root), old(fs.history), fs.history, root, [item])
    ensures ws.Some? ==>
              && NamedIn(ws.value, Parent(item.target), WORKSPACE_PREFIX)
              && Lookup(old(fs.root), ws.value).None? && Lookup(fs.root, ws.value) == Some(EMPTY_DIR)
              && Lookup(fs.root, item.staged) == Lookup(old(fs.root), item.staged)
              && ClearKept(root, old(fs.root), fs.root)
              && (forall q: Path :: Apart(q, item.target) && Apart(q, ws.value) ==>
                   Lookup(fs.root, q) == Lookup(old(fs.root), q))
    ensures WorkspacesKept(root, old(fs.root), fs.root, if ws.Some? then {ws.value} else {})
    ensures ws.Some? ==> fs.faults == old(fs.faults)
    ensures ws.None? ==>
              old(fs.faults) <= fs.faults &&
              (StagingHit(old(fs.faults), fs.faults, item) || !Clear(old(fs.root), Parent(item.target)))
  {
    var up := Parent(item.target);
    ghost var t0, h0, f0 := fs.root, fs.history, fs.faults;
    assert item == [item][0];
    UpIsPlain(root, item.target);
    var made := fs.MkdirAll(up);
    forall k | |h0| <= k < |fs.history| ensures Kept(t0, fs.history[k], root, [item]) {
      AboveTargetKept(t0, fs.history[k], root, item);
    }
    AboveTargetKept(t0, fs.root, root, item);
    AboveSparesWorkspaces(root, t0, fs.root, up);
    if !made {
      if fs.faults != f0 { assert fs.faults[|f0|] == Fault(MkdirOp, up); }
      return None;
    }
    StagedSourceApart(root, item, up);
    ghost var t1, h1 := fs.root, fs.history;
    ws := fs.Create(up, WORKSPACE_PREFIX, EMPTY_DIR);
    if ws.None? {
      assert fs.faults[|f0|] == Fault(CreateOp, up + [WORKSPACE_PREFIX]);
      return;
    }
    StagedSourceApart(root, item, ws.value);
    WorkspaceLineKept(t1, fs.root, root, item, ws.value, ws.value);
    KeptJoins(t0, t1, h0, h1, fs.history, root, [item]);
    CreateSparesWorkspaces(root, t1, fs.root, up, ws.value);
    SourceStays(t0, t1, fs.root, item, up, ws.value);
  }

  /** Stages one item: the target's directory, a workspace in it, and a copy of the output. */
  method StageItem(fs: FileSystem, root: Path, item: Item)
    returns (entry: Option<InstallEntry>, leftovers: seq<Complaint>)
    requires fs.Valid() && GoodItems(root, [item]) && item.target != []
    modifies fs
    ensures fs.Valid()
    ensures Kept(old(fs.root), fs.root, root, [item])
    ensures KeptSince(old(fs.root), old(fs.history), fs.history, root, [item])
    ensures entry.Some? ==>
              && StagedEntry(entry.value, item)
              && Lookup(old(fs.root), entry.value.workspace).None?
              && HoldsStaged(fs.root, entry.value, Image(old(fs.root), item, fs.umask))
              && Confined(old(fs.root), fs.root, entry.value) && ClearKept(root, old(fs.root), fs.root)
    ensures entry.None? ==> StagingHit(old(fs.faults), fs.faults, item) || !Stageable(old(fs.root), item)
    ensures Blamed(old(fs.faults), fs.faults, leftovers) && (entry.Some? ==> leftovers == [])
    ensures WorkspacesKept(root, old(fs.root), fs.root, if entry.Some? then {entry.value.workspace}
              else Unswept(leftovers))
  {
    entry, leftovers := None, [];
    ghost var t0, h0 := fs.root, fs.history;
    assert item == [item][0];
    var ws := MakeWorkspace(fs, root, item);
    if ws.None? { return; }
    ghost var t1, h1 := fs.root, fs.history;
    var e := InstallEntry(item.target, ws.value, ws.value + ["output"], ws.value + ["backup"], false, false);
    WorkspaceApart(root, item.target, ws.value, item.target);
    var copied;
    copied, leftovers := FillWorkspace(fs, root, item, e);
    KeptJoins(t0, t1, h0, h1, fs.history, root, [item]);
    if copied { entry := Some(e); }
  }

  lemma UpIsPlain(root: Path, target: Path)
    requires root < target && !OwnTemp(root, target)
    ensures root <= Parent(target) && !OwnTemp(root, Parent(target))
  {}

  lemma SourceStays(t0: Node, t1: Node, t2: Node, item: Item, up: Path, ws: Path)
    requires Apart(item.staged, up) && Apart(item.staged, ws) && OnlyAbove(t0, t1, up) && OnlyAbove(t1, t2, ws)
    ensures Lookup(t2, item.staged) == Lookup(t0, item.staged)
  {}

  ghost predicate StagedEntry(e: InstallEntry, item: Item)
    requires item.target != []
  {
    Shaped(e) && e.target == item.target && !e.backedUp && !e.installed &&
        NamedIn(e.workspace, Parent(item.target), WORKSPACE_PREFIX)
  }

  ghost predicate HoldsStaged(t: Node, e: InstallEntry, image: Option<Node>) {
    IsDir(t, e.workspace) && Lookup(t, e.backup).None? && image.Some? && Lookup(t, e.output) == image
  }

  method CopyStaged(fs: FileSystem, item: Item, dst: Path) returns (ok: bool)
    requires fs.Valid() && dst != []
    modifies fs
    ensures fs.Valid() && OnlyAt(old(fs.root), fs.root, dst) &&
              StatesOnlyAt(old(fs.root), old(fs.history), fs.history, dst)
    ensures ok ==>
              Image(old(fs.root), item, fs.umask).Some? && Lookup(fs.root, dst) == Image(old(fs.root), item, fs.umask)
    ensures forall q: Path :: Clear(old(fs.root), q) && !(dst <= q) ==> Clear(fs.root, q)
    ensures fs.faults == if !ok && SourceFits(old(fs.root), item) && IsDir(old(fs.root), Parent(dst))
              then old(fs.faults) + [Fault(CopyOp, dst)]
                         else old(fs.faults)
  {
    if item.dir {
      ok := fs.CopyTree(item.staged, dst);
    } else {
      ok := fs.CopyFile(item.staged, dst);
    }
  }

  /** Copies the staged output into a new workspace, or tries to remove the workspace again. */
  method FillWorkspace(fs: FileSystem, root: Path, item: Item, e: InstallEntry)
    returns (copied: bool, leftovers: seq<Complaint>)
    requires fs.Valid() && GoodItems(root, [item]) && item.target != [] && StagedEntry(e, item)
    requires Lookup(fs.root, e.workspace) == Some(EMPTY_DIR)
    modifies fs
    ensures fs.Valid()
    ensures Kept(old(fs.root), fs.root, root, [item])
    ensures KeptSince(old(fs.root), old(fs.history), fs.history, root, [item])
    ensures copied ==>
              HoldsStaged(fs.root, e, Image(old(fs.root), item, fs.umask)) && OnlyAt(old(fs.root), fs.root, e.workspace)
    ensures copied ==> leftovers == [] && ClearKept(root, old(fs.root), fs.root)
    ensures !copied && SourceFits(old(fs.root), item) ==> StagingHit(old(fs.faults), fs.faults, item)
    ensures old(fs.faults) <= fs.faults && Blamed(old(fs.faults), fs.faults, leftovers)
    ensures WorkspacesKept(root, old(fs.root), fs.root, {e.workspace})
    ensures !copied ==> Lookup(fs.root, e.workspace).None? || leftovers == [CleanupFailure(e.workspace)]
  {
    leftovers := [];
    ghost var t0, h0, f0 := fs.root, fs.history, fs.faults;
    assert [item][0] == item;
    UpIsPlain(root, item.target);
    assert Parent(e.output) == e.workspace;
    copied := CopyStaged(fs, item, e.output);
    WorkspaceStatesKept(t0, h0, fs.history, root, item, e.workspace, e.output);
    WorkspaceLineKept(t0, fs.root, root, item, e.workspace, e.output);
    LineSparesWorkspaces(root, t0, fs.root, Parent(item.target), e.workspace, e.output);
    if copied {
      LookupSplit(t0, e.workspace, e.backup);
      LookupSplit(fs.root, e.workspace, e.output);
      OnlyAtBelow(t0, fs.root, e.workspace, e.output);
      assert Apart(e.backup, e.output) by { assert e.backup[|e.workspace|] != e.output[|e.workspace|]; }
      BelowIsTemp(root, item.target, e);
    } else {
      ghost var t1, h1, f1 := fs.root, fs.history, fs.faults;
      if f1 != f0 { assert f1[|f0|] == Fault(CopyOp, e.output); }
      var removed := fs.RemoveAll(e.workspace);
      WorkspaceStatesKept(t1, h1, fs.history, root, item, e.workspace, e.workspace);
      WorkspaceLineKept(t1, fs.root, root, item, e.workspace, e.workspace);
      KeptJoins(t0, t1, h0, h1, fs.history, root, [item]);
      LineSparesWorkspaces(root, t1, fs.root, Parent(item.target), e.workspace, e.workspace);
      if f1 != f0 { assert fs.faults[|f0|] == f1[|f0|]; }
      if !removed {
        leftovers := [CleanupFailure(e.workspace)];
        assert fs.faults[|f1|] == Origin(leftovers[0]);
      }
    }
  }

  lemma BelowIsTemp(root: Path, target: Path, e: InstallEntry)
    requires root < target && NamedIn(e.workspace, Parent(target), WORKSPACE_PREFIX) &&
               e.output == e.workspace + ["output"]
    ensures forall q: Path :: e.output <= q ==> OwnTemp(root, q)
  {
    forall q: Path | e.output <= q ensures OwnTemp(root, q) {
      assert q[|target| - 1] == e.workspace[|target| - 1] && TempName(q[|target| - 1]);
    }
  }

  lemma OnlyAtBelow(t: Node, t': Node, p: Path, r: Path)
    requires OnlyAt(t, t', r) && p <= r
    ensures OnlyAt(t, t', p)
  {
    forall q: Path | Apart(q, p) ensures Lookup(t', q) == Lookup(t, q) { ApartBelow(q, p, r); }
  }

  /** While something lies in the workspace, it and the target's directory stand. */
  lemma Standing(t: Node, e: InstallEntry, p: Path)
    requires Shaped(e) && NamedIn(e.workspace, Parent(e.target), WORKSPACE_PREFIX)
    requires p in {e.output, e.backup} && Lookup(t, p).Some?
    ensures IsDir(t, Parent(p)) && IsDir(t, Parent(e.target))
  {
    assert Parent(p) == e.workspace && Parent(e.workspace) == Parent(e.target);
    ParentOf(t, p);
    ParentOf(t, e.workspace);
  }

  lemma MovedAside(t: Node, t': Node, h: seq<Node>, e: InstallEntry, original: Option<Node>, image: Node)
    requires Shaped(e) && !e.backedUp && !e.installed && Tracks(t, e, original, image)
    requires Lookup(t, e.target).Some? && Lookup(t', e.target).None? && Lookup(t', e.backup) == Lookup(t, e.target)
    requires forall q: Path :: Apart(q, e.target) && Apart(q, e.backup) ==> Lookup(t', q) == Lookup(t, q)
    ensures Tracks(t', e.(backedUp := true), original, image)
    ensures Confined(t, t', e) && StepsOf(t, h, h + [t'], e, original)
  {
    ApartFromEntry(e.target, e);
    assert Apart(e.backup, e.output) by { assert e.backup[|e.workspace|] != e.output[|e.workspace|]; }
    LineConfined(e);
  }

  /** The first half of a swap: the original, if there is one, moves to the backup. */
  method BackUp(fs: FileSystem, e: InstallEntry, ghost original: Option<Node>, ghost image: Node)
    returns (moved: bool, failure: Option<Cause>)
    requires fs.Valid() && Shaped(e) && !e.backedUp && !e.installed && Tracks(fs.root, e, original, image)
    requires NamedIn(e.workspace, Parent(e.target), WORKSPACE_PREFIX)
    modifies fs
    ensures fs.Valid() && Tracks(fs.root, e.(backedUp := moved), original, image)
    ensures failure.None? ==> (moved <==> original.Some?)
    ensures Confined(old(fs.root), fs.root, e)
    ensures StepsOf(old(fs.root), old(fs.history), fs.history, e, original)
    ensures failure.None? ==> fs.faults == old(fs.faults)
    ensures failure.Some? ==>
              || (failure == Some(BackupFailure(e.target)) && fs.faults == old(fs.faults) + [Fault(RenameOp, e.target)])
              || (failure == Some(LstatFailure(e.target)) && fs.faults == old(fs.faults) + [Fault(StatOp, e.target)])
  {
    moved, failure := false, None;
    ghost var t, h := fs.root, fs.history;
    ApartFromEntry(e.target, e);
    Standing(fs.root, e, e.output);
    assert Parent(e.backup) == e.workspace == Parent(e.output);
    var there := fs.Lstat(e.target);
    if there.Present? {
      moved := fs.Rename(e.target, e.backup);
      if moved { MovedAside(t, fs.root, h, e, original, image); }
      if !moved { failure := Some(BackupFailure(e.target)); }
    } else if there.StatFailed? {
      failure := Some(LstatFailure(e.target));
    }
  }

  /** The second half of a swap: the staged copy moves to the target, where nothing is. */
  method PlaceOutput(fs: FileSystem, e: InstallEntry, ghost original: Option<Node>, ghost image: Node)
    returns (ok: bool)
    requires fs.Valid() && Shaped(e) && !e.installed && (e.backedUp <==> original.Some?) &&
               Tracks(fs.root, e, original, image)
    requires NamedIn(e.workspace, Parent(e.target), WORKSPACE_PREFIX)
    modifies fs
    ensures fs.Valid() && Tracks(fs.root, e.(installed := ok), original, image)
    ensures Confined(old(fs.root), fs.root, e)
    ensures StepsOf(old(fs.root), old(fs.history), fs.history, e, original)
    ensures fs.faults == if ok then old(fs.faults) else old(fs.faults) + [Fault(RenameOp, e.output)]
  {
    ApartFromEntry(e.target, e);
    assert Apart(e.backup, e.output) by { assert e.backup[|e.workspace|] != e.output[|e.workspace|]; }
    LineConfined(e);
    Standing(fs.root, e, e.output);
    ok := fs.Rename(e.output, e.target);
  }

  lemma StepsChain(t0: Node, t1: Node, h0: seq<Node>, h1: seq<Node>, h2: seq<Node>, e: InstallEntry,
                   original: Option<Node>)
    requires StepsOf(t0, h0, h1, e, original) && Confined(t0, t1, e) && StepsOf(t1, h1, h2, e, original)
    ensures StepsOf(t0, h0, h2, e, original)
  {}

  /** One entry's turn: the original to the backup, then the staged copy to the target. */
  method SwapEntry(fs: FileSystem, e: InstallEntry, ghost original: Option<Node>, ghost image: Node)
    returns (e': InstallEntry, failure: Option<Cause>)
    requires fs.Valid() && Shaped(e) && !e.backedUp && !e.installed && Tracks(fs.root, e, original, image)
    requires NamedIn(e.workspace, Parent(e.target), WORKSPACE_PREFIX)
    modifies fs
    ensures fs.Valid() && SamePaths(e, e')
    ensures Tracks(fs.root, e', original, image)
    ensures failure.None? <==> e'.installed
    ensures Confined(old(fs.root), fs.root, e)
    ensures StepsOf(old(fs.root), old(fs.history), fs.history, e, original)
    ensures old(fs.faults) <= fs.faults && (failure.Some? ==> CauseHit(old(fs.faults), fs.faults, failure.value, [e]))
  {
    ghost var t0, h0, f0 := fs.root, fs.history, fs.faults;
    var moved;
    moved, failure := BackUp(fs, e, original, image);
    e' := e.(backedUp := moved);
    if failure.Some? {
      assert fs.faults[|f0|] in {Fault(RenameOp, e.target), Fault(StatOp, e.target)};
      return;
    }
    ghost var t1, h1 := fs.root, fs.history;
    var ok := PlaceOutput(fs, e', original, image);
    StepsChain(t0, t1, h0, h1, fs.history, e, original);
    if ok {
      e' := e'.(installed := true);
    } else {
      assert fs.faults[|f0|] == Fault(RenameOp, [e][0].output);
      failure := Some(InstallFailure(e.target));
    }
  }

  /** Paths apart from the target and the workspace are apart from what lies in the workspace. */
  lemma LineConfined(e: InstallEntry)
    requires Shaped(e)
    ensures forall q: Path :: Apart(q, e.workspace) ==> Apart(q, e.output) && Apart(q, e.backup)
  {
    forall q: Path | Apart(q, e.workspace) ensures Apart(q, e.output) && Apart(q, e.backup) { ApartFromEntry(q, e); }
  }

  /** The second half of an undo: the original, if it was moved, comes back. */
  method BringBack(fs: FileSystem, e: InstallEntry, ghost original: Option<Node>) returns (back: bool)
    requires fs.Valid() && Shaped(e) && NamedIn(e.workspace, Parent(e.target), WORKSPACE_PREFIX) && e.backedUp
    requires original.Some? && Lookup(fs.root, e.backup) == original && Lookup(fs.root, e.target).None?
    modifies fs
    ensures fs.Valid() && Confined(old(fs.root), fs.root, e)
    ensures back ==>
              Lookup(fs.root, e.target) == original && Lookup(fs.root, e.backup).None? && fs.faults == old(fs.faults)
    ensures !back ==> fs.root == old(fs.root) && fs.faults == old(fs.faults) + [Fault(RenameOp, e.backup)]
    ensures StepsOf(old(fs.root), old(fs.history), fs.history, e, original)
  {
    ApartFromEntry(e.target, e);
    LineConfined(e);
    Standing(fs.root, e, e.backup);
    back := fs.Rename(e.backup, e.target);
  }

  /** One entry's turn in the rollback: remove what was installed, then bring the original back. */
  method UndoEntry(fs: FileSystem, e: InstallEntry, ghost original: Option<Node>, ghost image: Node)
    returns (e': InstallEntry, complaints: seq<Complaint>)
    requires fs.Valid() && Shaped(e) && Tracks(fs.root, e, original, image)
    requires NamedIn(e.workspace, Parent(e.target), WORKSPACE_PREFIX)
    modifies fs
    ensures fs.Valid() && SamePaths(e, e')
    ensures Undone(fs.root, e', original, complaints)
    ensures Confined(old(fs.root), fs.root, e)
    ensures StepsOf(old(fs.root), old(fs.history), fs.history, e, original)
    ensures Blamed(old(fs.faults), fs.faults, complaints)
  {
    e', complaints := e, [];
    ghost var f0 := fs.faults;
    ApartFromEntry(e.target, e);
    LineConfined(e);
    if e.installed {
      var ok := fs.RemoveAll(e.target);
      if !ok {
        var detail := RemoveFailure(e.target, if e.backedUp then Some(e.backup) else None);
        complaints := [detail];
        assert detail in complaints && fs.faults[|f0|] == Origin(detail);
        return;
      }
    }
    if e.backedUp {
      var back := BringBack(fs, e, original);
      if back {
        e' := e'.(backedUp := false);
      } else {
        complaints := [RestoreFailure(e.backup)];
        assert fs.faults[|f0|] == Origin(complaints[0]);
      }
    }
  }

  /** Every difference lies on the line of some entry's workspace. */
  ghost predicate OffWorkspaces(t: Node, t': Node, es: seq<InstallEntry>) {
    forall q: Path :: (forall k :: 0 <= k < |es| ==> Apart(q, es[k].workspace)) ==> Lookup(t', q) == Lookup(t, q)
  }

  /** The entry's workspace is gone, or its removal was reported. */
  ghost predicate Cleared(t: Node, e: InstallEntry, report: seq<Complaint>) {
    Lookup(t, e.workspace).None? || CleanupFailure(e.workspace) in report
  }

  method CleanupEntries(fs: FileSystem, es: seq<InstallEntry>) returns (errs: seq<Complaint>)
    requires fs.Valid() && forall k :: 0 <= k < |es| ==> es[k].workspace != []
    modifies fs
    ensures fs.Valid()
    ensures OffWorkspaces(old(fs.root), fs.root, es) && OnlyRemoves(old(fs.root), fs.root)
    ensures old(fs.history) <= fs.history
    ensures forall k {:trigger fs.history[k]} :: |old(fs.history)| <= k < |fs.history| ==>
              OffWorkspaces(old(fs.root), fs.history[k], es)
    ensures forall k :: 0 <= k < |es| ==> Cleared(fs.root, es[k], errs)
    ensures Blamed(old(fs.faults), fs.faults, errs) && forall c :: c in errs ==> c.CleanupFailure?
  {
    errs := [];
    for i := 0 to |es|
      invariant fs.Valid() && OffWorkspaces(old(fs.root), fs.root, es) && OnlyRemoves(old(fs.root), fs.root)
      invariant old(fs.history) <= fs.history
      invariant forall k {:trigger fs.history[k]} :: |old(fs.history)| <= k < |fs.history| ==>
                  OffWorkspaces(old(fs.root), fs.history[k], es)
      invariant forall k :: 0 <= k < i ==> Cleared(fs.root, es[k], errs)
      invariant Blamed(old(fs.faults), fs.faults, errs) && forall c :: c in errs ==> c.CleanupFailure?
    {
      ghost var t, f := fs.root, fs.faults;
      var ok := fs.RemoveAll(es[i].workspace);
      BlamedNext(old(fs.faults), f, fs.faults, errs, CleanupFailure(es[i].workspace), ok);
      ClearedNext(t, fs.root, es, i, errs, ok);
      if !ok { errs := errs + [CleanupFailure(es[i].workspace)]; }
    }
  }

  lemma ClearedNext(t: Node, t': Node, es: seq<InstallEntry>, i: int, errs: seq<Complaint>, ok: bool)
    requires 0 <= i < |es| && OnlyRemoves(t, t') && (forall k :: 0 <= k < i ==> Cleared(t, es[k], errs))
    requires ok ==> Lookup(t', es[i].workspace).None?
    ensures forall k :: 0 <= k <= i ==>
              Cleared(t', es[k], if ok then errs else errs + [CleanupFailure(es[i].workspace)])
  {}

  /** One more call, and one more complaint if it failed. */
  lemma BlamedNext(a: seq<Fault>, b: seq<Fault>, c: seq<Fault>, cs: seq<Complaint>, more: Complaint, ok: bool)
    requires Blamed(a, b, cs) && !more.RestoreFailure? && c == if ok then b else b + [Origin(more)]
    ensures Blamed(a, c, if ok then cs else cs + [more])
  {
    BlamedGrows(a, b, c, cs);
    if !ok { assert c[|b|] == Origin(more); }
  }

  /** Blame stays when more faults follow. */
  lemma BlamedGrows(a: seq<Fault>, b: seq<Fault>, c: seq<Fault>, cs: seq<Complaint>)
    requires Blamed(a, b, cs) && b <= c
    ensures Blamed(a, c, cs)
  {
    forall x | x in cs ensures Hit(a, c, Origin(x)) { HitWidens(a, a, b, c, Origin(x)); }
  }

  lemma BlamedJoins(a: seq<Fault>, b: seq<Fault>, c: seq<Fault>, cs: seq<Complaint>, ds: seq<Complaint>)
    requires Blamed(a, b, cs) && Blamed(b, c, ds)
    ensures Blamed(a, c, cs + ds)
  {
    BlamedGrows(a, b, c, cs);
    forall x | x in ds ensures Hit(a, c, Origin(x)) { HitWidens(a, b, c, c, Origin(x)); }
  }

  /** No failing call, no complaint. */
  lemma NoFaultNoComplaint(faults: seq<Fault>, cs: seq<Complaint>)
    ensures Blamed(faults, faults, cs) ==> cs == []
  {
    if cs != [] { assert cs[0] in cs; }
  }

  lemma SafeJoins(h: seq<Node>, h1: seq<Node>, h2: seq<Node>, es: seq<InstallEntry>, es': seq<InstallEntry>,
                  originals: seq<Option<Node>>)
    requires SafeSince(h, h1, es, originals) && SafeSince(h1, h2, es', originals) && SameAllPaths(es, es')
    ensures SafeSince(h, h2, es, originals)
  {}

  lemma UndoneMonotone(t: Node, e: InstallEntry, original: Option<Node>, some: seq<Complaint>, all: seq<Complaint>)
    requires Undone(t, e, original, some) && forall c :: c in some ==> c in all
    ensures Undone(t, e, original, all)
  {}

  ghost predicate AllUndone(t: Node, es: seq<InstallEntry>, originals: seq<Option<Node>>, recovery: seq<Complaint>,
                            from: int)
  {
    |es| == |originals| && forall k :: 0 <= from <= k < |es| ==> Undone(t, es[k], originals[k], recovery)
  }

  ghost predicate AllTrack(t: Node, es: seq<InstallEntry>, originals: seq<Option<Node>>, images: seq<Node>, upTo: int) {
    |es| == |originals| == |images| && forall k :: 0 <= k < |es| && k < upTo ==>
        Tracks(t, es[k], originals[k], images[k])
  }

  /** Losing its workspace costs an entry that is not backed up nothing, and the others nothing either. */
  lemma CleanupHarmless(t: Node, t': Node, root: Path, items: seq<Item>, es: seq<InstallEntry>, i: int,
                        originals: seq<Option<Node>>)
    requires GoodItems(root, items) && EntriesOf(root, items, es) && 0 <= i < |es| && !es[i].backedUp &&
               |es| == |originals|
    requires OffWorkspaces(t, t', [es[i]])
    ensures forall k, r :: 0 <= k < |es| && (k != i || OnlyRemoves(t, t')) && Undone(t, es[k], originals[k], r) ==>
              Undone(t', es[k], originals[k], r)
    ensures AllSafe(t, es, originals) ==> forall k :: 0 <= k < |es| && (k == i ==> Lookup(t, es[i].backup).None?) ==>
              Safe(t', es[k], originals[k])
    ensures ForeignKept(t, t', root, items)
  {
    assert [es[i]][0] == es[i];
    assert forall q: Path :: Apart(q, es[i].workspace) ==> Lookup(t', q) == Lookup(t, q);
    forall k | 0 <= k < |es|
      ensures Lookup(t', es[k].target) == Lookup(t, es[k].target) &&
                (k != i ==> Lookup(t', es[k].backup) == Lookup(t, es[k].backup))
    {
      if k != i { ApartFromEntry(es[i].workspace, es[k]); }
    }
    forall q: Path | Foreign(root, items, q) ensures Lookup(t', q) == Lookup(t, q) {
      WorkspaceApart(root, es[i].target, es[i].workspace, q);
    }
  }

  lemma UndoneSafe(t: Node, es: seq<InstallEntry>, originals: seq<Option<Node>>, recovery: seq<Complaint>)
    requires AllUndone(t, es, originals, recovery, 0)
    ensures AllSafe(t, es, originals)
  {}

  /** One workspace less: the outcome of every entry stands, now and in every state on the way. */
  lemma CleanupStep(t: Node, t': Node, h0: seq<Node>, h: seq<Node>, h': seq<Node>, root: Path, items: seq<Item>,
                    es: seq<InstallEntry>, i: int, originals: seq<Option<Node>>, recovery: seq<Complaint>,
                    errs: seq<Complaint>)
    requires GoodItems(root, items) && EntriesOf(root, items, es) && 0 <= i < |es| && !es[i].backedUp
    requires OffWorkspaces(t, t', [es[i]]) && OnlyRemoves(t, t') && AllUndone(t, es, originals, recovery, 0)
    requires h <= h' && forall k {:trigger h'[k]} :: |h| <= k < |h'| ==> OffWorkspaces(t, h'[k], [es[i]])
    requires SafeSince(h0, h, es, originals)
    ensures AllUndone(t', es, originals, recovery + errs, 0) && ForeignKept(t, t', root, items) &&
              SafeSince(h0, h', es, originals)
  {
    CleanupHarmless(t, t', root, items, es, i, originals);
    forall k | 0 <= k < |es| ensures Undone(t', es[k], originals[k], recovery + errs) {
      assert Undone(t', es[k], originals[k], recovery);
      UndoneMonotone(t', es[k], originals[k], recovery, recovery + errs);
    }
    UndoneSafe(t, es, originals, recovery);
    forall k | |h| <= k < |h'| ensures AllSafe(h'[k], es, originals) {
      CleanupHarmless(t, h'[k], root, items, es, i, originals);
    }
    SafeJoins(h0, h, h', es, es, originals);
  }

  /** Removes the workspaces of the entries whose original is not in them. */
  method CleanupRestored(fs: FileSystem, es: seq<InstallEntry>, reported: seq<Complaint>, ghost root: Path,
                         ghost items: seq<Item>, ghost originals: seq<Option<Node>>)
    returns (recovery: seq<Complaint>)
    requires fs.Valid() && GoodItems(root, items) && EntriesOf(root, items, es) &&
               AllUndone(fs.root, es, originals, reported, 0)
    modifies fs
    ensures fs.Valid() && AllUndone(fs.root, es, originals, recovery, 0)
    ensures ForeignKept(old(fs.root), fs.root, root, items) && OnlyRemoves(old(fs.root), fs.root)
    ensures SafeSince(old(fs.history), fs.history, es, originals)
    ensures reported <= recovery && Blamed(old(fs.faults), fs.faults, recovery[|reported|..])
    ensures forall k :: 0 <= k < |es| ==> es[k].backedUp || Cleared(fs.root, es[k], recovery)
  {
    recovery := reported;
    ghost var added: seq<Complaint> := [];
    ghost var t0, h0, f0 := fs.root, fs.history, fs.faults;
    for i := 0 to |es|
      invariant fs.Valid() && AllUndone(fs.root, es, originals, recovery, 0)
      invariant ForeignKept(t0, fs.root, root, items) && SafeSince(h0, fs.history, es, originals) &&
                  OnlyRemoves(t0, fs.root)
      invariant recovery == reported + added && Blamed(f0, fs.faults, added)
      invariant forall k :: 0 <= k < i ==> es[k].backedUp || Cleared(fs.root, es[k], recovery)
    {
      if !es[i].backedUp {
        ghost var t, h, f := fs.root, fs.history, fs.faults;
        var errs := CleanupEntries(fs, [es[i]]);
        CleanupStep(t, fs.root, h0, h, fs.history, root, items, es, i, originals, recovery, errs);
        BlamedJoins(f0, f, fs.faults, added, errs);
        assert Cleared(fs.root, [es[i]][0], errs);
        recovery, added := recovery + errs, added + errs;
      }
    }
    assert recovery[|reported|..] == added;
  }

  /** The state of a rollback that has dealt with the entries from `i` on. */
  ghost predicate Rolling(t: Node, es: seq<InstallEntry>, originals: seq<Option<Node>>, images: seq<Node>,
                          recovery: seq<Complaint>, i: int)
  {
    0 <= i <= |es| && AllTrack(t, es, originals, images, i) && AllUndone(t, es, originals, recovery, i)
  }

  lemma UndoneExtends(t: Node, t': Node, es: seq<InstallEntry>, i: int, e: InstallEntry, originals: seq<Option<Node>>,
                      images: seq<Node>, recovery: seq<Complaint>, complaints: seq<Complaint>)
    requires Layout(es) && 0 <= i < |es| && Rolling(t, es, originals, images, recovery, i + 1)
    requires Confined(t, t', es[i]) && SamePaths(es[i], e) && Undone(t', e, originals[i], complaints)
    ensures Rolling(t', es[i := e], originals, images, recovery + complaints, i)
  {
    OthersKept(t, t', es, i);
    forall k | i <= k < |es| ensures Undone(t', es[i := e][k], originals[k], recovery + complaints) {
      if k == i {
        UndoneMonotone(t', e, originals[i], complaints, recovery + complaints);
      } else {
        UndoneMonotone(t, es[k], originals[k], recovery, recovery + complaints);
      }
    }
  }

  lemma EntriesOfSame(root: Path, items: seq<Item>, es: seq<InstallEntry>, i: int, e: InstallEntry)
    requires EntriesOf(root, items, es) && 0 <= i < |es| && SamePaths(es[i], e)
    ensures EntriesOf(root, items, es[i := e])
  {}

  /** One entry undone extends the rollback and keeps everything the loop relies on. */
  lemma UndoStep(t: Node, t': Node, h0: seq<Node>, h: seq<Node>, h': seq<Node>, root: Path, items: seq<Item>,
                 es0: seq<InstallEntry>, es: seq<InstallEntry>, i: int, e: InstallEntry, originals: seq<Option<Node>>,
                 images: seq<Node>, recovery: seq<Complaint>, complaints: seq<Complaint>)
    requires GoodItems(root, items) && EntriesOf(root, items, es) && SameAllPaths(es0, es) && 0 <= i < |es|
    requires Rolling(t, es, originals, images, recovery, i + 1) && SafeSince(h0, h, es0, originals)
    requires Confined(t, t', es[i]) && StepsOf(t, h, h', es[i], originals[i]) && SamePaths(es[i], e) &&
               Undone(t', e, originals[i], complaints)
    ensures SameAllPaths(es0, es[i := e]) && EntriesOf(root, items, es[i := e])
    ensures Rolling(t', es[i := e], originals, images, recovery + complaints, i)
    ensures ForeignKept(t, t', root, items) && SafeSince(h0, h', es0, originals)
  {
    RollingSafe(t, es, originals, images, recovery, i + 1);
    StepsSafe(t, h, h', es, originals, i);
    SafeJoins(h0, h, h', es0, es, originals);
    ConfinedIsForeignKept(t, t', root, items, es, i);
    UndoneExtends(t, t', es, i, e, originals, images, recovery, complaints);
    EntriesOfSame(root, items, es, i, e);
  }

  lemma RollingSafe(t: Node, es: seq<InstallEntry>, originals: seq<Option<Node>>, images: seq<Node>,
                    recovery: seq<Complaint>, i: int)
    requires Rolling(t, es, originals, images, recovery, i)
    ensures AllSafe(t, es, originals)
  {}

  /** A step confined to one entry makes no workspace but the entries'. */
  lemma ConfinedMakesNone(t0: Node, t: Node, t': Node, root: Path, items: seq<Item>, es: seq<InstallEntry>, i: int)
    requires GoodItems(root, items) && EntriesOf(root, items, es) && 0 <= i < |es| && Confined(t, t', es[i])
    requires OnlyEntries(t0, t, items, es)
    ensures OnlyEntries(t0, t', items, es)
  {
    forall p: Path | Beside(items, p) && Lookup(t0, p).None? && Lookup(t', p).Some?
      ensures exists k :: 0 <= k < |es| && p == es[k].workspace
    {
      if p != es[i].workspace {
        BesideApart(root, items, p, i);
        BesideIsWorkspace(root, items, p);
        UpIsPlain(root, items[i].target);
        OtherWorkspaceApart(root, Parent(items[i].target), es[i].workspace, p);
      }
    }
  }

  lemma BesideIsWorkspace(root: Path, items: seq<Item>, p: Path)
    requires GoodItems(root, items) && Beside(items, p)
    ensures WorkspaceName(root, p)
  {
    var j :| 0 <= j < |items| && NamedIn(p, Parent(items[j].target), WORKSPACE_PREFIX);
    UpIsPlain(root, items[j].target);
    assert Parent(p) == Parent(items[j].target);
  }

  lemma BesideApart(root: Path, items: seq<Item>, p: Path, i: int)
    requires GoodItems(root, items) && Beside(items, p) && 0 <= i < |items|
    ensures Apart(p, items[i].target)
  {
    var j :| 0 <= j < |items| && NamedIn(p, Parent(items[j].target), WORKSPACE_PREFIX);
    WorkspaceApart(root, items[j].target, p, items[i].target);
  }

  lemma OnlyEntriesSame(t0: Node, t: Node, items: seq<Item>, es: seq<InstallEntry>, es': seq<InstallEntry>)
    requires forall i :: 0 <= i < |items| ==> items[i].target != []
    requires OnlyEntries(t0, t, items, es) && SameAllPaths(es, es')
    ensures OnlyEntries(t0, t, items, es')
  {
    forall p: Path | Beside(items, p) && Lookup(t0, p).None? && Lookup(t, p).Some?
      ensures exists k :: 0 <= k < |es'| && p == es'[k].workspace
    {
      var k :| 0 <= k < |es| && p == es[k].workspace;
      assert p == es'[k].workspace;
    }
  }

  /** Undoes a partial swap, last entry first, as far as the file system lets it. */
  method RollbackInstall(fs: FileSystem, es: seq<InstallEntry>, ghost root: Path, ghost items: seq<Item>,
                         ghost originals: seq<Option<Node>>, ghost images: seq<Node>)
    returns (es': seq<InstallEntry>, recovery: seq<Complaint>)
    requires fs.Valid() && GoodItems(root, items) && EntriesOf(root, items, es) &&
               AllTrack(fs.root, es, originals, images, |es|)
    modifies fs
    ensures fs.Valid() && SameAllPaths(es, es')
    ensures AllUndone(fs.root, es', originals, recovery, 0)
    ensures ForeignKept(old(fs.root), fs.root, root, items)
    ensures SafeSince(old(fs.history), fs.history, es, originals)
    ensures Blamed(old(fs.faults), fs.faults, recovery)
    ensures fs.faults == old(fs.faults) ==>
              recovery == [] && forall k :: 0 <= k < |es'| ==>
                Lookup(fs.root, es'[k].target) == originals[k] && Lookup(fs.root, es'[k].workspace).None?
    ensures OnlyEntries(old(fs.root), fs.root, items, es)
    ensures forall k :: 0 <= k < |es'| ==> es'[k].backedUp || Cleared(fs.root, es'[k], recovery)
  {
    es', recovery := es, [];
    ghost var t0, h0, f0 := fs.root, fs.history, fs.faults;
    for i := |es| downto 0
      invariant fs.Valid() && SameAllPaths(es, es') && EntriesOf(root, items, es')
      invariant Rolling(fs.root, es', originals, images, recovery, i)
      invariant ForeignKept(t0, fs.root, root, items) && SafeSince(h0, fs.history, es, originals)
      invariant Blamed(f0, fs.faults, recovery) && OnlyEntries(t0, fs.root, items, es')
    {
      ghost var t, h, f := fs.root, fs.history, fs.faults;
      var e, complaints := UndoEntry(fs, es'[i], originals[i], images[i]);
      ConfinedMakesNone(t0, t, fs.root, root, items, es', i);
      UndoStep(t, fs.root, h0, h, fs.history, root, items, es, es', i, e, originals, images, recovery, complaints);
      BlamedJoins(f0, f, fs.faults, recovery, complaints);
      OnlyEntriesSame(t0, fs.root, items, es', es'[i := e]);
      es', recovery := es'[i := e], recovery + complaints;
    }
    ghost var h, f, undone := fs.history, fs.faults, recovery;
    recovery := CleanupRestored(fs, es', recovery, root, items, originals);
    SafeJoins(h0, h, fs.history, es, es', originals);
    assert recovery == undone + recovery[|undone|..];
    BlamedJoins(f0, f, fs.faults, undone, recovery[|undone|..]);
    OnlyEntriesSame(t0, fs.root, items, es', es);
    if fs.faults == f0 {
      NoFaultNoComplaint(f0, recovery);
      EmptyReportMeansRestored(fs.root, es', originals, recovery);
      assert forall k :: 0 <= k < |es'| ==> Cleared(fs.root, es'[k], recovery);
    }
  }

  // ---------------------------------------------------------------- the whole install

  ghost function Originals(t: Node, items: seq<Item>): (os: seq<Option<Node>>)
    ensures |os| == |items|
  {
    seq(|items|, i requires 0 <= i < |items| => Lookup(t, items[i].target))
  }

  /** Entries staged from `t0`: nothing swapped yet, every workspace holds its staged copy. */
  ghost predicate Prepared(t0: Node, t: Node, root: Path, items: seq<Item>, es: seq<InstallEntry>, umask: Mode) {
    && EntriesOf(root, items, es) && Kept(t0, t, root, items)
    && forall k :: 0 <= k < |es| ==>
         !es[k].backedUp && !es[k].installed && HoldsStaged(t, es[k], Image(t0, items[k], umask))
  }

  lemma KeptNarrow(t: Node, t': Node, root: Path, items: seq<Item>, i: int)
    requires 0 <= i < |items| && Kept(t, t', root, [items[i]])
    ensures Kept(t, t', root, items)
  {}

  lemma KeptTargets(t: Node, t': Node, root: Path, items: seq<Item>)
    requires GoodItems(root, items) && Kept(t, t', root, items)
    ensures forall k :: 0 <= k < |items| ==> Lookup(t', items[k].target) == Lookup(t, items[k].target)
    ensures forall k :: 0 <= k < |items| ==> Lookup(t', items[k].staged) == Lookup(t, items[k].staged)
    ensures ForeignKept(t, t', root, items)
  {
    forall k | 0 <= k < |items|
      ensures Lookup(t', items[k].target) == Lookup(t, items[k].target)
      ensures Lookup(t', items[k].staged) == Lookup(t, items[k].staged)
    {
      assert Outside(root, items, items[k].target);
      forall j | 0 <= j < |items| ensures Apart(items[k].staged, items[j].target) {
        ApartBelow(items[k].staged, root, items[j].target);
      }
      assert Outside(root, items, items[k].staged);
    }
  }

  /** A workspace made while another entry's exists shares no path with that entry. */
  lemma NewcomerApart(t: Node, root: Path, items: seq<Item>, es: seq<InstallEntry>, k: int, e: InstallEntry)
    requires GoodItems(root, items) && EntriesOf(root, items, es) && 0 <= k < |es| < |items|
    requires StagedEntry(e, items[|es|]) && Lookup(t, e.workspace).None? && Lookup(t, es[k].workspace).Some?
    ensures Apart(e.target, es[k].target) && Apart(e.workspace, es[k].workspace)
    ensures Apart(e.workspace, es[k].target) && Apart(es[k].workspace, e.target)
  {
    WorkspaceApart(root, es[k].target, es[k].workspace, e.target);
    WorkspaceApart(root, e.target, e.workspace, es[k].target);
    FreshWorkspaceApart(t, es[k].target, es[k].workspace, e.target, e.workspace);
  }

  lemma StillHolds(t: Node, t': Node, e: InstallEntry, d: InstallEntry, image: Option<Node>)
    requires Shaped(d) && Confined(t, t', e) && HoldsStaged(t, d, image)
    requires Apart(e.target, d.workspace) && Apart(e.workspace, d.workspace)
    ensures HoldsStaged(t', d, image)
  {
    ApartFromEntry(e.target, d);
    ApartFromEntry(e.workspace, d);
  }

  lemma EntriesExtend(root: Path, items: seq<Item>, es: seq<InstallEntry>, e: InstallEntry)
    requires EntriesOf(root, items, es) && |es| < |items| && items[|es|].target != [] && StagedEntry(e, items[|es|])
    requires forall k :: 0 <= k < |es| ==>
               && Apart(e.target, es[k].target) && Apart(e.workspace, es[k].workspace)
               && Apart(e.workspace, es[k].target) && Apart(es[k].workspace, e.target)
    ensures EntriesOf(root, items, es + [e])
  {}

  /** Staging one more item keeps what was prepared. */
  lemma PreparedExtends(t0: Node, t: Node, t': Node, root: Path, items: seq<Item>, es: seq<InstallEntry>,
                        e: InstallEntry, umask: Mode)
    requires GoodItems(root, items) && |es| < |items| && Prepared(t0, t, root, items, es, umask)
    requires StagedEntry(e, items[|es|]) && Lookup(t, e.workspace).None? && Confined(t, t', e) &&
               Kept(t, t', root, items)
    requires HoldsStaged(t', e, Image(t, items[|es|], umask))
    ensures Prepared(t0, t', root, items, es + [e], umask)
  {
    KeptTargets(t0, t, root, items);
    forall k | 0 <= k < |es|
      ensures Apart(e.target, es[k].target) && Apart(e.workspace, es[k].workspace)
      ensures Apart(e.workspace, es[k].target) && Apart(es[k].workspace, e.target)
      ensures HoldsStaged(t', es[k], Image(t0, items[k], umask))
    {
      NewcomerApart(t, root, items, es, k, e);
      StillHolds(t, t', e, es[k], Image(t0, items[k], umask));
    }
    EntriesExtend(root, items, es, e);
  }

  /** Staging another item makes its own workspace and no other. */
  lemma WorkspacesExtend(t0: Node, t: Node, t': Node, root: Path, items: seq<Item>, es: seq<InstallEntry>,
                         e: InstallEntry)
    requires GoodItems(root, items) && OnlyEntries(t0, t, items, es) && WorkspacesKept(root, t, t', {e.workspace})
    ensures OnlyEntries(t0, t', items, es + [e])
  {
    forall p: Path | Beside(items, p) && Lookup(t0, p).None? && Lookup(t', p).Some?
      ensures exists k :: 0 <= k < |es + [e]| && p == (es + [e])[k].workspace
    {
      BesideIsWorkspace(root, items, p);
      if p == e.workspace {
        assert p == (es + [e])[|es|].workspace;
      } else {
        var k :| 0 <= k < |es| && p == es[k].workspace;
        assert p == (es + [e])[k].workspace;
      }
    }
  }

  /** After a failed staging, every workspace it made is gone or reported. */
  lemma StagingSwept(t0: Node, t: Node, t': Node, t'': Node, root: Path, items: seq<Item>, es: seq<InstallEntry>,
                     leftovers: seq<Complaint>, more: seq<Complaint>)
    requires GoodItems(root, items) && OnlyEntries(t0, t, items, es) &&
               WorkspacesKept(root, t, t', Unswept(leftovers)) && OnlyRemoves(t', t'')
    requires forall k :: 0 <= k < |es| ==> Cleared(t'', es[k], more)
    ensures Swept(t0, t'', items, leftovers + more, [])
  {
    forall p: Path | Beside(items, p) && Lookup(t0, p).None? && Lookup(t'', p).Some?
      ensures CleanupFailure(p) in leftovers + more
    {
      BesideIsWorkspace(root, items, p);
      if p !in Unswept(leftovers) {
        var k :| 0 <= k < |es| && p == es[k].workspace;
        assert CleanupFailure(p) in more;
      }
    }
  }

  /** An item that could be staged at the start still can. */
  lemma StillStageable(t0: Node, t: Node, root: Path, items: seq<Item>, i: int)
    requires GoodItems(root, items) && 0 <= i < |items| && Kept(t0, t, root, items) && ClearKept(root, t0, t) &&
               items[i].target != []
    ensures Stageable(t0, items[i]) ==> Stageable(t, items[i])
  {
    KeptTargets(t0, t, root, items);
    UpIsPlain(root, items[i].target);
  }

  ghost predicate StagingStopped(t: Node, from: seq<Fault>, to: seq<Fault>, items: seq<Item>)
    requires forall i :: 0 <= i < |items| ==> items[i].target != []
  {
    exists i :: 0 <= i < |items| && (StagingHit(from, to, items[i]) || !Stageable(t, items[i]))
  }

  lemma StopsStaging(t0: Node, t: Node, f0: seq<Fault>, f: seq<Fault>, f': seq<Fault>, f'': seq<Fault>, root: Path,
                     items: seq<Item>, i: int)
    requires GoodItems(root, items) && 0 <= i < |items| && Kept(t0, t, root, items) && ClearKept(root, t0, t)
    requires f0 <= f <= f' <= f'' && (StagingHit(f, f', items[i]) || !Stageable(t, items[i]))
    ensures StagingStopped(t0, f0, f'', items)
  {
    StillStageable(t0, t, root, items, i);
    if StagingHit(f, f', items[i]) {
      var k :| |f| <= k < |f'| && StagingFault(items[i], f'[k]);
      assert StagingFault(items[i], f''[k]);
    }
  }

  /** Stages all items, or cleans up after the first that cannot be staged. */
  method StageAll(fs: FileSystem, root: Path, items: seq<Item>)
    returns (es: seq<InstallEntry>, failure: Option<seq<Complaint>>)
    requires fs.Valid() && GoodItems(root, items)
    modifies fs
    ensures fs.Valid()
    ensures failure.None? ==> |es| == |items| && Prepared(old(fs.root), fs.root, root, items, es, fs.umask)
    ensures failure.None? ==> OnlyEntries(old(fs.root), fs.root, items, es)
    ensures Kept(old(fs.root), fs.root, root, items)
    ensures KeptSince(old(fs.root), old(fs.history), fs.history, root, items)
    ensures old(fs.faults) <= fs.faults
    ensures failure.Some? ==> StagingStopped(old(fs.root), old(fs.faults), fs.faults, items)
    ensures failure.Some? ==>
              Blamed(old(fs.faults), fs.faults, failure.value) && Swept(old(fs.root), fs.root, items, failure.value, [])
  {
    es, failure := [], None;
    ghost var t0, h0, f0 := fs.root, fs.history, fs.faults;
    for i := 0 to |items|
      invariant fs.Valid() && |es| == i && Prepared(t0, fs.root, root, items, es, fs.umask)
      invariant KeptSince(t0, h0, fs.history, root, items)
      invariant failure.None? && f0 <= fs.faults
      invariant OnlyEntries(t0, fs.root, items, es) && ClearKept(root, t0, fs.root)
    {
      ghost var t, h, f := fs.root, fs.history, fs.faults;
      assert GoodItems(root, [items[i]]);
      var entry, leftovers := StageItem(fs, root, items[i]);
      StageStepKept(t0, t, h0, h, fs.history, root, items, i);
      KeptNarrow(t, fs.root, root, items, i);
      if entry.None? {
        ghost var t', h', f' := fs.root, fs.history, fs.faults;
        var more := CleanupEntries(fs, es);
        CleanupKept(t', h', fs.root, fs.history, root, items, es);
        KeptJoins(t0, t', h0, h', fs.history, root, items);
        StagingSwept(t0, t, t', fs.root, root, items, es, leftovers, more);
        StopsStaging(t0, t, f0, f, f', fs.faults, root, items, i);
        BlamedJoins(f, f', fs.faults, leftovers, more);
        failure := Some(leftovers + more);
        BlamedSince(f0, f, fs.faults, failure.value);
        return;
      }
      PreparedExtends(t0, t, fs.root, root, items, es, entry.value, fs.umask);
      WorkspacesExtend(t0, t, fs.root, root, items, es, entry.value);
      es := es + [entry.value];
    }
  }

  lemma BlamedSince(a: seq<Fault>, b: seq<Fault>, c: seq<Fault>, cs: seq<Complaint>)
    requires a <= b && Blamed(b, c, cs)
    ensures Blamed(a, c, cs)
  {
    forall x | x in cs ensures Hit(a, c, Origin(x)) { HitWidens(a, b, c, c, Origin(x)); }
  }

  lemma StageStepKept(t0: Node, t: Node, h0: seq<Node>, h: seq<Node>, h': seq<Node>, root: Path, items: seq<Item>,
                      i: int)
    requires 0 <= i < |items| && Kept(t0, t, root, items) && KeptSince(t0, h0, h, root, items)
    requires KeptSince(t, h, h', root, [items[i]])
    ensures KeptSince(t0, h0, h', root, items)
  {
    forall k | |h| <= k < |h'| ensures Kept(t, h'[k], root, items) { KeptNarrow(t, h'[k], root, items, i); }
    KeptJoins(t0, t, h0, h, h', root, items);
  }

  lemma OffWorkspacesKept(t: Node, t': Node, root: Path, items: seq<Item>, es: seq<InstallEntry>)
    requires GoodItems(root, items) && EntriesOf(root, items, es) && OffWorkspaces(t, t', es)
    ensures Kept(t, t', root, items)
  {
    forall q: Path | Outside(root, items, q) ensures Lookup(t', q) == Lookup(t, q) {
      forall k | 0 <= k < |es| ensures Apart(q, es[k].workspace) {
        WorkspaceApart(root, es[k].target, es[k].workspace, q);
      }
    }
  }

  lemma CleanupKept(t: Node, h: seq<Node>, t': Node, h': seq<Node>, root: Path, items: seq<Item>, es: seq<InstallEntry>)
    requires GoodItems(root, items) && EntriesOf(root, items, es) && OffWorkspaces(t, t', es) && h <= h'
    requires forall k {:trigger h'[k]} :: |h| <= k < |h'| ==> OffWorkspaces(t, h'[k], es)
    ensures Kept(t, t', root, items) && KeptSince(t, h, h', root, items)
  {
    OffWorkspacesKept(t, t', root, items, es);
    forall k | |h| <= k < |h'| ensures Kept(t, h'[k], root, items) { OffWorkspacesKept(t, h'[k], root, items, es); }
  }

  /** One swap extends the swapped entries and leaves the rest as they were. */
  lemma SwapExtends(t: Node, t': Node, es: seq<InstallEntry>, i: int, e: InstallEntry, originals: seq<Option<Node>>,
                    images: seq<Node>)
    requires Layout(es) && 0 <= i < |es| && AllTrack(t, es, originals, images, |es|)
    requires Confined(t, t', es[i]) && SamePaths(es[i], e) && Tracks(t', e, originals[i], images[i])
    ensures AllTrack(t', es[i := e], originals, images, |es|)
  {
    OthersKept(t, t', es, i);
  }

  /** One entry's swap keeps everything the loop relies on. */
  lemma SwapStep(t: Node, t': Node, h0: seq<Node>, h: seq<Node>, h': seq<Node>, root: Path, items: seq<Item>,
                 es0: seq<InstallEntry>, es: seq<InstallEntry>, i: int, e: InstallEntry, originals: seq<Option<Node>>,
                 images: seq<Node>)
    requires GoodItems(root, items) && EntriesOf(root, items, es) && SameAllPaths(es0, es) && 0 <= i < |es|
    requires AllTrack(t, es, originals, images, |es|) && SafeSince(h0, h, es0, originals)
    requires Confined(t, t', es[i]) && StepsOf(t, h, h', es[i], originals[i])
    requires SamePaths(es[i], e) && Tracks(t', e, originals[i], images[i])
    ensures SameAllPaths(es0, es[i := e]) && EntriesOf(root, items, es[i := e])
    ensures AllTrack(t', es[i := e], originals, images, |es|) && ForeignKept(t, t', root, items)
    ensures SafeSince(h0, h', es0, originals)
  {
    StepsSafe(t, h, h', es, originals, i);
    SafeJoins(h0, h, h', es0, es, originals);
    ConfinedIsForeignKept(t, t', root, items, es, i);
    SwapExtends(t, t', es, i, e, originals, images);
    EntriesOfSame(root, items, es, i, e);
  }

  lemma CauseWidens(a: seq<Fault>, b: seq<Fault>, c: seq<Fault>, cause: Cause, es: seq<InstallEntry>, i: int,
                    es': seq<InstallEntry>)
    requires a <= b && b <= c && 0 <= i < |es| && CauseHit(b, c, cause, [es[i]]) && SameAllPaths(es, es')
    ensures CauseHit(a, c, cause, es')
  {
    match cause
    case LstatFailure(at) => HitWidens(a, b, c, c, Fault(StatOp, at));
    case BackupFailure(at) => HitWidens(a, b, c, c, Fault(RenameOp, at));
    case InstallFailure(at) =>
      assert [es[i]][0] == es[i];
      HitWidens(a, b, c, c, Fault(RenameOp, es[i].output));
      assert SamePaths(es[i], es'[i]);
  }

  /** One turn of the swap, and what the turns so far have kept. */
  method SwapNext(fs: FileSystem, es: seq<InstallEntry>, i: nat, ghost es0: seq<InstallEntry>, ghost root: Path,
                  ghost items: seq<Item>, ghost originals: seq<Option<Node>>, ghost images: seq<Node>,
                  ghost t0: Node, ghost h0: seq<Node>, ghost f0: seq<Fault>)
    returns (es': seq<InstallEntry>, failure: Option<Cause>)
    requires fs.Valid() && GoodItems(root, items) && SameAllPaths(es0, es) && EntriesOf(root, items, es)
    requires AllTrack(fs.root, es, originals, images, |es|)
    requires i < |es| && !es[i].backedUp && !es[i].installed
    requires ForeignKept(t0, fs.root, root, items) && SafeSince(h0, fs.history, es0, originals)
    requires f0 <= fs.faults && OnlyEntries(t0, fs.root, items, es)
    modifies fs
    ensures fs.Valid() && SameAllPaths(es0, es') && EntriesOf(root, items, es')
    ensures AllTrack(fs.root, es', originals, images, |es'|)
    ensures |es'| == |es| && forall k :: 0 <= k < |es| && k != i ==> es'[k] == es[k]
    ensures failure.None? ==> es'[i].installed
    ensures ForeignKept(t0, fs.root, root, items) && SafeSince(h0, fs.history, es0, originals)
    ensures f0 <= fs.faults && OnlyEntries(t0, fs.root, items, es')
    ensures failure.Some? ==> CauseHit(f0, fs.faults, failure.value, es')
  {
    ghost var t, h, f := fs.root, fs.history, fs.faults;
    var e;
    e, failure := SwapEntry(fs, es[i], originals[i], images[i]);
    ConfinedMakesNone(t0, t, fs.root, root, items, es, i);
    SwapStep(t, fs.root, h0, h, fs.history, root, items, es0, es, i, e, originals, images);
    OnlyEntriesSame(t0, fs.root, items, es, es[i := e]);
    if failure.Some? { CauseWidens(f0, f, fs.faults, failure.value, es, i, es[i := e]); }
    es' := es[i := e];
  }

  /** Swaps every entry, or stops at the first that fails with the flags saying how far it got. */
  method SwapAll(fs: FileSystem, es: seq<InstallEntry>, ghost root: Path, ghost items: seq<Item>,
                 ghost originals: seq<Option<Node>>, ghost images: seq<Node>)
    returns (es': seq<InstallEntry>, failure: Option<Cause>)
    requires fs.Valid() && GoodItems(root, items) && EntriesOf(root, items, es) &&
               AllTrack(fs.root, es, originals, images, |es|)
    requires forall k :: 0 <= k < |es| ==> !es[k].backedUp && !es[k].installed
    modifies fs
    ensures fs.Valid() && SameAllPaths(es, es') && EntriesOf(root, items, es')
    ensures AllTrack(fs.root, es', originals, images, |es|)
    ensures failure.None? ==> forall k :: 0 <= k < |es| ==> es'[k].installed
    ensures ForeignKept(old(fs.root), fs.root, root, items)
    ensures SafeSince(old(fs.history), fs.history, es, originals)
    ensures OnlyEntries(old(fs.root), fs.root, items, es')
    ensures old(fs.faults) <= fs.faults && (failure.Some? ==> CauseHit(old(fs.faults), fs.faults, failure.value, es'))
  {
    es', failure := es, None;
    ghost var t0, h0, f0 := fs.root, fs.history, fs.faults;
    for i := 0 to |es|
      invariant fs.Valid() && SameAllPaths(es, es') && EntriesOf(root, items, es')
      invariant AllTrack(fs.root, es', originals, images, |es|)
      invariant forall k :: 0 <= k < |es| ==> if k < i then es'[k].installed else !es'[k].backedUp && !es'[k].installed
      invariant ForeignKept(t0, fs.root, root, items) && SafeSince(h0, fs.history, es, originals)
      invariant failure.None? && f0 <= fs.faults && OnlyEntries(t0, fs.root, items, es')
    {
      es', failure := SwapNext(fs, es', i, es, root, items, originals, images, t0, h0, f0);
      if failure.Some? { return; }
    }
  }

  /** What a crash at any moment leaves: each original whole somewhere, or the new outputs all in place. */
  ghost predicate Recoverable(t: Node, items: seq<Item>, originals: seq<Option<Node>>, images: seq<Option<Node>>,
                              es: seq<InstallEntry>)
    requires |items| == |originals| == |images|
  {
    || (forall k :: 0 <= k < |items| ==> Lookup(t, items[k].target) == images[k])
    || forall k :: 0 <= k < |items| && originals[k].Some? ==>
         Lookup(t, items[k].target) == originals[k] || (k < |es| && Lookup(t, es[k].backup) == originals[k])
  }

  ghost function Images(t: Node, items: seq<Item>, umask: Mode): (images: seq<Option<Node>>)
    ensures |images| == |items|
  {
    seq(|items|, i requires 0 <= i < |items| => Image(t, items[i], umask))
  }

  ghost predicate RecoverableSince(from: seq<Node>, to: seq<Node>, items: seq<Item>, originals: seq<Option<Node>>,
                                   images: seq<Option<Node>>, es: seq<InstallEntry>) {
    && |items| == |originals| == |images| && from <= to
    && forall k {:trigger to[k]} :: |from| <= k < |to| ==> Recoverable(to[k], items, originals, images, es)
  }

  lemma RecoverableJoins(h: seq<Node>, h1: seq<Node>, h2: seq<Node>, items: seq<Item>, originals: seq<Option<Node>>,
                         images: seq<Option<Node>>, es: seq<InstallEntry>)
    requires RecoverableSince(h, h1, items, originals, images, es) &&
               RecoverableSince(h1, h2, items, originals, images, es)
    ensures RecoverableSince(h, h2, items, originals, images, es)
  {}

  /** Every target holds its staged copy. */
  ghost predicate Committed(t: Node, items: seq<Item>, images: seq<Option<Node>>) {
    |items| == |images| && forall k :: 0 <= k < |items| ==> images[k].Some? && Lookup(t, items[k].target) == images[k]
  }

  /** Every target is as it was, absence included. */
  ghost predicate Untouched(t: Node, items: seq<Item>, originals: seq<Option<Node>>) {
    |items| == |originals| && forall k :: 0 <= k < |items| ==> Lookup(t, items[k].target) == originals[k]
  }

  function ReportOf(r: InstallResult): seq<Complaint> {
    match r
    case Installed(warnings) => warnings
    case StagingFailed(leftovers) => leftovers
    case RolledBack(_, recovery) => recovery
  }

  /** Every failure is one of the file system's: what stopped the install, and each complaint in its report. */
  ghost predicate Accountable(t: Node, from: seq<Fault>, to: seq<Fault>, items: seq<Item>, r: InstallResult,
                              es: seq<InstallEntry>)
    requires forall i :: 0 <= i < |items| ==> items[i].target != []
  {
    && Blamed(from, to, ReportOf(r))
    && (r.StagingFailed? ==> StagingStopped(t, from, to, items))
    && (r.RolledBack? ==> CauseHit(from, to, r.cause, es))
  }

  ghost predicate AllStageable(t: Node, items: seq<Item>)
    requires forall i :: 0 <= i < |items| ==> items[i].target != []
  {
    forall i :: 0 <= i < |items| ==> Stageable(t, items[i])
  }

  /** Without a failing call, stageable outputs are installed and nothing is left over. */
  lemma NoFaultInstalls(t: Node, faults: seq<Fault>, items: seq<Item>, r: InstallResult, es: seq<InstallEntry>)
    requires forall i :: 0 <= i < |items| ==> items[i].target != []
    requires Accountable(t, faults, faults, items, r, es) && AllStageable(t, items)
    ensures r == Installed([])
  {
    NoFaultNoComplaint(faults, ReportOf(r));
  }

  /** The outcome of an install, for the tree before and the tree after. */
  ghost predicate Outcome(t: Node, t': Node, root: Path, items: seq<Item>, umask: Mode, r: InstallResult,
                          es: seq<InstallEntry>)
  {
    match r
    case Installed(_) => Committed(t', items, Images(t, items, umask))
    case StagingFailed(_) => Untouched(t', items, Originals(t, items))
    case RolledBack(_, recovery) =>
      && |es| == |items| && EntriesOf(root, items, es)
      && AllUndone(t', es, Originals(t, items), recovery, 0)
      && (recovery == [] ==> Untouched(t', items, Originals(t, items)))
  }

  /** The second half of an install: swap what was prepared, and clean up or roll back. */
  method SwapPrepared(fs: FileSystem, entries: seq<InstallEntry>, ghost t0: Node, ghost root: Path,
                      ghost items: seq<Item>)
    returns (r: InstallResult, ghost es: seq<InstallEntry>)
    requires fs.Valid() && GoodItems(root, items) && |entries| == |items| &&
               Prepared(t0, fs.root, root, items, entries, fs.umask)
    modifies fs
    ensures fs.Valid() && !r.StagingFailed? && SameAllPaths(entries, es)
    ensures Outcome(t0, fs.root, root, items, fs.umask, r, es)
    ensures ForeignKept(old(fs.root), fs.root, root, items)
    ensures RecoverableSince(old(fs.history), fs.history, items, Originals(t0, items), Images(t0, items, fs.umask), es)
    ensures Accountable(t0, old(fs.faults), fs.faults, items, r, es)
    ensures OnlyEntries(old(fs.root), fs.root, items, entries) && AllCleared(fs.root, es, r)
  {
    ghost var originals, wanted, h, f := Originals(t0, items), Images(t0, items, fs.umask), fs.history, fs.faults;
    ghost var t := fs.root;
    ghost var images := PreparedTracks(t0, fs.root, root, items, entries, fs.umask);
    var swapped, cause := SwapAll(fs, entries, root, items, originals, images);
    SafeStatesRecoverable(h, fs.history, root, items, originals, wanted, entries, swapped);
    ghost var t1, h1, f1 := fs.root, fs.history, fs.faults;
    if cause.Some? {
      r, es := RollBack(fs, swapped, cause.value, t0, root, items, images);
      CauseStays(f, f1, fs.faults, cause.value, swapped, es);
    } else {
      r := Commit(fs, swapped, t0, root, items);
      es := swapped;
    }
    BlamedSince(f, f1, fs.faults, ReportOf(r));
    OnlyEntriesJoin(t, t1, fs.root, items, swapped);
    OnlyEntriesSame(t, fs.root, items, swapped, entries);
    RecoverableRenamed(h, h1, items, originals, wanted, swapped, es);
    RecoverableJoins(h, h1, fs.history, items, originals, wanted, es);
  }

  /** Each entry's workspace is gone, reported, or keeps an original. */
  ghost predicate AllCleared(t: Node, es: seq<InstallEntry>, r: InstallResult) {
    forall k :: 0 <= k < |es| ==> (r.RolledBack? && es[k].backedUp) || Cleared(t, es[k], ReportOf(r))
  }

  lemma CauseStays(a: seq<Fault>, b: seq<Fault>, c: seq<Fault>, cause: Cause, es: seq<InstallEntry>,
                   es': seq<InstallEntry>)
    requires b <= c && CauseHit(a, b, cause, es) && a <= b && SameAllPaths(es, es')
    ensures CauseHit(a, c, cause, es')
  {
    match cause
    case LstatFailure(at) => HitWidens(a, a, b, c, Fault(StatOp, at));
    case BackupFailure(at) => HitWidens(a, a, b, c, Fault(RenameOp, at));
    case InstallFailure(at) =>
      var k :| 0 <= k < |es| && es[k].target == at && Hit(a, b, Fault(RenameOp, es[k].output));
      HitWidens(a, a, b, c, Fault(RenameOp, es[k].output));
      assert SamePaths(es[k], es'[k]);
  }

  lemma OnlyEntriesJoin(t0: Node, t1: Node, t2: Node, items: seq<Item>, es: seq<InstallEntry>)
    requires forall i :: 0 <= i < |items| ==> items[i].target != []
    requires OnlyEntries(t0, t1, items, es) && OnlyEntries(t1, t2, items, es)
    ensures OnlyEntries(t0, t2, items, es)
  {}

  lemma PreparedTracks(t0: Node, t: Node, root: Path, items: seq<Item>, es: seq<InstallEntry>, umask: Mode)
    returns (images: seq<Node>)
    requires GoodItems(root, items) && |es| == |items| && Prepared(t0, t, root, items, es, umask)
    ensures AllTrack(t, es, Originals(t0, items), images, |es|)
    ensures forall k :: 0 <= k < |items| ==> Images(t0, items, umask)[k] == Some(images[k])
  {
    KeptTargets(t0, t, root, items);
    images := seq(|items|, k requires 0 <= k < |items| &&
        Images(t0, items, umask)[k].Some? => Images(t0, items, umask)[k].value);
  }

  method RollBack(fs: FileSystem, swapped: seq<InstallEntry>, cause: Cause, ghost t0: Node, ghost root: Path,
                  ghost items: seq<Item>, ghost images: seq<Node>)
    returns (r: InstallResult, ghost es: seq<InstallEntry>)
    requires fs.Valid() && GoodItems(root, items) && |swapped| == |items| && EntriesOf(root, items, swapped)
    requires AllTrack(fs.root, swapped, Originals(t0, items), images, |items|)
    modifies fs
    ensures fs.Valid() && r.RolledBack? && r.cause == cause && SameAllPaths(swapped, es)
    ensures Blamed(old(fs.faults), fs.faults, r.recovery) && OnlyEntries(old(fs.root), fs.root, items, swapped) &&
              AllCleared(fs.root, es, r)
    ensures Outcome(t0, fs.root, root, items, fs.umask, r, es)
    ensures ForeignKept(old(fs.root), fs.root, root, items)
    ensures RecoverableSince(old(fs.history), fs.history, items, Originals(t0, items), Images(t0, items, fs.umask), es)
  {
    ghost var originals, wanted, h := Originals(t0, items), Images(t0, items, fs.umask), fs.history;
    var rolled, recovery := RollbackInstall(fs, swapped, root, items, originals, images);
    SafeStatesRecoverable(h, fs.history, root, items, originals, wanted, swapped, rolled);
    es, r := rolled, RolledBack(cause, recovery);
    EntriesOfSameAll(root, items, swapped, rolled);
    if recovery == [] { EmptyReportMeansRestored(fs.root, rolled, originals, recovery); }
  }

  lemma EntriesOfSameAll(root: Path, items: seq<Item>, es: seq<InstallEntry>, es': seq<InstallEntry>)
    requires EntriesOf(root, items, es) && SameAllPaths(es, es')
    ensures EntriesOf(root, items, es')
  {}

  method Commit(fs: FileSystem, swapped: seq<InstallEntry>, ghost t0: Node, ghost root: Path, ghost items: seq<Item>)
    returns (r: InstallResult)
    requires fs.Valid() && GoodItems(root, items) && |swapped| == |items| && EntriesOf(root, items, swapped)
    requires Committed(fs.root, items, Images(t0, items, fs.umask))
    modifies fs
    ensures fs.Valid() && r.Installed?
    ensures Blamed(old(fs.faults), fs.faults, r.warnings) && OnlyEntries(old(fs.root), fs.root, items, swapped) &&
              AllCleared(fs.root, swapped, r)
    ensures Outcome(t0, fs.root, root, items, fs.umask, r, swapped)
    ensures ForeignKept(old(fs.root), fs.root, root, items)
    ensures RecoverableSince(old(fs.history), fs.history, items, Originals(t0, items), Images(t0, items, fs.umask),
              swapped)
  {
    ghost var t, h := fs.root, fs.history;
    var warnings := CleanupEntries(fs, swapped);
    CleanupKept(t, h, fs.root, fs.history, root, items, swapped);
    KeptTargets(t, fs.root, root, items);
    CommittedStatesRecoverable(t, h, fs.history, root, items, Originals(t0, items), Images(t0, items, fs.umask),
        swapped);
    r := Installed(warnings);
  }

  lemma RecoverableRenamed(h: seq<Node>, h': seq<Node>, items: seq<Item>, originals: seq<Option<Node>>,
                           images: seq<Option<Node>>, es: seq<InstallEntry>, es': seq<InstallEntry>)
    requires RecoverableSince(h, h', items, originals, images, es) && SameAllPaths(es, es')
    ensures RecoverableSince(h, h', items, originals, images, es')
  {}

  /** The workspaces an install made are gone, reported, or keep an original. */
  lemma InstallSwept(t0: Node, t1: Node, t: Node, items: seq<Item>, entries: seq<InstallEntry>, es: seq<InstallEntry>,
                     r: InstallResult)
    requires forall i :: 0 <= i < |items| ==> items[i].target != []
    requires OnlyEntries(t0, t1, items, entries) && OnlyEntries(t1, t, items, entries) && SameAllPaths(entries, es) &&
               AllCleared(t, es, r)
    ensures Swept(t0, t, items, ReportOf(r), if r.RolledBack? then es else [])
  {
    OnlyEntriesJoin(t0, t1, t, items, entries);
    OnlyEntriesSame(t0, t, items, entries, es);
    forall p: Path | Beside(items, p) && Lookup(t0, p).None? && Lookup(t, p).Some?
      ensures CleanupFailure(p) in ReportOf(r) ||
                (r.RolledBack? && exists k :: 0 <= k < |es| && es[k].backedUp && p == es[k].workspace)
    {
      var k :| 0 <= k < |es| && p == es[k].workspace;
      assert (r.RolledBack? && es[k].backedUp) || Cleared(t, es[k], ReportOf(r));
    }
  }

  /**
   Installs the staged outputs at their targets. `es` is where the entries ended up, so that
   the contract can say which backups hold originals.
   */
  method InstallOutputs(fs: FileSystem, root: Path, stagedConfig: Path, stagedInstaller: Path, stagedPin: Path)
    returns (r: InstallResult, ghost es: seq<InstallEntry>)
    requires fs.Valid()
    requires Apart(stagedConfig, root) && Apart(stagedInstaller, root) && Apart(stagedPin, root)
    modifies fs
    ensures fs.Valid()
    ensures Outcome(old(fs.root), fs.root, root, Items(root, stagedConfig, stagedInstaller, stagedPin), fs.umask, r, es)
    ensures ForeignKept(old(fs.root), fs.root, root, Items(root, stagedConfig, stagedInstaller, stagedPin))
    ensures var items := Items(root, stagedConfig, stagedInstaller, stagedPin);
            RecoverableSince(old(fs.history), fs.history, items, Originals(old(fs.root), items),
                Images(old(fs.root), items, fs.umask), es)
    ensures Accountable(old(fs.root), old(fs.faults), fs.faults, Items(root, stagedConfig, stagedInstaller, stagedPin),
              r, es)
    ensures var items := Items(root, stagedConfig, stagedInstaller, stagedPin);
            fs.faults == old(fs.faults) && AllStageable(old(fs.root), items) ==> r == Installed([])
    ensures Swept(old(fs.root), fs.root, Items(root, stagedConfig, stagedInstaller, stagedPin), ReportOf(r),
              if r.RolledBack? then es else [])
    ensures r.Installed? ==>
              && Lookup(old(fs.root), stagedConfig).Some? && IsFile(old(fs.root), stagedInstaller)
              && IsFile(old(fs.root), stagedPin)
              && Lookup(fs.root, root + ["config", "manifests", "mcp-lifecycle-operator"]) ==
                   Some(CopiedTree(Lookup(old(fs.root), stagedConfig).value, fs.umask))
              && Lookup(fs.root, root + ["internal", "controller", "resources", "mcp-lifecycle-operator.yaml"]) ==
                   Some(CopiedFile(Lookup(old(fs.root), stagedInstaller).value, fs.umask))
              && Lookup(fs.root, root + ["operand-image.json"]) ==
                   Some(CopiedFile(Lookup(old(fs.root), stagedPin).value, fs.umask))
    ensures r.StagingFailed? || (r.RolledBack? && r.recovery == []) ==>
              && Lookup(fs.root, root + ["config", "manifests", "mcp-lifecycle-operator"]) ==
                   Lookup(old(fs.root), root + ["config", "manifests", "mcp-lifecycle-operator"])
              && Lookup(fs.root, root + ["internal", "controller", "resources", "mcp-lifecycle-operator.yaml"]) ==
                   Lookup(old(fs.root), root + ["internal", "controller", "resources", "mcp-lifecycle-operator.yaml"])
              && Lookup(fs.root, root + ["operand-image.json"]) ==
                   Lookup(old(fs.root), root + ["operand-image.json"])
  {
    var items := Items(root, stagedConfig, stagedInstaller, stagedPin);
    ItemsAreGood(root, stagedConfig, stagedInstaller, stagedPin);
    ghost var t0, h0, f0 := fs.root, fs.history, fs.faults;
    var entries, failure := StageAll(fs, root, items);
    KeptTargets(t0, fs.root, root, items);
    ghost var t1, h1, f1 := fs.root, fs.history, fs.faults;
    if failure.Some? {
      es := entries;
      r := StagingFailed(failure.value);
    } else {
      r, es := SwapPrepared(fs, entries, t0, root, items);
      AccountableSince(t0, f0, f1, fs.faults, items, r, es);
      InstallSwept(t0, t1, fs.root, items, entries, es, r);
    }
    KeptStatesRecoverable(t0, h0, h1, root, items, Images(t0, items, fs.umask), es);
    if failure.None? {
      RecoverableJoins(h0, h1, fs.history, items, Originals(t0, items), Images(t0, items, fs.umask), es);
    }
    if fs.faults == f0 && AllStageable(t0, items) { NoFaultInstalls(t0, f0, items, r, es); }
    if r.Installed? {
      CommittedMeans(t0, fs.root, root, stagedConfig, stagedInstaller, stagedPin, fs.umask);
    } else if ReportsRestored(r) {
      UntouchedMeans(t0, fs.root, root, stagedConfig, stagedInstaller, stagedPin);
    }
  }

  /** Nothing was swapped, or everything was put back. */
  predicate ReportsRestored(r: InstallResult) {
    r.StagingFailed? || (r.RolledBack? && r.recovery == [])
  }

  /** Which staged output a committed install has put where. */
  lemma CommittedMeans(t: Node, t': Node, root: Path, stagedConfig: Path, stagedInstaller: Path, stagedPin: Path,
                       umask: Mode)
    requires var items := Items(root, stagedConfig, stagedInstaller, stagedPin);
             Committed(t', items, Images(t, items, umask))
    ensures Lookup(t, stagedConfig).Some? && IsFile(t, stagedInstaller) && IsFile(t, stagedPin)
    ensures Lookup(t', root + ["config", "manifests", "mcp-lifecycle-operator"]) ==
            Some(CopiedTree(Lookup(t, stagedConfig).value, umask))
    ensures Lookup(t', root + ["internal", "controller", "resources", "mcp-lifecycle-operator.yaml"]) ==
            Some(CopiedFile(Lookup(t, stagedInstaller).value, umask))
    ensures Lookup(t', root + ["operand-image.json"]) == Some(CopiedFile(Lookup(t, stagedPin).value, umask))
  {
    var items := Items(root, stagedConfig, stagedInstaller, stagedPin);
    assert items[0].target == root + CONFIG && items[1].target == root + INSTALLER &&
        items[2].target == root + IMAGE_PIN;
  }

  /** And which targets are as before when it was not committed. */
  lemma UntouchedMeans(t: Node, t': Node, root: Path, stagedConfig: Path, stagedInstaller: Path, stagedPin: Path)
    requires var items := Items(root, stagedConfig, stagedInstaller, stagedPin);
             Untouched(t', items, Originals(t, items))
    ensures Lookup(t', root + ["config", "manifests", "mcp-lifecycle-operator"]) ==
            Lookup(t, root + ["config", "manifests", "mcp-lifecycle-operator"])
    ensures Lookup(t', root + ["internal", "controller", "resources", "mcp-lifecycle-operator.yaml"]) ==
            Lookup(t, root + ["internal", "controller", "resources", "mcp-lifecycle-operator.yaml"])
    ensures Lookup(t', root + ["operand-image.json"]) == Lookup(t, root + ["operand-image.json"])
  {
    var items := Items(root, stagedConfig, stagedInstaller, stagedPin);
    assert items[0].target == root + CONFIG && items[1].target == root + INSTALLER &&
        items[2].target == root + IMAGE_PIN;
  }

  /** The outputs that can be staged: a directory and two files, and ways to the targets that no file blocks. */
  lemma StageableMeans(t: Node, root: Path, stagedConfig: Path, stagedInstaller: Path, stagedPin: Path)
    ensures AllStageable(t, Items(root, stagedConfig, stagedInstaller, stagedPin)) <==>
              && IsDir(t, stagedConfig) && IsFile(t, stagedInstaller) && IsFile(t, stagedPin)
              && Clear(t, root + ["config", "manifests"]) && Clear(t, root + ["internal", "controller", "resources"])
              && Clear(t, root)
  {
    var items := Items(root, stagedConfig, stagedInstaller, stagedPin);
    assert Parent(root + CONFIG) == root + ["config", "manifests"];
    assert Parent(root + INSTALLER) == root + ["internal", "controller", "resources"];
    assert Parent(root + IMAGE_PIN) == root;
    assert Stageable(t, items[0]) && Stageable(t, items[1]) && Stageable(t, items[2]) <==> AllStageable(t, items);
  }

  lemma AccountableSince(t: Node, a: seq<Fault>, b: seq<Fault>, c: seq<Fault>, items: seq<Item>, r: InstallResult,
                         es: seq<InstallEntry>)
    requires forall i :: 0 <= i < |items| ==> items[i].target != []
    requires a <= b && Accountable(t, b, c, items, r, es) && !r.StagingFailed?
    ensures Accountable(t, a, c, items, r, es)
  {
    BlamedSince(a, b, c, ReportOf(r));
    if r.RolledBack? {
      match r.cause
      case LstatFailure(at) => HitWidens(a, b, c, c, Fault(StatOp, at));
      case BackupFailure(at) => HitWidens(a, b, c, c, Fault(RenameOp, at));
      case InstallFailure(at) =>
        var k :| 0 <= k < |es| && es[k].target == at && Hit(b, c, Fault(RenameOp, es[k].output));
        HitWidens(a, b, c, c, Fault(RenameOp, es[k].output));
    }
  }

  lemma KeptStatesRecoverable(t0: Node, h: seq<Node>, h': seq<Node>, root: Path, items: seq<Item>,
                              wanted: seq<Option<Node>>, es: seq<InstallEntry>)
    requires GoodItems(root, items) && |wanted| == |items| && KeptSince(t0, h, h', root, items)
    ensures RecoverableSince(h, h', items, Originals(t0, items), wanted, es)
  {
    forall k | |h| <= k < |h'| ensures Recoverable(h'[k], items, Originals(t0, items), wanted, es) {
      KeptTargets(t0, h'[k], root, items);
    }
  }

  lemma SafeStatesRecoverable(h: seq<Node>, h': seq<Node>, root: Path, items: seq<Item>, originals: seq<Option<Node>>,
                              wanted: seq<Option<Node>>, es: seq<InstallEntry>, es': seq<InstallEntry>)
    requires |items| == |originals| == |wanted| == |es| && EntriesOf(root, items, es) && SameAllPaths(es, es')
    requires SafeSince(h, h', es, originals)
    ensures RecoverableSince(h, h', items, originals, wanted, es')
  {
    forall k | |h| <= k < |h'| ensures Recoverable(h'[k], items, originals, wanted, es') {
      assert AllSafe(h'[k], es, originals);
    }
  }

  lemma CommittedStatesRecoverable(t: Node, h: seq<Node>, h': seq<Node>, root: Path, items: seq<Item>,
                                   originals: seq<Option<Node>>, wanted: seq<Option<Node>>, es: seq<InstallEntry>)
    requires GoodItems(root, items) && |items| == |originals| == |wanted| && KeptSince(t, h, h', root, items)
    requires forall k :: 0 <= k < |items| ==> Lookup(t, items[k].target) == wanted[k]
    ensures RecoverableSince(h, h', items, originals, wanted, es)
  {
    forall k | |h| <= k < |h'| ensures Recoverable(h'[k], items, originals, wanted, es) {
      KeptTargets(t, h'[k], root, items);
    }
  }
}
