/**
 The operator's side of the migration protocol (internal/controller/storage_migration.go),
 written as the controller runs it. Every API call is a step of the protocol in module
 `Migration`, preceded by whatever the migrator and outside writers did in the meantime, so
 the run theorems there hold of each execution of these methods.
 */
module MigrationController {
  import opened Wrappers
  import opened Api
  import Migration

  const RESOURCE := "storageversionmigrations"
  const MIGRATION_REQUEUE := 60
  const PENDING := "StorageMigrationPending"
  const RUNNING := "StorageMigrationRunning"
  const SUCCEEDED := "StorageMigrationSucceeded"
  const FAILED := "StorageMigrationFailed"

  datatype GetAnswer = Found(svm: Migration.Svm) | NotFound | GetFailed
  datatype CreateAnswer = Created | AlreadyExists | CreateFailed

  function ReadOf(a: GetAnswer): Option<Migration.Svm> {
    if a.Found? then Some(a.svm) else None
  }

  /** What the operator may do next: create when nothing is there, delete a failure below the limit. */
  function PcAfter(a: GetAnswer): Migration.Pc {
    match a
    case NotFound => Migration.Creating(1)
    case GetFailed => Migration.Idle
    case Found(o) =>
      if Migration.FailedOnly(o) && Migration.Attempt(o) < Migration.MAX_RETRIES
          then Migration.Deleting(Migration.Attempt(o)) else Migration.Idle
  }

  /** Whether the object reports success, or only a failure. */
  ghost predicate SaysDone(o: Migration.Svm) { Migration.FirstSays(o, "Succeeded", "True") }

  ghost predicate SaysFailed(o: Migration.Svm) {
    !Migration.FirstSays(o, "Succeeded", "True") && Migration.FirstSays(o, "Failed", "True")
  }

  lemma SaysMeans(o: Migration.Svm)
    ensures Migration.Succeeded(o) <==> SaysDone(o)
    ensures Migration.FailedOnly(o) <==> SaysFailed(o)
  {
    Migration.ReportsMeans(o, "Succeeded");
    Migration.ReportsMeans(o, "Failed");
  }

  /**
   The operator's next call: the first create where nothing is, a delete of a failure below five
   attempts, or none.
   */
  lemma PcMeans(a: GetAnswer)
    ensures a.NotFound? ==> PcAfter(a) == Migration.Creating(1)
    ensures a.GetFailed? ==> PcAfter(a) == Migration.Idle
    ensures a.Found? ==>
              PcAfter(a) ==
              if SaysFailed(a.svm) && Migration.Attempt(a.svm) < 5 then Migration.Deleting(Migration.Attempt(a.svm))
              else Migration.Idle
  {
    if a.Found? { SaysMeans(a.svm); }
  }

  /** What one reconcile of the migration concluded. */
  datatype Verdict = Settled | Completed | Exhausted | Waiting(reason: string)

  function Effect(v: Verdict, cs: seq<Condition>, generation: int): seq<Condition> {
    match v
    case Settled => cs
    case Completed => Upsert(cs, TrueCondition(StorageMigrated, SUCCEEDED, generation))
    case Exhausted => Upsert(cs, FalseCondition(StorageMigrated, FAILED, generation))
    case Waiting(reason) => Upsert(cs, FalseCondition(StorageMigrated, reason, generation))
  }

  function RequeueOf(v: Verdict): nat {
    if v.Waiting? then MIGRATION_REQUEUE else 0
  }

  /** A verdict other than `Settled` sets the migration's own condition, and no other. */
  lemma EffectMeans(v: Verdict, cs: seq<Condition>, g: int)
    ensures v.Settled? ==> Effect(v, cs, g) == cs
    ensures var r := Effect(v, cs, g);
            && (v.Completed? ==>
                  Find(r, StorageMigrated) ==
                  Some(Condition(StorageMigrated, True, "StorageMigrationSucceeded", Error, g)))
            && (v.Exhausted? ==>
                  Find(r, StorageMigrated) ==
                  Some(Condition(StorageMigrated, False, "StorageMigrationFailed", Error, g)))
            && (v.Waiting? ==> Find(r, StorageMigrated) == Some(Condition(StorageMigrated, False, v.reason, Error, g)))
            && forall k :: k != StorageMigrated ==> Find(r, k) == Find(cs, k)
  {}

  lemma ExecAppend(w: Migration.World, steps: seq<Migration.Step>, s: Migration.Step)
    ensures Migration.Exec(w, steps + [s]) == Migration.Apply(Migration.Exec(w, steps), s)
  {
    assert (steps + [s])[..|steps + [s]| - 1] == steps;
  }

  /** The API server's copy of the migration object, with the protocol run it has been through. */
  class SvmApi {
    var svm: Option<Migration.Svm>
    ghost const initial: Option<Migration.Svm>
    ghost var steps: seq<Migration.Step>
    ghost var run: Migration.World

    constructor (svm: Option<Migration.Svm>)
      ensures Valid() && run.pc.Idle? && steps == [] && this.svm == svm
    {
      this.svm, this.initial, steps, run := svm, svm, [], Migration.Start(svm);
    }

    /** `run` is where the recorded steps lead, and the stored object is the run's. */
    ghost predicate Valid()
      reads this
    {
      svm == run.svm && run == Migration.Exec(Migration.Start(initial), steps)
    }

    /** The object as it was just before the last recorded step. */
    ghost function Before(): Option<Migration.Svm>
      reads this
      requires steps != []
    {
      Migration.Exec(Migration.Start(initial), steps[..|steps| - 1]).svm
    }

    ghost function Last(): Migration.Step
      reads this
      requires steps != []
    {
      steps[|steps| - 1]
    }

    ghost method Record(s: Migration.Step)
      requires run == Migration.Exec(Migration.Start(initial), steps)
      modifies this`steps, this`run
      ensures steps == old(steps) + [s] && run == Migration.Apply(old(run), s)
      ensures run == Migration.Exec(Migration.Start(initial), steps)
    {
      ExecAppend(Migration.Start(initial), steps, s);
      steps, run := steps + [s], Migration.Apply(run, s);
    }

    /** Others act between two of the operator's calls: any number of writes, deletes and reports. */
    method Interference()
      requires Valid()
      modifies this
      ensures Valid() && old(steps) <= steps
      ensures run.pc == old(run.pc) && run.created == old(run.created) && run.successes == old(run.successes)
    {
      var rounds: nat := *;
      while rounds > 0
        invariant Valid() && old(steps) <= steps
        invariant run.pc == old(run.pc) && run.created == old(run.created) && run.successes == old(run.successes)
      {
        rounds := rounds - 1;
        var kind: nat := *;
        if kind == 0 {
          var written: Migration.Svm := *;
          svm := Some(written);
          Record(Migration.OutsideWrite(written));
        } else if kind == 1 {
          svm := None;
          Record(Migration.OutsideDelete);
        } else if svm.Some? {
          var conditions: Option<seq<Migration.SvmCondition>> := *;
          svm := Some(svm.value.(conditions := conditions));
          Record(Migration.MigratorReport(conditions));
        }
      }
    }

    /** `at` is the run up to the read, so that the contract can say which object was read. */
    method Get() returns (a: GetAnswer, ghost at: seq<Migration.Step>)
      requires Valid() && run.pc.Idle?
      modifies this
      ensures Valid() && old(steps) < steps && run.created == old(run.created)
      ensures a == (if svm.Some? then Found(svm.value) else NotFound) || a == GetFailed
      ensures run.pc == PcAfter(a)
      ensures run.successes == old(run.successes) + (if a.Found? && Migration.Succeeded(a.svm) then 1 else 0)
      ensures old(steps) <= at && steps == at + [Migration.Get(!a.GetFailed?)] &&
                svm == Migration.Exec(Migration.Start(initial), at).svm
      ensures !a.GetFailed? ==> svm == ReadOf(a)
    {
      Interference();
      var ok: bool := *;
      at := steps;
      Record(Migration.Get(ok));
      a := if !ok then GetFailed else if svm.Some? then Found(svm.value) else NotFound;
    }

    /** True also when there was nothing to delete; a failed call may have deleted all the same. */
    method Delete() returns (ok: bool)
      requires Valid() && run.pc.Deleting?
      modifies this
      ensures Valid() && old(steps) < steps && run.created == old(run.created) && run.successes == old(run.successes)
      ensures run.pc == if ok then Migration.Creating(old(run.pc.attempt) + 1) else Migration.Idle
      ensures Last().Delete? && (Last().deletion.Done? <==> ok) && (ok ==> svm.None?)
    {
      Interference();
      var applied: bool := *;
      ok := *;
      if ok || applied { svm := None; }
      Record(Migration.Delete(if ok then Migration.Done else Migration.Failed(applied)));
    }

    /** Never replaces an object; a failed call may have created it all the same. */
    method Create(attempt: int) returns (a: CreateAnswer)
      requires Valid() && run.pc == Migration.Creating(attempt)
      modifies this
      ensures Valid() && old(steps) < steps && run.pc.Idle? && run.successes == old(run.successes)
      ensures a.Created? ==> svm == Some(Migration.Fresh(attempt)) && run.created == old(run.created) + [attempt]
      ensures a.AlreadyExists? ==> run.created == old(run.created)
      ensures Last().Create? && (Last().creation.Failed? <==> a.CreateFailed?)
      ensures Before().Some? ==> svm == Before() && !a.Created?
      ensures Before().None? ==> svm in {None, Some(Migration.Fresh(attempt))} && !a.AlreadyExists?
    {
      Interference();
      var applied: bool, ok: bool := *, *;
      ghost var made := steps;
      a := if !ok then CreateFailed else if svm.Some? then AlreadyExists else Created;
      if (ok || applied) && svm.None? { svm := Some(Migration.Fresh(attempt)); }
      Record(Migration.Create(if ok then Migration.Done else Migration.Failed(applied)));
      assert steps[..|steps| - 1] == made;
    }

    /** The delete that a Removed resource asks for, outside the retry cycle. */
    method DeleteWhenRemoved() returns (ok: bool)
      requires Valid() && run.pc.Idle?
      modifies this
      ensures Valid() && old(steps) < steps && run.pc.Idle? && run.created == old(run.created) &&
                run.successes == old(run.successes)
      ensures ok ==> svm.None?
      ensures Last().RemovedDelete? && (Last().removal.Done? <==> ok)
    {
      Interference();
      var applied: bool := *;
      ok := *;
      if ok || applied { svm := None; }
      Record(Migration.RemovedDelete(if ok then Migration.Done else Migration.Failed(applied)));
    }
  }

  /** The first condition of the given type; entries that are not maps are skipped. */
  method FindMigrationCondition(o: Migration.Svm, kind: string) returns (c: Option<Migration.SvmCondition>)
    ensures c == if o.conditions.Some? then Migration.FirstOf(o.conditions.value, kind) else None
    ensures c.Some? <==> o.conditions.Some? && exists i ::
              0 <= i < |o.conditions.value| && o.conditions.value[i].Fields? && o.conditions.value[i].kind == kind
    ensures c.Some? ==> exists i ::
              && 0 <= i < |o.conditions.value| && c.value == o.conditions.value[i] && c.value.Fields?
              && c.value.kind == kind
              && forall j :: 0 <= j < i ==> o.conditions.value[j].NotAMap? || o.conditions.value[j].kind != kind
  {
    if o.conditions.None? { return None; }
    var cs := o.conditions.value;
    for i := 0 to |cs|
      invariant forall j :: 0 <= j < i ==> cs[j].NotAMap? || cs[j].kind != kind
    {
      if cs[i].Fields? && cs[i].kind == kind {
        Migration.FirstOfIs(cs, kind, i);
        return Some(cs[i]);
      }
    }
    Migration.FirstOfMeans(cs, kind);
    c := None;
  }

  method ConditionTrue(o: Migration.Svm, kind: string) returns (holds: bool)
    ensures holds <==> Migration.Reports(o, kind)
    ensures holds <==> Migration.FirstSays(o, kind, "True")
    ensures holds <==> o.conditions.Some? && exists i ::
              && 0 <= i < |o.conditions.value| && o.conditions.value[i] == Migration.Fields(kind, "True")
              && forall j :: 0 <= j < i ==> o.conditions.value[j].NotAMap? || o.conditions.value[j].kind != kind
  {
    Migration.ReportsMeans(o, kind);
    var c := FindMigrationCondition(o, kind);
    holds := c.Some? && c.value.status == "True";
  }

  predicate Served(resources: Option<seq<string>>) {
    resources.Some? && RESOURCE in resources.value
  }

  /** Whether discovery lists the resource; a discovery error counts as not served. */
  method ApiServed(resources: Option<seq<string>>) returns (served: bool)
    ensures served <==> Served(resources)
    ensures served <==> resources.Some? && "storageversionmigrations" in resources.value
  {
    if resources.None? { return false; }
    for i := 0 to |resources.value|
      invariant RESOURCE !in resources.value[..i]
    {
      if resources.value[i] == RESOURCE { return true; }
    }
    served := false;
  }

  /** What the operator waits for after a create. */
  function AfterCreate(s: Migration.Step): Verdict
    requires s.Create?
  {
    Waiting(if s.creation.Failed? then FAILED else RUNNING)
  }

  /**
   The verdicts on an object that was read, given the last call made; only a retry or an absence leads
   to further calls.
   */
  ghost function Verdicts(read: Option<Migration.Svm>, last: Migration.Step): set<Verdict> {
    match read
    case None => if last.Create? then {AfterCreate(last)} else {}
    case Some(o) =>
      if Migration.FailedOnly(o) && Migration.Attempt(o) < Migration.MAX_RETRIES then
        if last.Create? then {AfterCreate(last)} else if last.Delete? && last.deletion.Failed? then {Waiting(FAILED)}
            else {}
      else if !last.Get? then {}
      else if Migration.Succeeded(o) then {Completed}
      else if Migration.FailedOnly(o) then {Exhausted}
      else {Waiting(RUNNING)}
  }

  /** Spelled out: what each reported state leads to, and that only a failure below five attempts is retried. */
  lemma VerdictsMean(read: Option<Migration.Svm>, last: Migration.Step, v: Verdict)
    requires v in Verdicts(read, last)
    ensures v.Completed? <==> read.Some? && SaysDone(read.value)
    ensures v.Exhausted? <==> read.Some? && SaysFailed(read.value) && Migration.Attempt(read.value) >= 5
    ensures read.Some? && !SaysDone(read.value) && !SaysFailed(read.value) ==>
              v == Waiting("StorageMigrationRunning") && last.Get?
    ensures read.None? || (SaysFailed(read.value) && Migration.Attempt(read.value) < 5) ==>
              || (last.Create? && last.creation.Failed? && v == Waiting("StorageMigrationFailed"))
              || (last.Create? && last.creation.Done? && v == Waiting("StorageMigrationRunning"))
              || (last.Delete? && last.deletion.Failed? && v == Waiting("StorageMigrationFailed"))
    ensures !v.Settled?
  {
    if read.Some? { SaysMeans(read.value); }
  }

  /** Among the steps since `from` is a read, and the verdict follows from it. */
  ghost predicate ReadAndFollowed(initial: Option<Migration.Svm>, from: seq<Migration.Step>, to: seq<Migration.Step>,
                                  v: Verdict)
  {
    && from < to
    && exists g {:trigger to[g]} :: |from| <= g < |to| && to[g].Get? &&
         if to[g].ok then v in Verdicts(Migration.Exec(Migration.Start(initial), to[..g]).svm, to[|to| - 1])
         else v == Waiting(FAILED) && g == |to| - 1
  }

  method CreateStorageMigration(api: SvmApi, cr: Resource, cm: ConditionsManager, attempt: int)
    returns (requeue: nat, ghost verdict: Verdict)
    requires cm.accessor == cr && api.Valid() && api.run.pc == Migration.Creating(attempt)
    modifies api, cr`conditions
    ensures api.Valid() && api.run.pc.Idle? && old(api.steps) < api.steps && api.run.successes == old(api.run.successes)
    ensures api.Last().Create? && verdict == AfterCreate(api.Last()) && requeue == RequeueOf(verdict)
    ensures requeue == 60 && verdict ==
              Waiting(if api.Last().creation.Failed? then "StorageMigrationFailed" else "StorageMigrationRunning")
    ensures cr.conditions == Effect(verdict, old(cr.conditions), cm.generation)
  {
    var a := api.Create(attempt);
    var reason := if a.CreateFailed? then FAILED else RUNNING;
    cm.MarkFalse(StorageMigrated, reason);
    verdict := Waiting(reason);
    requeue := MIGRATION_REQUEUE;
  }

  /**
   Maps what the migrator reported onto the condition, retrying a failure while the budget lasts; `o`
   was just read.
   */
  method ObserveStorageMigration(api: SvmApi, cr: Resource, cm: ConditionsManager, o: Migration.Svm)
    returns (requeue: nat, ghost verdict: Verdict)
    requires cm.accessor == cr && api.Valid() && api.steps != [] && api.Last().Get?
    requires api.run.pc == PcAfter(Found(o))
    modifies api, cr`conditions
    ensures api.Valid() && api.run.pc.Idle? && old(api.steps) <= api.steps &&
              api.run.successes == old(api.run.successes)
    ensures verdict.Completed? <==> Migration.Succeeded(o)
    ensures verdict.Exhausted? <==> Migration.FailedOnly(o) && Migration.Attempt(o) >= Migration.MAX_RETRIES
    ensures !verdict.Settled? && requeue == RequeueOf(verdict)
    ensures !verdict.Waiting? ==> api.steps == old(api.steps)
    ensures verdict in Verdicts(Some(o), api.Last())
    ensures cr.conditions == Effect(verdict, old(cr.conditions), cm.generation)
    ensures verdict.Completed? <==> o.conditions.Some? && exists i ::
              && 0 <= i < |o.conditions.value| && o.conditions.value[i] == Migration.Fields("Succeeded", "True")
              && forall j :: 0 <= j < i ==> o.conditions.value[j].NotAMap? || o.conditions.value[j].kind != "Succeeded"
    ensures verdict.Exhausted? <==>
              && !verdict.Completed? && Migration.Attempt(o) >= 5 && o.conditions.Some?
              && exists i ::
                   && 0 <= i < |o.conditions.value| && o.conditions.value[i] == Migration.Fields("Failed", "True")
                   && forall j :: 0 <= j < i ==>
                        o.conditions.value[j].NotAMap? || o.conditions.value[j].kind != "Failed"
    ensures verdict == Waiting("StorageMigrationRunning") || (SaysFailed(o) && Migration.Attempt(o) < 5) ||
            !verdict.Waiting?
    ensures SaysFailed(o) && Migration.Attempt(o) < 5 ==> old(api.steps) < api.steps
    ensures requeue == if verdict.Waiting? then 60 else 0
  {
    SaysMeans(o);
    var done := ConditionTrue(o, "Succeeded");
    if done {
      cm.MarkTrueWithReason(StorageMigrated, SUCCEEDED);
      return 0, Completed;
    }
    var failed := ConditionTrue(o, "Failed");
    if failed {
      var attempt := Migration.Attempt(o);
      if attempt >= Migration.MAX_RETRIES {
        cm.MarkFalse(StorageMigrated, FAILED);
        return 0, Exhausted;
      }
      var deleted := api.Delete();
      if !deleted {
        cm.MarkFalse(StorageMigrated, FAILED);
        return MIGRATION_REQUEUE, Waiting(FAILED);
      }
      requeue, verdict := CreateStorageMigration(api, cr, cm, attempt + 1);
      return;
    }
    cm.MarkFalse(StorageMigrated, RUNNING);
    requeue, verdict := MIGRATION_REQUEUE, Waiting(RUNNING);
  }

  /** A verdict that follows from the object read after `at`, or from not having been able to read it. */
  lemma FollowedFrom(initial: Option<Migration.Svm>, from: seq<Migration.Step>, at: seq<Migration.Step>,
                     made: seq<Migration.Step>, ok: bool, to: seq<Migration.Step>, read: Option<Migration.Svm>,
                     v: Verdict)
    requires from <= at && made == at + [Migration.Get(ok)] && made <= to
    requires ok ==> Migration.Exec(Migration.Start(initial), at).svm == read && v in Verdicts(read, to[|to| - 1])
    requires !ok ==> v == Waiting(FAILED) && to == made
    ensures ReadAndFollowed(initial, from, to, v)
  {
    var g := |at|;
    assert to[g] == Migration.Get(ok) && to[..g] == at;
  }

  /** Acts on the answer of a read that was just made. */
  method ActOn(api: SvmApi, cr: Resource, cm: ConditionsManager, a: GetAnswer)
    returns (requeue: nat, ghost verdict: Verdict)
    requires cm.accessor == cr && api.Valid() && api.steps != [] && api.Last().Get? && api.run.pc == PcAfter(a)
    modifies api, cr`conditions
    ensures api.Valid() && api.run.pc.Idle? && old(api.steps) <= api.steps &&
              api.run.successes == old(api.run.successes)
    ensures !verdict.Settled? && requeue == RequeueOf(verdict)
    ensures verdict.Completed? <==> a.Found? && Migration.Succeeded(a.svm)
    ensures verdict.Exhausted? <==>
              a.Found? && Migration.FailedOnly(a.svm) && Migration.Attempt(a.svm) >= Migration.MAX_RETRIES
    ensures a.GetFailed? || !verdict.Waiting? ==> api.steps == old(api.steps)
    ensures if a.GetFailed? then verdict == Waiting(FAILED)
            else verdict in Verdicts(ReadOf(a), api.steps[|api.steps| - 1])
    ensures cr.conditions == Effect(verdict, old(cr.conditions), cm.generation)
  {
    match a {
      case NotFound =>
        requeue, verdict := CreateStorageMigration(api, cr, cm, 1);
      case GetFailed =>
        cm.MarkFalse(StorageMigrated, FAILED);
        requeue, verdict := MIGRATION_REQUEUE, Waiting(FAILED);
      case Found(o) =>
        requeue, verdict := ObserveStorageMigration(api, cr, cm, o);
    }
  }

  /** Reads the object and acts on what is there. */
  method ReadStorageMigration(api: SvmApi, cr: Resource, cm: ConditionsManager)
    returns (requeue: nat, ghost verdict: Verdict)
    requires cm.accessor == cr && api.Valid() && api.run.pc.Idle?
    modifies api, cr`conditions
    ensures api.Valid() && api.run.pc.Idle? && !verdict.Settled?
    ensures ReadAndFollowed(api.initial, old(api.steps), api.steps, verdict)
    ensures api.run.successes == old(api.run.successes) + (if verdict.Completed? then 1 else 0)
    ensures verdict.Completed? ==> api.svm.Some? && Migration.Succeeded(api.svm.value)
    ensures verdict.Exhausted? ==> Migration.Exhausted(api.run) && api.run.created == old(api.run.created)
    ensures requeue == RequeueOf(verdict)
    ensures cr.conditions == Effect(verdict, old(cr.conditions), cm.generation)
  {
    ghost var from := api.steps;
    var a;
    ghost var at;
    a, at := api.Get();
    ghost var run, made := api.run, api.steps;
    requeue, verdict := ActOn(api, cr, cm, a);
    if verdict.Completed? || verdict.Exhausted? { assert api.run == run; }
    FollowedFrom(api.initial, from, at, made, !a.GetFailed?, api.steps, ReadOf(a), verdict);
  }

  /**
   Drives the migration one step. The condition becomes True only in a call that read an object
   reporting success, a True condition is left alone without any call, and no other condition moves.
   Otherwise, when the resource is served, the object is read and the verdict follows from it.
   */
  method ReconcileStorageMigration(api: SvmApi, discovery: Option<seq<string>>, cr: Resource, cm: ConditionsManager)
    returns (requeue: nat, ghost verdict: Verdict)
    requires cm.accessor == cr && api.Valid() && api.run.pc.Idle?
    modifies api, cr`conditions
    ensures api.Valid() && api.run.pc.Idle? && old(api.steps) <= api.steps
    ensures verdict.Settled? <==> IsTrue(old(cr.conditions), StorageMigrated)
    ensures verdict.Settled? || !Served(discovery) ==> api.steps == old(api.steps)
    ensures !verdict.Settled? && !Served(discovery) ==> verdict == Waiting("StorageMigrationPending")
    ensures requeue == if verdict.Waiting? then 60 else 0
    ensures !verdict.Settled? && Served(discovery) ==> ReadAndFollowed(api.initial, old(api.steps), api.steps, verdict)
    ensures api.run.successes == old(api.run.successes) + (if verdict.Completed? then 1 else 0)
    ensures verdict.Completed? ==> api.svm.Some? && Migration.Succeeded(api.svm.value)
    ensures verdict.Exhausted? ==> Migration.Exhausted(api.run) && api.run.created == old(api.run.created)
    ensures requeue == RequeueOf(verdict)
    ensures cr.conditions == Effect(verdict, old(cr.conditions), cm.generation)
  {
    if IsTrue(cr.conditions, StorageMigrated) { return 0, Settled; }
    var served := ApiServed(discovery);
    if !served {
      cm.MarkFalse(StorageMigrated, PENDING);
      return MIGRATION_REQUEUE, Waiting(PENDING);
    }
    requeue, verdict := ReadStorageMigration(api, cr, cm);
  }

  /** Whatever the controller did through this server, its creates stay within the budget of the run. */
  lemma ServerStaysInBudget(api: SvmApi)
    requires api.Valid()
    ensures |api.run.created| <= api.run.budget
  {
    Migration.RetryBudget(api.initial, api.steps);
  }
}
