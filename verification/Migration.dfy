/**
 The storage-version migration protocol (internal/controller/storage_migration.go) as steps
 on one shared object. The operator's steps are single API calls, so the migrator and outside
 writers can act between any two of them, calls can fail before or after taking effect, and
 the controller can restart anywhere.
 */
module Migration {
  import opened Wrappers
  import Decimal

  const MAX_RETRIES := 5

  datatype SvmCondition = NotAMap | Fields(kind: string, status: string)

  /** A StorageVersionMigration: the attempt annotation and the migrator's conditions. */
  datatype Svm = Svm(annotation: Option<string>, conditions: Option<seq<SvmCondition>>)

  /** The annotation as a number; absent, unreadable or out of range counts as 0. */
  function Attempt(o: Svm): int {
    if o.annotation.None? then 0
    else match Decimal.Atoi(o.annotation.value) case Some(n) => n case None => 0
  }

  function FirstOf(conditions: seq<SvmCondition>, kind: string): (c: Option<SvmCondition>)
    ensures c.Some? ==> c.value.Fields? && c.value.kind == kind && c.value in conditions
  {
    if conditions == [] then None
    else if conditions[0].Fields? && conditions[0].kind == kind then Some(conditions[0])
    else FirstOf(conditions[1..], kind)
  }

  /** `i` is the position of the first map entry of the type. */
  ghost predicate FirstAt(conditions: seq<SvmCondition>, kind: string, i: int) {
    && 0 <= i < |conditions| && conditions[i].Fields? && conditions[i].kind == kind
    && forall j :: 0 <= j < i ==> conditions[j].NotAMap? || conditions[j].kind != kind
  }

  /** The first map entry of the type is found whenever there is one. */
  lemma {:induction false} FirstOfMeans(conditions: seq<SvmCondition>, kind: string)
    ensures FirstOf(conditions, kind).Some? <==>
            exists i :: 0 <= i < |conditions| && conditions[i].Fields? && conditions[i].kind == kind
    ensures forall i :: FirstAt(conditions, kind, i) ==> FirstOf(conditions, kind) == Some(conditions[i])
    ensures FirstOf(conditions, kind).Some? ==> exists i :: FirstAt(conditions, kind, i)
  {
    if conditions != [] {
      var rest := conditions[1..];
      FirstOfMeans(rest, kind);
      if conditions[0].Fields? && conditions[0].kind == kind {
        assert FirstAt(conditions, kind, 0);
      } else {
        forall i ensures FirstAt(conditions, kind, i) <==> FirstAt(rest, kind, i - 1) {
          FirstLater(conditions, kind, i);
        }
        if i :| FirstAt(rest, kind, i) { assert FirstAt(conditions, kind, i + 1); }
        if i :| 0 <= i < |conditions| && conditions[i].Fields? && conditions[i].kind == kind {
          assert rest[i - 1] == conditions[i];
        }
      }
    }
  }

  lemma FirstOfIs(conditions: seq<SvmCondition>, kind: string, i: int)
    requires FirstAt(conditions, kind, i)
    ensures FirstOf(conditions, kind) == Some(conditions[i])
  {
    FirstOfMeans(conditions, kind);
  }

  lemma FirstLater(conditions: seq<SvmCondition>, kind: string, i: int)
    requires conditions != [] && (conditions[0].NotAMap? || conditions[0].kind != kind)
    ensures FirstAt(conditions, kind, i) <==> FirstAt(conditions[1..], kind, i - 1)
  {
    var rest := conditions[1..];
    assert forall j :: 0 <= j < |rest| ==> rest[j] == conditions[j + 1];
    if FirstAt(rest, kind, i - 1) {
      forall j | 0 <= j < i ensures conditions[j].NotAMap? || conditions[j].kind != kind {
        assert j > 0 ==> conditions[j] == rest[j - 1];
      }
    }
  }

  /** The first map entry of the type says `status`. */
  ghost predicate FirstSays(o: Svm, kind: string, status: string) {
    o.conditions.Some? && exists i :: FirstAt(o.conditions.value, kind, i) && o.conditions.value[i].status == status
  }

  lemma ReportsMeans(o: Svm, kind: string)
    ensures Reports(o, kind) <==> FirstSays(o, kind, "True")
    ensures Reports(o, kind) <==> o.conditions.Some? && exists i ::
              && 0 <= i < |o.conditions.value| && o.conditions.value[i] == Fields(kind, "True")
              && forall j :: 0 <= j < i ==> o.conditions.value[j].NotAMap? || o.conditions.value[j].kind != kind
  {
    if o.conditions.Some? { FirstOfMeans(o.conditions.value, kind); }
  }

  /** The attempt is the number the annotation writes, and 0 when it is absent or writes none of 64 bits. */
  lemma AttemptMeans(o: Svm, n: int)
    requires n != 0
    ensures Attempt(o) == n <==>
            && o.annotation.Some? && -9223372036854775808 <= n <= 9223372036854775807
            && exists sign, zeros :: Decimal.Writes(o.annotation.value, sign, zeros, n)
  {
    if o.annotation.Some? { Decimal.AtoiExactly(o.annotation.value, n); }
  }

  predicate Reports(o: Svm, kind: string) {
    o.conditions.Some? && FirstOf(o.conditions.value, kind).Some? &&
        FirstOf(o.conditions.value, kind).value.status == "True"
  }

  predicate Succeeded(o: Svm) { Reports(o, "Succeeded") }

  predicate FailedOnly(o: Svm) { !Succeeded(o) && Reports(o, "Failed") }

  function Fresh(attempt: int): Svm { Svm(Some(Decimal.Itoa(attempt)), None) }

  /** Where the operator is between two API calls. */
  datatype Pc = Idle | Deleting(attempt: int) | Creating(attempt: int)

  /**
   `created` lists the attempts of the creates that took effect, `epochs` counts the reasons to
   start afresh (an object found at the start, one not found, one written from outside) and
   `budget` adds up what each of those is entitled to.
   */
  datatype World = World(svm: Option<Svm>, pc: Pc, created: seq<int>, epochs: nat, budget: nat, successes: nat)

  /** A call that failed may have taken effect all the same. */
  datatype Outcome = Done | Failed(applied: bool)

  datatype Step =
    | OutsideWrite(written: Svm)
    | OutsideDelete
    | MigratorReport(conditions: Option<seq<SvmCondition>>)
    | Restart
    | Get(ok: bool)
    | Delete(deletion: Outcome)
    | Create(creation: Outcome)
    | RemovedDelete(removal: Outcome)

  predicate OfOperator(s: Step) {
    s.Restart? || s.Get? || s.Delete? || s.Create?
  }

  function Weight(attempt: int): nat {
    if attempt < MAX_RETRIES then MAX_RETRIES - attempt else 0
  }

  function Applied(o: Outcome): bool { o.Done? || o.applied }

  function Start(svm: Option<Svm>): World {
    match svm
    case None => World(None, Idle, [], 0, 0, 0)
    case Some(o) => World(svm, Idle, [], 1, Weight(Attempt(o)), 0)
  }

  /** One step; a call the operator is not about to make changes nothing. */
  function Apply(w: World, s: Step): World {
    match s
    case OutsideWrite(o) => w.(svm := Some(o), epochs := w.epochs + 1, budget := w.budget + Weight(Attempt(o)))
    case OutsideDelete => w.(svm := None)
    case MigratorReport(conditions) => if w.svm.Some? then w.(svm := Some(w.svm.value.(conditions := conditions)))
        else w
    case Restart => w.(pc := Idle)
    case Get(ok) => if w.pc.Idle? && ok then Observe(w) else w
    case Delete(outcome) =>
      if !w.pc.Deleting? then w
      else w.(svm := if Applied(outcome) then None else w.svm,
              pc := if outcome.Done? then Creating(w.pc.attempt + 1) else Idle)
    case Create(outcome) =>
      if !w.pc.Creating? then w
      else if Applied(outcome) && w.svm.None?
          then w.(svm := Some(Fresh(w.pc.attempt)), pc := Idle, created := w.created + [w.pc.attempt])
      else w.(pc := Idle)
    case RemovedDelete(outcome) => if w.pc.Idle? && Applied(outcome) then w.(svm := None) else w
  }

  /** What the operator decides from the object it reads. */
  function Observe(w: World): World {
    match w.svm
    case None => w.(pc := Creating(1), epochs := w.epochs + 1, budget := w.budget + MAX_RETRIES)
    case Some(o) =>
      if Succeeded(o) then w.(successes := w.successes + 1)
      else if Reports(o, "Failed") && Attempt(o) < MAX_RETRIES then w.(pc := Deleting(Attempt(o)))
      else w
  }

  function Exec(w: World, steps: seq<Step>): World
    decreases |steps|
  {
    if steps == [] then w else Apply(Exec(w, steps[..|steps| - 1]), steps[|steps| - 1])
  }

  // ---------------------------------------------------------------- the retry budget

  /** How many more creates the object, if retried to the end, can lead to. */
  function ObjectNeed(svm: Option<Svm>): nat {
    if svm.Some? then Weight(Attempt(svm.value)) else 0
  }

  /** How many more creates the operator's position can lead to. */
  function PcNeed(pc: Pc): nat {
    match pc
    case Idle => 0
    case Deleting(a) => Weight(a)
    case Creating(k) => Weight(k - 1)
  }

  /** At any moment only one of the two can still be used up. */
  function Need(w: World): nat {
    if PcNeed(w.pc) > ObjectNeed(w.svm) then PcNeed(w.pc) else ObjectNeed(w.svm)
  }

  /** The operator retries only below the limit. */
  ghost predicate Sane(w: World) {
    && (w.pc.Deleting? ==> w.pc.attempt < MAX_RETRIES && Decimal.IsInt(w.pc.attempt))
    && (w.pc.Creating? ==> w.pc.attempt <= MAX_RETRIES && Decimal.IsInt(w.pc.attempt))
  }

  lemma AttemptIsInt(o: Svm)
    ensures Decimal.IsInt(Attempt(o))
  {}

  lemma FreshAttempt(k: int)
    requires Decimal.IsInt(k)
    ensures Attempt(Fresh(k)) == k
  {
    Decimal.RoundTrip(k);
  }

  /** The potential: no step spends more than it is granted. */
  lemma StepKeepsBudget(w: World, s: Step)
    requires Sane(w) && |w.created| + Need(w) <= w.budget
    ensures var w' := Apply(w, s); Sane(w') && |w'.created| + Need(w') <= w'.budget
  {
    if w.pc.Creating? { FreshAttempt(w.pc.attempt); }
    if w.svm.Some? { AttemptIsInt(w.svm.value); }
    if s.Get? && w.svm.Some? && w.pc.Idle? {
      assert Need(w) == Weight(Attempt(w.svm.value));
    }
  }

  /** Along every interleaving, creates never exceed the budget the epochs brought. */
  lemma {:induction false} RetryBudget(svm: Option<Svm>, steps: seq<Step>)
    ensures var w := Exec(Start(svm), steps); Sane(w) && |w.created| + Need(w) <= w.budget
    decreases |steps|
  {
    if steps != [] {
      RetryBudget(svm, steps[..|steps| - 1]);
      StepKeepsBudget(Exec(Start(svm), steps[..|steps| - 1]), steps[|steps| - 1]);
    }
  }

  /** No outside writer stamps a negative attempt. */
  ghost predicate NonNegative(steps: seq<Step>) {
    forall i :: 0 <= i < |steps| && steps[i].OutsideWrite? ==> Attempt(steps[i].written) >= 0
  }

  lemma BudgetStep(w: World, s: Step)
    requires w.budget <= MAX_RETRIES * w.epochs && (s.OutsideWrite? ==> Attempt(s.written) >= 0)
    ensures Apply(w, s).budget <= MAX_RETRIES * Apply(w, s).epochs
  {}

  lemma {:induction false} BudgetPerEpoch(svm: Option<Svm>, steps: seq<Step>)
    requires (svm.Some? ==> Attempt(svm.value) >= 0) && NonNegative(steps)
    ensures var w := Exec(Start(svm), steps); w.budget <= MAX_RETRIES * w.epochs
    decreases |steps|
  {
    if steps != [] {
      var before := steps[..|steps| - 1];
      assert forall i :: 0 <= i < |before| ==> before[i] == steps[i];
      BudgetPerEpoch(svm, before);
      BudgetStep(Exec(Start(svm), before), steps[|steps| - 1]);
    }
  }

  /** The writes from outside. */
  function Writes(steps: seq<Step>): nat {
    if steps == [] then 0 else Writes(steps[..|steps| - 1]) + (if steps[|steps| - 1].OutsideWrite? then 1 else 0)
  }

  /** The reads, by an operator with nothing under way, that found nothing. */
  function Absences(svm: Option<Svm>, steps: seq<Step>): nat
    decreases |steps|
  {
    if steps == [] then 0
    else
      var w, s := Exec(Start(svm), steps[..|steps| - 1]), steps[|steps| - 1];
      Absences(svm, steps[..|steps| - 1]) + (if s == Get(true) && w.pc.Idle? && w.svm.None? then 1 else 0)
  }

  /** The epochs are exactly: an object found at the start, each write from outside, each read that found nothing. */
  lemma {:induction false} EpochsAre(svm: Option<Svm>, steps: seq<Step>)
    ensures Exec(Start(svm), steps).epochs ==
            (if svm.Some? then 1 else 0) + Writes(steps) + Absences(svm, steps)
    decreases |steps|
  {
    if steps != [] { EpochsAre(svm, steps[..|steps| - 1]); }
  }

  /** At most five creates per epoch, however the steps interleave. */
  lemma CreatesPerEpoch(svm: Option<Svm>, steps: seq<Step>)
    requires (svm.Some? ==> Attempt(svm.value) >= 0) && NonNegative(steps)
    ensures var w := Exec(Start(svm), steps); |w.created| <= 5 * w.epochs
  {
    RetryBudget(svm, steps);
    BudgetPerEpoch(svm, steps);
  }

  // ---------------------------------------------------------------- within one epoch

  /** Everything the operator may still act on carries an attempt of at least `k`. */
  ghost predicate AtLeast(w: World, k: int) {
    && (w.svm.Some? ==> Attempt(w.svm.value) >= k)
    && (w.pc.Deleting? ==> w.pc.attempt >= k)
    && (w.pc.Creating? ==> w.pc.attempt > k)
  }

  ghost predicate Rising(s: seq<int>) {
    forall i, j :: 0 <= i < j < |s| ==> s[i] < s[j]
  }

  /** The attempts `made` were created above `floor`, and later ones will be higher still. */
  ghost predicate Churned(w: World, made: seq<int>, floor: int) {
    && Sane(w) && Rising(made) && (forall i :: 0 <= i < |made| ==> floor < made[i] <= MAX_RETRIES)
    && AtLeast(w, if made == [] then floor else made[|made| - 1])
    && |made| <= Weight(floor)
  }

  lemma {:induction false} EpochsOnlyGrow(w: World, steps: seq<Step>)
    ensures Exec(w, steps).epochs >= w.epochs && w.created <= Exec(w, steps).created
    decreases |steps|
  {
    if steps != [] {
      var before, last := steps[..|steps| - 1], steps[|steps| - 1];
      EpochsOnlyGrow(w, before);
      EpochMonotone(Exec(w, before), last);
    }
  }

  /** A step that starts no epoch creates nothing, or exactly the attempt the operator stands at. */
  lemma StepRises(u: World, s: Step, k: int)
    requires Sane(u) && AtLeast(u, k) && Apply(u, s).epochs == u.epochs
    ensures Risen(u, Apply(u, s), k)
  {
    if u.pc.Creating? { FreshAttempt(u.pc.attempt); }
    if u.svm.Some? { AttemptIsInt(u.svm.value); }
  }

  ghost predicate Risen(u: World, w: World, k: int) {
    Sane(w) &&
    ((w.created == u.created && AtLeast(w, k)) ||
     (exists a :: k < a <= MAX_RETRIES && w.created == u.created + [a] && AtLeast(w, a)))
  }

  lemma ChurnStep(u: World, w: World, base: nat, floor: int)
    requires base <= |u.created| && Churned(u, u.created[base..], floor)
    requires Risen(u, w, if u.created[base..] == [] then floor else u.created[|u.created| - 1])
    ensures u.created <= w.created && Churned(w, w.created[base..], floor)
  {
    if w.created != u.created {
      var made := w.created[base..];
      assert made == u.created[base..] + [w.created[|u.created|]];
      assert Rising(made);
      RisingFits(made, floor);
    }
  }

  /** While no new epoch starts, what is created stays above the floor and within what was needed. */
  lemma {:induction false} ChurnGoesOn(w: World, steps: seq<Step>, floor: int)
    requires Sane(w) && AtLeast(w, floor) && Exec(w, steps).epochs == w.epochs
    ensures w.created <= Exec(w, steps).created
    ensures Churned(Exec(w, steps), Exec(w, steps).created[|w.created|..], floor)
    decreases |steps|
  {
    if steps == [] {
      assert w.created[|w.created|..] == [];
    } else {
      var before, last := steps[..|steps| - 1], steps[|steps| - 1];
      EpochsOnlyGrow(w, before);
      EpochMonotone(Exec(w, before), last);
      ChurnGoesOn(w, before, floor);
      var u := Exec(w, before);
      StepRises(u, last, if u.created[|w.created|..] == [] then floor else u.created[|u.created| - 1]);
      ChurnStep(u, Exec(w, steps), |w.created|, floor);
    }
  }

  /** So while no new epoch starts, the attempts created rise strictly, and end at the fifth. */
  lemma ChurnRisesAndEnds(w: World, steps: seq<Step>, floor: int)
    requires Sane(w) && AtLeast(w, floor) && Exec(w, steps).epochs == w.epochs
    ensures w.created <= Exec(w, steps).created
    ensures var made := Exec(w, steps).created[|w.created|..];
            && (forall i, j :: 0 <= i < j < |made| ==> made[i] < made[j])
            && (forall i :: 0 <= i < |made| ==> floor < made[i] <= 5)
            && |made| <= (if floor < 5 then 5 - floor else 0)
            && Churned(Exec(w, steps), made, floor)
  {
    ChurnGoesOn(w, steps, floor);
  }

  lemma EpochMonotone(w: World, s: Step)
    ensures Apply(w, s).epochs >= w.epochs && w.created <= Apply(w, s).created
  {}

  /** Strictly rising numbers above `floor` and up to the limit cannot be more than the distance. */
  lemma {:induction false} RisingFits(s: seq<int>, floor: int)
    requires Rising(s) && forall i :: 0 <= i < |s| ==> floor < s[i] <= MAX_RETRIES
    ensures |s| <= Weight(floor)
    decreases |s|
  {
    if s != [] {
      RisingFits(s[1..], s[0]);
    }
  }

  // ---------------------------------------------------------------- exhaustion and the lost counter

  ghost predicate Exhausted(w: World) {
    w.pc.Idle? && w.svm.Some? && FailedOnly(w.svm.value) && Attempt(w.svm.value) >= MAX_RETRIES
  }

  /** Spent means: nothing is being done, and the object reports failure only, at attempt five or later. */
  lemma ExhaustedMeans(w: World)
    ensures Exhausted(w) <==>
            && w.pc.Idle? && w.svm.Some? && Attempt(w.svm.value) >= 5
            && FirstSays(w.svm.value, "Failed", "True") && !FirstSays(w.svm.value, "Succeeded", "True")
  {
    if w.svm.Some? {
      ReportsMeans(w.svm.value, "Failed");
      ReportsMeans(w.svm.value, "Succeeded");
    }
  }

  /** A spent migration stays put: nothing the operator does creates, deletes or changes it. */
  lemma {:induction false} ExhaustedIsFixed(w: World, steps: seq<Step>)
    requires Exhausted(w) && forall i :: 0 <= i < |steps| ==> OfOperator(steps[i])
    ensures Exec(w, steps) == w
    decreases |steps|
  {
    if steps != [] {
      var before := steps[..|steps| - 1];
      assert forall i :: 0 <= i < |before| ==> before[i] == steps[i];
      ExhaustedIsFixed(w, before);
    }
  }

  /**
   One undisturbed retry keeps the counter on the object unless the delete took effect and the
   create did not; in exactly that case the object is gone and the next read starts at 1 again.
   */
  lemma RetryKeepsCounter(w: World, deletion: Outcome, creation: Outcome)
    requires w.pc.Idle? && w.svm.Some? && FailedOnly(w.svm.value) && Attempt(w.svm.value) < MAX_RETRIES
    ensures var w' := Exec(w, [Get(true), Delete(deletion), Create(creation)]);
            var lost := Applied(deletion) && !(deletion.Done? && Applied(creation));
            && w'.pc.Idle?
            && (w'.svm.None? <==> lost)
            && (!lost ==> Attempt(w'.svm.value) == Attempt(w.svm.value) + (if Applied(deletion) then 1 else 0))
            && (lost ==> Exec(w', [Get(true)]).pc == Creating(1))
  {
    var steps := [Get(true), Delete(deletion), Create(creation)];
    var a := Attempt(w.svm.value);
    AttemptIsInt(w.svm.value);
    FreshAttempt(a + 1);
    assert steps[..2] == [Get(true), Delete(deletion)] && steps[..2][..1] == [Get(true)] && [Get(true)][..0] == [];
    var w1 := Exec(w, [Get(true)]);
    assert w1 == Observe(w);
    var w2 := Exec(w, steps[..2]);
    assert w2 == Apply(w1, Delete(deletion));
    var w3 := Exec(w, steps);
    assert w3 == Apply(w2, Create(creation));
    assert Exec(w3, [Get(true)]) == Apply(Exec(w3, []), Get(true));
  }

  lemma {:induction false} ExecConcat(w: World, a: seq<Step>, b: seq<Step>)
    ensures Exec(w, a + b) == Exec(Exec(w, a), b)
    decreases |b|
  {
    if b == [] {
      assert a + b == a;
    } else {
      assert (a + b)[..|a + b| - 1] == a + b[..|b| - 1];
      ExecConcat(w, a, b[..|b| - 1]);
    }
  }

  const FAILED: Option<seq<SvmCondition>> := Some([Fields("Failed", "True")])

  /** A create whose migration fails, and a retry that gets no further than the delete. */
  function LostRetry(): seq<Step> {
    [Get(true), Create(Done), MigratorReport(FAILED)] + [Get(true), Delete(Done), Create(Failed(false))]
  }

  lemma ReportedFailed(o: Svm)
    requires o.conditions == FAILED
    ensures FailedOnly(o)
  {
    assert "Failed"[0] != "Succeeded"[0];
    assert [Fields("Failed", "True")][1..] == [];
  }

  lemma LostRetryCreates(w: World)
    requires w.pc.Idle? && w.svm.None?
    ensures var w' := Exec(w, LostRetry()); w'.pc.Idle? && w'.svm.None? && w'.created == w.created + [1]
  {
    var made := [Get(true), Create(Done), MigratorReport(FAILED)];
    assert made[..2] == [Get(true), Create(Done)] && made[..2][..1] == [Get(true)] && [Get(true)][..0] == [];
    var w1 := Exec(w, [Get(true)]);
    assert w1 == Apply(Exec(w, []), Get(true));
    var w2 := Exec(w, made[..2]);
    assert w2 == Apply(w1, Create(Done));
    var w3 := Exec(w, made);
    assert w3 == Apply(w2, MigratorReport(FAILED));
    FreshAttempt(1);
    ReportedFailed(w3.svm.value);
    RetryKeepsCounter(w3, Done, Failed(false));
    LostRetryCreatesNone(w3);
    ExecConcat(w, made, [Get(true), Delete(Done), Create(Failed(false))]);
  }

  lemma LostRetryCreatesNone(w: World)
    requires w.pc.Idle? && w.svm.Some? && FailedOnly(w.svm.value) && Attempt(w.svm.value) < MAX_RETRIES
    ensures Exec(w, [Get(true), Delete(Done), Create(Failed(false))]).created == w.created
  {
    var steps := [Get(true), Delete(Done), Create(Failed(false))];
    assert steps[..2] == [Get(true), Delete(Done)] && steps[..2][..1] == [Get(true)] && [Get(true)][..0] == [];
    assert Exec(w, [Get(true)]) == Apply(Exec(w, []), Get(true));
    assert Exec(w, steps[..2]) == Apply(Exec(w, [Get(true)]), Delete(Done));
  }

  function LosingRun(n: nat): seq<Step> {
    if n == 0 then [] else LosingRun(n - 1) + LostRetry()
  }

  /**
   So no number of creates is a limit: for every n there is a run of operator steps and migrator
   reports, with nobody else on the object, that creates it n times, always as attempt 1.
   */
  lemma {:induction false} CounterCanBeLost(n: nat)
    ensures forall i :: 0 <= i < |LosingRun(n)| ==> OfOperator(LosingRun(n)[i]) || LosingRun(n)[i].MigratorReport?
    ensures var w := Exec(Start(None), LosingRun(n));
            w.pc.Idle? && w.svm.None? && |w.created| == n && forall i :: 0 <= i < n ==> w.created[i] == 1
  {
    if n > 0 {
      CounterCanBeLost(n - 1);
      LostRetryCreates(Exec(Start(None), LosingRun(n - 1)));
      ExecConcat(Start(None), LosingRun(n - 1), LostRetry());
    }
  }
}
