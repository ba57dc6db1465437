/**
 Whole runs of reconciles over the stored status: what every reachable state satisfies. Runs
 mix reconciles of this controller, whose patch may or may not land, reconciles of an older
 controller without the conversion gate, and changes of the spec.
 */
module Handshake {
  import opened Wrappers
  import opened Api
  import opened Reconcile
  import MC = MigrationController
  import Migration

  datatype Event =
    | Gated(seen: Seen, landed: bool, operatorVersion: string)
    | Ungated(written: Status)
    | SpecChange(generation: int, managementState: ManagementState)

  /**
   The stored resource with a clock: when a conversion check of this controller last passed,
   when the stored distribution last changed (0 for never), and whether a successful migration
   has been observed.
   */
  datatype World = World(stored: Stored, now: nat, lastCheck: nat, lastChange: nat, successSeen: bool)

  /** The older controller writes what it likes except the marker it does not know. */
  predicate Legal(w: World, e: Event) {
    match e
    case Gated(seen, _, _) => Allowed(w.stored.status, w.stored.managementState, seen)
    case Ungated(written) => Find(written.conditions, ConversionVerified) ==
        Find(w.stored.status.conditions, ConversionVerified)
    case SpecChange(_, _) => true
  }

  ghost function Apply(w: World, e: Event): World {
    var t := w.now + 1;
    match e
    case Gated(seen, landed, version) =>
      var status := if landed then After(w.stored.status, w.stored.generation, version, seen) else w.stored.status;
      World(w.stored.(status := status), t,
            if seen.course.Finished? && seen.course.checked then t else w.lastCheck,
            if status.distribution != w.stored.status.distribution then t else w.lastChange,
            w.successSeen || (seen.course.Finished? && seen.course.migration.Completed?))
    case Ungated(written) =>
      World(w.stored.(status := written), t, w.lastCheck,
            if written.distribution != w.stored.status.distribution then t else w.lastChange, w.successSeen)
    case SpecChange(g, m) => World(w.stored.(generation := g, managementState := m), t, w.lastCheck, w.lastChange,
        w.successSeen)
  }

  ghost predicate LegalRun(w: World, events: seq<Event>)
    decreases |events|
  {
    events == [] || (Legal(w, events[0]) && LegalRun(Apply(w, events[0]), events[1..]))
  }

  ghost function Run(w: World, events: seq<Event>): World
    decreases |events|
  {
    if events == [] then w else Run(Apply(w, events[0]), events[1..])
  }

  predicate Marked(w: World) { IsTrue(w.stored.status.conditions, ConversionVerified) }

  ghost predicate ClockOk(w: World) { w.lastCheck <= w.now && w.lastChange <= w.now }

  // ---------------------------------------------------------------- the step's effects

  /** What a reconcile does to the marker, the distribution and the migration condition. */
  lemma StepEffects(s: Status, m: ManagementState, generation: int, version: string, seen: Seen)
    requires Allowed(s, m, seen)
    ensures var s' := After(s, generation, version, seen);
            && (s'.distribution != s.distribution ==>
                  seen.course.Finished? && seen.course.checked && seen.config.available
                  && s'.distribution == Distribution(seen.config.name, seen.config.version))
            && (seen.course.Finished? && seen.config.available ==>
                 s'.distribution == Distribution(seen.config.name, seen.config.version))
            && (IsTrue(s'.conditions, ConversionVerified) <==>
                  IsTrue(s.conditions, ConversionVerified) || (seen.course.Finished? && seen.course.checked))
            && (IsTrue(s'.conditions, StorageMigrated) <==>
                  IsTrue(s.conditions, StorageMigrated) || (seen.course.Finished? && seen.course.migration.Completed?))
  {}

  /** Without the marker, a reconcile that gets past the gate has run the LIST itself. */
  lemma UnmarkedAlwaysLists(s: Status, m: ManagementState, seen: Seen)
    requires Allowed(s, m, seen) && !IsTrue(s.conditions, ConversionVerified) && seen.course.Finished?
    ensures seen.course.checked
  {}

  // ---------------------------------------------------------------- the handshake

  /** A true marker means a check passed at or after the last change of the recorded distribution. */
  ghost predicate MarkerHonest(w: World) {
    Marked(w) ==> w.lastCheck >= 1 && w.lastCheck >= w.lastChange
  }

  ghost predicate HonestThroughout(w: World, events: seq<Event>)
    decreases |events|
  {
    MarkerHonest(w) && (events == [] || HonestThroughout(Apply(w, events[0]), events[1..]))
  }

  /** The older controller moves the distribution although the marker is already set. */
  predicate Overtakes(w: World, e: Event) {
    e.Ungated? && Marked(w) && e.written.distribution != w.stored.status.distribution
  }

  ghost predicate NeverOvertaken(w: World, events: seq<Event>)
    decreases |events|
  {
    events == [] || (!Overtakes(w, events[0]) && NeverOvertaken(Apply(w, events[0]), events[1..]))
  }

  lemma HonestStep(w: World, e: Event)
    requires Legal(w, e) && ClockOk(w) && MarkerHonest(w)
    ensures ClockOk(Apply(w, e)) && (MarkerHonest(Apply(w, e)) <==> !Overtakes(w, e))
  {
    if e.Gated? {
      StepEffects(w.stored.status, w.stored.managementState, w.stored.generation, e.operatorVersion, e.seen);
    }
  }

  /**
   The marker is honest in every state of a run exactly when no older controller moves the
   distribution after this one has set the marker.
   */
  lemma {:induction false} HandshakeExactly(w: World, events: seq<Event>)
    requires LegalRun(w, events) && ClockOk(w) && MarkerHonest(w)
    ensures HonestThroughout(w, events) <==> NeverOvertaken(w, events)
    decreases |events|
  {
    if events != [] {
      HonestStep(w, events[0]);
      if !Overtakes(w, events[0]) {
        HandshakeExactly(Apply(w, events[0]), events[1..]);
      } else {
        assert !HonestThroughout(Apply(w, events[0]), events[1..]);
      }
    }
  }

  /** A set marker that an older controller has overtaken makes this controller skip the check the marker stands for. */
  lemma OvertakenSkips(w: World, written: Status, seen: Seen)
    requires Legal(w, Ungated(written)) && ClockOk(w) && Overtakes(w, Ungated(written))
    requires seen.config.available && written.distribution == Distribution(seen.config.name, seen.config.version)
    requires Allowed(written, w.stored.managementState, seen) && seen.course.Finished?
    ensures !seen.course.checked && !MarkerHonest(Apply(w, Ungated(written)))
  {}

  const VERSION_1 := Seen(PlatformConfig(true, STANDALONE, "1"), None, Finished(true, MC.Waiting(MC.PENDING), false))
  const VERSION_2 := Seen(PlatformConfig(true, STANDALONE, "2"), None, Finished(false, MC.Waiting(MC.PENDING), false))

  lemma ThreeSteps(w: World, e1: Event, e2: Event, e3: Event)
    requires Legal(w, e1) && Legal(Apply(w, e1), e2) && Legal(Apply(Apply(w, e1), e2), e3)
    ensures LegalRun(w, [e1, e2, e3]) && Run(w, [e1, e2, e3]) == Apply(Apply(Apply(w, e1), e2), e3)
  {
    var w3 := Apply(Apply(Apply(w, e1), e2), e3);
    assert [e1, e2, e3][1..] == [e2, e3] && [e2, e3][1..] == [e3] && [e3][1..] == [];
    assert LegalRun(w3, []) && Run(w3, []) == w3;
    assert Run(Apply(Apply(w, e1), e2), [e3]) == w3 && Run(Apply(w, e1), [e2, e3]) == w3;
  }

  /** A fresh resource after one verified reconcile. */
  lemma VerifiedOnce(w: World)
    requires w == World(Stored(1, Managed, FRESH), 0, 0, 0, false)
    ensures var w1 := Apply(w, Gated(VERSION_1, true, "1"));
            && Legal(w, Gated(VERSION_1, true, "1")) && Marked(w1)
            && w1.stored.status.distribution == Distribution(STANDALONE, "1")
            && !IsTrue(w1.stored.status.conditions, StorageMigrated) && w1.stored.managementState.Managed?
            && w1.now == w1.lastCheck == w1.lastChange == 1
  {
    StepEffects(FRESH, Managed, 1, "1", VERSION_1);
  }

  /** An older controller has moved a verified resource to version 2; the next reconcile is the skipping one. */
  lemma SkipsNext(w2: World)
    requires Marked(w2) && w2.stored.status.distribution == Distribution(STANDALONE, "2") &&
               w2.stored.managementState.Managed?
    requires !IsTrue(w2.stored.status.conditions, StorageMigrated)
    ensures var e := Gated(VERSION_2, true, "2"); var w3 := Apply(w2, e);
            Legal(w2, e) && Marked(w3) && w3.lastCheck == w2.lastCheck && w3.lastChange == w2.lastChange
  {
    StepEffects(w2.stored.status, Managed, w2.stored.generation, "2", VERSION_2);
  }

  /**
   It happens: this controller verifies version 1, an older one moves the distribution to version
   2, and this one finishes a reconcile for version 2 that it never checked.
   */
  lemma CheckCanBeSkipped()
    ensures exists w: World, events: seq<Event> ::
              && w == World(Stored(1, Managed, FRESH), 0, 0, 0, false) && LegalRun(w, events) && |events| == 3
              && events[0] == Gated(VERSION_1, true, "1") && events[1].Ungated?
              && events[2] == Gated(VERSION_2, true, "2")
              && !MarkerHonest(Run(w, events))
  {
    var w := World(Stored(1, Managed, FRESH), 0, 0, 0, false);
    VerifiedOnce(w);
    var e1, e3 := Gated(VERSION_1, true, "1"), Gated(VERSION_2, true, "2");
    var w1 := Apply(w, e1);
    assert "1"[0] != "2"[0];
    var e2 := Ungated(w1.stored.status.(distribution := Distribution(STANDALONE, "2")));
    SkipsNext(Apply(w1, e2));
    ThreeSteps(w, e1, e2, e3);
    assert [e1, e2, e3][0] == e1 && [e1, e2, e3][1] == e2 && [e1, e2, e3][2] == e3;
  }

  /** The upgrade the gate was made for: an older controller first, this one from then on. */
  ghost predicate OlderThenGated(events: seq<Event>, switchAt: nat) {
    switchAt <= |events| && forall i :: switchAt <= i < |events| ==> !events[i].Ungated?
  }

  lemma UnmarkedPrefix(w: World, e: Event)
    requires Legal(w, e) && !e.Gated? && !Marked(w)
    ensures !Marked(Apply(w, e))
  {}

  /** In an upgrade from an older controller, which never sets the marker, the marker stays honest throughout. */
  lemma {:induction false} HandshakeAfterUpgrade(w: World, events: seq<Event>, switchAt: nat)
    requires LegalRun(w, events) && ClockOk(w) && OlderThenGated(events, switchAt)
    requires (switchAt > 0 ==> !Marked(w)) && MarkerHonest(w)
    requires forall i :: 0 <= i < switchAt ==> !events[i].Gated?
    ensures NeverOvertaken(w, events) && HonestThroughout(w, events)
    decreases |events|
  {
    if events != [] {
      HonestStep(w, events[0]);
      if switchAt > 0 { UnmarkedPrefix(w, events[0]); }
      HandshakeAfterUpgrade(Apply(w, events[0]), events[1..], if switchAt > 0 then switchAt - 1 else 0);
    }
    HandshakeExactly(w, events);
  }

  // ---------------------------------------------------------------- agreement, lockstep, completion

  /** One condition per type; the three availability conditions agree; Phase follows Ready. */
  ghost predicate Agrees(s: Status) {
    && Unique(s.conditions)
    && StatusOf(s.conditions, Available) == StatusOf(s.conditions, Ready) ==
         StatusOf(s.conditions, ProvisioningSucceeded)
    && StatusOf(s.conditions, Available) in {None, Some(True), Some(False)}
    && StatusOf(s.conditions, Degraded) in {None, Some(False)}
    && (s.phase.ReadyPhase? <==> IsTrue(s.conditions, Ready))
  }

  /** The platform release is listed exactly when a distribution version is recorded, with that version. */
  ghost predicate Lockstep(s: Status) {
    && ((exists r :: r in s.releases && r.name == PLATFORM) <==> s.distribution.version != "")
    && (forall r :: r in s.releases && r.name == PLATFORM ==> r.version == s.distribution.version)
  }

  lemma UnavailableAgrees(cs: seq<Condition>, reason: string, generation: int)
    requires Unique(cs)
    ensures var r := Unavailable(cs, reason, generation);
            && StatusOf(r, Available) == Some(False) && StatusOf(r, Ready) == Some(False)
            && StatusOf(r, ProvisioningSucceeded) == Some(False) && StatusOf(r, Degraded) == Some(False)
  {
    UniqueConditionsAgree(Upsert(cs, FalseCondition(Available, reason, generation)), generation);
  }

  lemma SuccessAgrees(cs: seq<Condition>, checked: bool, generation: int)
    requires Unique(cs)
    ensures var r := AfterSuccess(cs, checked, generation);
            && Unique(r) && StatusOf(r, Available) == Some(True) && StatusOf(r, Ready) == Some(True)
            && StatusOf(r, ProvisioningSucceeded) == Some(True) && StatusOf(r, Degraded) == Some(False)
  {
    var cs1 := if checked then Upsert(cs, TrueCondition(ConversionVerified, "ConversionVerified", generation)) else cs;
    UniqueConditionsAgree(Upsert(cs1, TrueCondition(Available, "Available", generation)), generation);
  }

  /** The migration's verdict touches its own condition only. */
  lemma MigrationStandsAlone(v: MC.Verdict, cs: seq<Condition>, generation: int)
    ensures forall k :: k != StorageMigrated ==> Find(MC.Effect(v, cs, generation), k) == Find(cs, k)
    ensures Unique(cs) ==> Unique(MC.Effect(v, cs, generation))
  {}

  /**
   Every reconcile keeps the agreement, and all but a removal that failed restore it from any
   status with one condition per type, such as one an older controller left.
   */
  lemma StepAgrees(s: Status, m: ManagementState, generation: int, version: string, seen: Seen)
    requires Allowed(s, m, seen) && Unique(s.conditions) && (seen.course.RemovalFailed? ==> Agrees(s))
    ensures Agrees(After(s, generation, version, seen))
  {
    match seen.course
    case RemovalFailed =>
    case RemovalDone =>
    case Broke(reason) => UnavailableAgrees(s.conditions, reason, generation);
    case NotReady(why) => UnavailableAgrees(s.conditions, why, generation);
    case Held(v) => UnavailableAgrees(s.conditions, Conversion.ReasonOf(v), generation);
    case Finished(checked, migration, _) =>
      SuccessAgrees(s.conditions, checked, generation);
      MigrationStandsAlone(migration, AfterSuccess(s.conditions, checked, generation), generation);
  }

  lemma ReleasesLockstep(version: string, d: Distribution)
    ensures var rs := ReleasesFor(version, d);
            && ((exists r :: r in rs && r.name == PLATFORM) <==> d.version != "")
            && (forall r :: r in rs && r.name == PLATFORM ==> r.version == d.version)
  {
    assert SERVICE_NAME[0] != PLATFORM[0];
    if d.version != "" { assert Release(PLATFORM, "", d.version) in ReleasesFor(version, d); }
  }

  /** Kept by every reconcile, and restored from any status by one that could read its configuration. */
  lemma StepLockstep(s: Status, m: ManagementState, generation: int, version: string, seen: Seen)
    requires Allowed(s, m, seen) && (Lockstep(s) || seen.config.available)
    ensures Lockstep(After(s, generation, version, seen))
  {
    ReleasesLockstep(version, DistributionAfter(s.distribution, seen));
  }

  /** What every state reachable from a fresh resource satisfies. */
  ghost predicate Invariant(w: World) {
    && Agrees(w.stored.status) && Lockstep(w.stored.status) && ClockOk(w) && MarkerHonest(w)
    && (IsTrue(w.stored.status.conditions, StorageMigrated) ==> w.successSeen)
  }

  lemma FreshIsInvariant(generation: int, m: ManagementState)
    ensures Invariant(World(Stored(generation, m, FRESH), 0, 0, 0, false))
  {}

  lemma StepInvariant(w: World, e: Event)
    requires Legal(w, e) && !e.Ungated? && Invariant(w)
    ensures Invariant(Apply(w, e))
    ensures IsTrue(w.stored.status.conditions, StorageMigrated) ==>
              IsTrue(Apply(w, e).stored.status.conditions, StorageMigrated)
  {
    HonestStep(w, e);
    if e.Gated? {
      StepEffects(w.stored.status, w.stored.managementState, w.stored.generation, e.operatorVersion, e.seen);
      StepAgrees(w.stored.status, w.stored.managementState, w.stored.generation, e.operatorVersion, e.seen);
      StepLockstep(w.stored.status, w.stored.managementState, w.stored.generation, e.operatorVersion, e.seen);
    }
  }

  /**
   In every run of this controller from a fresh resource: the conditions agree, the platform
   release moves in lockstep, the marker is honest, and completion is reported only after a
   success was observed and is never taken back.
   */
  lemma {:induction false} RunInvariant(w: World, events: seq<Event>)
    requires LegalRun(w, events) && Invariant(w) && forall i :: 0 <= i < |events| ==> !events[i].Ungated?
    ensures Invariant(Run(w, events))
    ensures IsTrue(w.stored.status.conditions, StorageMigrated) ==>
              IsTrue(Run(w, events).stored.status.conditions, StorageMigrated)
    decreases |events|
  {
    if events != [] {
      StepInvariant(w, events[0]);
      RunInvariant(Apply(w, events[0]), events[1..]);
    }
  }

  /**
   No silent stall: a reconcile of a managed resource that asks for no retry and returns no error
   has left it Ready on the wanted distribution, with a migration that is complete or given up.
   */
  lemma NoSilentStall(s: Status, m: ManagementState, generation: int, version: string, seen: Seen)
    requires Allowed(s, m, seen) && !m.Removed? && Unique(s.conditions)
    requires !ReturnsError(seen.course) && RequeueAfter(seen.course) == 0
    ensures var s' := After(s, generation, version, seen);
            && IsTrue(s'.conditions, Ready) && s'.phase.ReadyPhase?
            && seen.course.Finished? && !seen.course.fallback
            && (seen.config.available ==> s'.distribution == Distribution(seen.config.name, seen.config.version))
            && (IsTrue(s'.conditions, StorageMigrated) ||
                (seen.course.migration.Exhausted?
                 && Find(s'.conditions, StorageMigrated) ==
                      Some(FalseCondition(StorageMigrated, MC.FAILED, generation))))
  {
    StepEffects(s, m, generation, version, seen);
    SuccessAgrees(s.conditions, seen.course.checked, generation);
    MigrationStandsAlone(seen.course.migration, AfterSuccess(s.conditions, seen.course.checked, generation),
        generation);
  }

  /** The history agrees with the two APIs: a success it remembers is one the migration run recorded. */
  ghost predicate Remembers(w: World, api: MC.SvmApi)
    reads api
  {
    w.successSeen ==> api.run.successes > 0
  }

  /**
   Nothing is left to wait for: the operand is up with the configured TLS settings, the resource is
   Ready on the wanted distribution, and the migration is complete or spent.
   */
  ghost predicate Settled(s: Status, env: Surroundings, operatorVersion: string, run: Migration.World) {
    var pc := PlatformConfigOf(env.config, operatorVersion);
    && IsTrue(s.conditions, Ready) && s.phase.ReadyPhase?
    && env.tls.TlsConfig? && !env.tls.transientFallback
    && env.rendered.Some? && env.applied && env.collected
    && (forall m :: m in env.rendered.value && m.kind == "Deployment" ==>
          && env.deployment(m).Deployment?
          && env.deployment(m).available >=
               (if env.deployment(m).replicas.Some? then env.deployment(m).replicas.value else 1))
    && (pc.available ==> s.distribution == Distribution(pc.name, pc.version))
    && (IsTrue(s.conditions, StorageMigrated) || Migration.Exhausted(run))
  }

  /** The check that advances the clock of these runs is an executed one that listed everything. */
  ghost predicate Checked(course: Course, logBefore: seq<Conversion.Call>, log: seq<Conversion.Call>) {
    course.Finished? && course.checked ==> Conversion.EndsInFullPass(logBefore, log)
  }

  /**
   A reconcile request as the code runs it is one step of these runs: the stored resource takes
   one legal event, or none when it could not be read, and stays within the invariant.
   */
  method ObservedRequest(cluster: Cluster, env: Surroundings, operatorVersion: string, servers: Conversion.McpServers,
                         api: MC.SvmApi, readable: bool, patched: bool, ghost w: World)
    returns (requeue: nat, failed: bool, ghost events: seq<Event>)
    requires servers.Valid() && api.Valid() && api.run.pc.Idle?
    requires cluster.stored == Some(w.stored) && Invariant(w) && Remembers(w, api)
    modifies cluster, servers, api
    ensures servers.Valid() && api.Valid() && api.run.pc.Idle?
    ensures |events| <= 1 && (forall e :: e in events ==> e.Gated?) && LegalRun(w, events)
    ensures cluster.stored == Some(Run(w, events).stored) && Invariant(Run(w, events)) && Remembers(Run(w, events), api)
    ensures if readable then events != [] && events[0].landed == patched else events == []
    ensures events == [] ==> failed && servers.log == old(servers.log) && api.steps == old(api.steps)
    ensures events != [] ==> (failed <==> !patched || ReturnsError(events[0].seen.course))
    ensures events != [] ==> Checked(events[0].seen.course, old(servers.log), servers.log)
    ensures events != [] ==>
              events[0].seen.config == PlatformConfigOf(env.config, operatorVersion) &&
              events[0].seen.gateways == env.gateways
    ensures !failed && requeue == 0 && !w.stored.managementState.Removed? ==>
              Settled(cluster.stored.value.status, env, operatorVersion, api.run)
  {
    ghost var seen;
    requeue, failed, seen := cluster.ReconcileRequest(env, operatorVersion, servers, api, readable, patched);
    events := if seen.None? then [] else [Gated(seen.value, patched, operatorVersion)];
    if seen.Some? {
      assert events[1..] == [];
      StepInvariant(w, events[0]);
      if !failed && requeue == 0 && !w.stored.managementState.Removed? {
        NoSilentStall(w.stored.status, w.stored.managementState, w.stored.generation, operatorVersion, seen.value);
        GateMeansReady(env);
      }
    }
  }
}
