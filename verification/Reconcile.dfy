/**
 One reconcile of the MCPLifecycleOperator resource
 (internal/controller/mcplifecycleoperator_reconciler.go): a long branching step over its
 status, with a deferred write on every exit and one patch that lands or does not. `After`
 and `Allowed` describe the step; the methods below run it and are proved to be such a step.
 */
module Reconcile {
  import opened Wrappers
  import opened Api
  import opened Conversion
  import MC = MigrationController
  import Migration

  const SERVICE_NAME := "mcplifecycleoperator"
  const REPO_URL := "https://github.com/opendatahub-io/mcp-lifecycle-module-operator"
  const PLATFORM := "platform"
  const STANDALONE := "Standalone"

  datatype PlatformConfig = PlatformConfig(available: bool, name: string, version: string)

  datatype ConfigAnswer = ConfigMap(data: map<string, string>) | ConfigMissing | ConfigUnreadable
  datatype TlsAnswer = TlsError | TlsConfig(transientFallback: bool)
  datatype Manifest = Manifest(kind: string, namespace: string, name: string)
  datatype DeploymentAnswer = DeploymentUnreadable | Deployment(replicas: Option<int>, available: int)

  /** What the cluster answers during one reconcile, apart from the two stateful APIs. */
  datatype Surroundings = Surroundings(
    config: ConfigAnswer, ownedDeleted: bool, gateways: Option<seq<string>>, tls: TlsAnswer,
        rendered: Option<seq<Manifest>>,
    applied: bool, collected: bool, deployment: Manifest -> DeploymentAnswer, discovery: Option<seq<string>>)

  /** How far a reconcile came and what it met there. */
  datatype Course =
    | RemovalFailed
    | RemovalDone
    | Broke(reason: string)
    | NotReady(why: string)
    | Held(conversion: Conversion.Verdict)
    | Finished(checked: bool, migration: MC.Verdict, fallback: bool)

  datatype Seen = Seen(config: PlatformConfig, gateways: Option<seq<string>>, course: Course)

  // ---------------------------------------------------------------- the step, described

  function Lookup(data: map<string, string>, key: string): string {
    if key in data then data[key] else ""
  }

  function PlatformConfigOf(a: ConfigAnswer, operatorVersion: string): PlatformConfig {
    match a
    case ConfigUnreadable => PlatformConfig(false, "", "")
    case ConfigMissing => PlatformConfig(true, STANDALONE, operatorVersion)
    case ConfigMap(data) =>
      var name, version, platform := Lookup(data, "distribution.name"), Lookup(data, "distribution.version"),
          Lookup(data, "platformVersion");
      PlatformConfig(true, if name == "" then STANDALONE else name,
                     if version != "" then version else if platform != "" then platform else operatorVersion)
  }

  /** The configured version comes first, then the platform's, then the operator's own; no name means standalone. */
  lemma ConfigMeans(a: ConfigAnswer, v: string)
    ensures var pc := PlatformConfigOf(a, v);
            && (if a.ConfigUnreadable? then !pc.available && pc.name == pc.version == "" else pc.available)
            && (a.ConfigMissing? ==> pc.name == "Standalone" && pc.version == v)
            && (a.ConfigMap? ==>
                  && ("distribution.name" in a.data && a.data["distribution.name"] != "" ==>
                        pc.name == a.data["distribution.name"])
                  && ("distribution.name" !in a.data || a.data["distribution.name"] == "" ==> pc.name == "Standalone")
                  && ("distribution.version" in a.data && a.data["distribution.version"] != "" ==>
                        pc.version == a.data["distribution.version"])
                  && ("distribution.version" !in a.data || a.data["distribution.version"] == "" ==>
                        if "platformVersion" in a.data && a.data["platformVersion"] != ""
                        then pc.version == a.data["platformVersion"] else pc.version == v))
  {}

  /** The handshake is complete for this configuration and this controller verified it. */
  predicate HandshakeSettled(s: Status, pc: PlatformConfig) {
    pc.available && s.distribution == Distribution(pc.name, pc.version) && IsTrue(s.conditions, ConversionVerified)
  }

  /** Which courses a status and a management state allow. */
  predicate Allowed(s: Status, m: ManagementState, seen: Seen) {
    && (m.Removed? <==> seen.course.RemovalFailed? || seen.course.RemovalDone?)
    && (seen.course.Held? ==> !HandshakeSettled(s, seen.config) && !seen.course.conversion.Healthy?)
    && (seen.course.Finished? ==>
          && (seen.course.checked <==> !HandshakeSettled(s, seen.config))
          && (seen.course.migration.Settled? <==> IsTrue(s.conditions, StorageMigrated)))
  }

  ghost function AfterRemoval(cs: seq<Condition>, generation: int): seq<Condition> {
    var cs1 := Upsert(cs, FalseCondition(Available, "Removed", generation));
    Derived(cs1, FalseCondition(Ready, "Removed", generation),
        FalseCondition(ProvisioningSucceeded, "Removed", generation),
            FalseCondition(Degraded, "NotDegraded", generation))
  }

  ghost function AfterSuccess(cs: seq<Condition>, checked: bool, generation: int): seq<Condition> {
    var cs1 := if checked then Upsert(cs, TrueCondition(ConversionVerified, "ConversionVerified", generation)) else cs;
    Aggregated(Upsert(cs1, TrueCondition(Available, "Available", generation)), generation)
  }

  ghost function ConditionsAfter(cs: seq<Condition>, course: Course, generation: int): seq<Condition> {
    match course
    case RemovalFailed => cs
    case RemovalDone => AfterRemoval(cs, generation)
    case Broke(reason) => Unavailable(cs, reason, generation)
    case NotReady(why) => Unavailable(cs, why, generation)
    case Held(v) => Unavailable(cs, ReasonOf(v), generation)
    case Finished(checked, migration, _) => MC.Effect(migration, AfterSuccess(cs, checked, generation), generation)
  }

  function DistributionAfter(d: Distribution, seen: Seen): Distribution {
    if seen.course.Finished? && seen.config.available then Distribution(seen.config.name, seen.config.version) else d
  }

  function ReleasesFor(operatorVersion: string, d: Distribution): seq<Release> {
    [Release(SERVICE_NAME, REPO_URL, operatorVersion)] +
        (if d.version != "" then [Release(PLATFORM, "", d.version)] else [])
  }

  ghost function After(s: Status, generation: int, operatorVersion: string, seen: Seen): Status {
    var conditions := ConditionsAfter(s.conditions, seen.course, generation);
    var distribution := DistributionAfter(s.distribution, seen);
    Status(conditions, PhaseOf(conditions), generation, distribution,
           if seen.config.available then ReleasesFor(operatorVersion, distribution) else s.releases,
           if seen.gateways.Some? && !seen.course.RemovalFailed? && !seen.course.RemovalDone? then seen.gateways.value
               else s.gateways)
  }

  /** What a finished removal leaves of the conditions. */
  lemma RemovalMeans(cs: seq<Condition>, g: int)
    ensures var r := ConditionsAfter(cs, RemovalDone, g);
            && Find(r, Available) == Some(Condition(Available, False, "Removed", Error, g))
            && Find(r, Ready) == Some(Condition(Ready, False, "Removed", Error, g))
            && Find(r, ProvisioningSucceeded) == Some(Condition(ProvisioningSucceeded, False, "Removed", Error, g))
            && Find(r, Degraded) == Some(Condition(Degraded, False, "NotDegraded", Error, g))
            && forall k :: k !in {Available, Ready, ProvisioningSucceeded, Degraded} ==> Find(r, k) == Find(cs, k)
  {}

  /** What a course that ends before or at the gate leaves of them: the reason is that of the step that failed. */
  lemma UnavailableMeans(cs: seq<Condition>, course: Course, g: int)
    requires course.Broke? || course.NotReady? || course.Held?
    ensures var r := ConditionsAfter(cs, course, g);
            var reason := match course case Broke(why) => why case NotReady(why) => why
                          case _ => if course == Held(Conversion.Broken) then "ConversionCheckFailed"
                                    else "ConversionCheckPending";
            && Find(r, Available) == Some(Condition(Available, False, reason, Error, g))
            && Find(r, Ready) == Some(Condition(Ready, False, "OperandDeploymentFailed", Error, g))
            && Find(r, ProvisioningSucceeded) ==
                 Some(Condition(ProvisioningSucceeded, False, "OperandDeploymentFailed", Error, g))
            && Find(r, Degraded) == Some(Condition(Degraded, False, "NotDegraded", Error, g))
            && forall k :: k !in {Available, Ready, ProvisioningSucceeded, Degraded} ==> Find(r, k) == Find(cs, k)
  {}

  /** What passing the gate leaves of them: the marker is set exactly when this reconcile did the checking. */
  lemma SuccessMeans(cs: seq<Condition>, checked: bool, g: int)
    ensures var r := AfterSuccess(cs, checked, g);
            && Find(r, Available) == Some(Condition(Available, True, "Available", Error, g))
            && Find(r, ConversionVerified) ==
                 (if checked then Some(Condition(ConversionVerified, True, "ConversionVerified", Error, g))
                  else Find(cs, ConversionVerified))
            && Find(r, StorageMigrated) == Find(cs, StorageMigrated)
  {}

  /** What the rest of the status becomes. */
  lemma StepMeans(s: Status, g: int, version: string, seen: Seen)
    ensures var s' := After(s, g, version, seen);
            && s'.observedGeneration == g
            && (s'.phase.ReadyPhase? <==> exists c :: Find(s'.conditions, Ready) == Some(c) && c.status == True)
            && s'.distribution == (if seen.course.Finished? && seen.config.available
                                   then Distribution(seen.config.name, seen.config.version) else s.distribution)
            && (!seen.config.available ==> s'.releases == s.releases)
            && (seen.config.available ==>
                  s'.releases ==
                  [Release("mcplifecycleoperator", "https://github.com/opendatahub-io/mcp-lifecycle-module-operator",
                      version)]
                  + (if s'.distribution.version == "" then [] else [Release("platform", "", s'.distribution.version)]))
            && s'.gateways == (if seen.gateways.None? || seen.course.RemovalFailed? || seen.course.RemovalDone?
                               then s.gateways else seen.gateways.value)
  {}

  /** When each course is retried, in seconds, and which ones are errors. */
  lemma RetryMeans(c: Course)
    ensures ReturnsError(c) <==> c.RemovalFailed? || c.Broke?
    ensures c.RemovalFailed? || c.NotReady? || c.Held? ==> RequeueAfter(c) == 10
    ensures c.RemovalDone? || c.Broke? ==> RequeueAfter(c) == 0
    ensures c.Finished? ==>
              RequeueAfter(c) == if c.migration.Waiting? then 60 else if c.fallback then 10 else 0
  {}

  predicate ReturnsError(c: Course) { c.RemovalFailed? || c.Broke? }

  function RequeueAfter(c: Course): nat {
    match c
    case RemovalFailed => DEFAULT_REQUEUE
    case RemovalDone => 0
    case Broke(_) => 0
    case NotReady(_) => DEFAULT_REQUEUE
    case Held(_) => DEFAULT_REQUEUE
    case Finished(_, migration, fallback) =>
      if MC.RequeueOf(migration) == 0 && fallback then DEFAULT_REQUEUE else MC.RequeueOf(migration)
  }

  // ---------------------------------------------------------------- the step, run

  /** Every rendered Deployment can be read and has as many replicas available as it wants, one when it does not say. */
  predicate OperandReady(env: Surroundings, desired: seq<Manifest>) {
    forall m :: m in desired && m.kind == "Deployment" ==> !Short(env.deployment(m))
  }

  predicate Short(a: DeploymentAnswer) {
    match a
    case DeploymentUnreadable => true
    case Deployment(Some(wanted), available) => available < wanted
    case Deployment(None, available) => available < 1
  }

  /** The rendered Deployments, in order. */
  function Deployments(rs: seq<Manifest>): seq<Manifest>
    decreases |rs|
  {
    if rs == [] then []
    else Deployments(rs[..|rs| - 1]) + (if rs[|rs| - 1].kind == "Deployment" then [rs[|rs| - 1]] else [])
  }

  lemma {:induction false} DeploymentsAre(rs: seq<Manifest>)
    ensures forall m :: m in Deployments(rs) <==> m in rs && m.kind == "Deployment"
    decreases |rs|
  {
    if rs != [] {
      DeploymentsAre(rs[..|rs| - 1]);
      assert rs == rs[..|rs| - 1] + [rs[|rs| - 1]];
    }
  }

  /** Nothing is dropped, added or moved. */
  lemma {:induction false} DeploymentsConcat(a: seq<Manifest>, b: seq<Manifest>)
    ensures Deployments(a + b) == Deployments(a) + Deployments(b)
    decreases |b|
  {
    if b == [] {
      assert a + b == a;
    } else {
      assert (a + b)[..|a + b| - 1] == a + b[..|b| - 1];
      DeploymentsConcat(a, b[..|b| - 1]);
    }
  }

  /** The reason the first Deployment that is not ready gives. */
  function FirstUnready(env: Surroundings, ds: seq<Manifest>): Option<string> {
    if ds == [] then None
    else if !Short(env.deployment(ds[0])) then FirstUnready(env, ds[1..])
    else Some(if env.deployment(ds[0]).DeploymentUnreadable? then "DeploymentNotFound" else "DeploymentNotReady")
  }

  lemma NoneUnready(env: Surroundings, ds: seq<Manifest>)
    ensures FirstUnready(env, ds).None? <==> forall m :: m in ds ==> !Short(env.deployment(m))
  {}

  lemma {:induction false} FirstUnreadyConcat(env: Surroundings, a: seq<Manifest>, b: seq<Manifest>)
    ensures FirstUnready(env, a + b) == if FirstUnready(env, a).Some? then FirstUnready(env, a)
              else FirstUnready(env, b)
    decreases |a|
  {
    if a == [] {
      assert a + b == b;
    } else {
      assert (a + b)[1..] == a[1..] + b;
      FirstUnreadyConcat(env, a[1..], b);
    }
  }

  /** The `i`-th resource is the first Deployment that is missing or short of replicas. */
  ghost predicate FirstShort(env: Surroundings, desired: seq<Manifest>, i: int) {
    && 0 <= i < |desired| && desired[i].kind == "Deployment" && Short(env.deployment(desired[i]))
    && forall j :: 0 <= j < i && desired[j].kind == "Deployment" ==> !Short(env.deployment(desired[j]))
  }

  /** The reason tells a Deployment that cannot be read from one that is short of replicas. */
  lemma {:induction false} FirstUnreadyMeans(env: Surroundings, desired: seq<Manifest>, i: int)
    requires FirstShort(env, desired, i)
    ensures FirstUnready(env, Deployments(desired)) ==
            Some(if env.deployment(desired[i]).DeploymentUnreadable? then "DeploymentNotFound"
                else "DeploymentNotReady")
    decreases |desired|
  {
    var before, last := desired[..|desired| - 1], desired[|desired| - 1];
    assert desired == before + [last];
    FirstUnreadyConcat(env, Deployments(before), if last.kind == "Deployment" then [last] else []);
    if i < |before| {
      FirstUnreadyMeans(env, before, i);
    } else {
      DeploymentsAre(before);
      NoneUnready(env, Deployments(before));
      assert Deployments(desired) == Deployments(before) + [last];
      assert [last][1..] == [];
    }
  }

  lemma {:induction false} SomeFirstShort(env: Surroundings, desired: seq<Manifest>) returns (i: int)
    requires !OperandReady(env, desired)
    ensures FirstShort(env, desired, i)
    decreases |desired|
  {
    var before, last := desired[..|desired| - 1], desired[|desired| - 1];
    assert desired == before + [last];
    if OperandReady(env, before) {
      i := |before|;
      assert forall j :: 0 <= j < i ==> desired[j] in before;
    } else {
      i := SomeFirstShort(env, before);
    }
  }

  lemma NoneUnreadyOf(env: Surroundings, desired: seq<Manifest>)
    ensures FirstUnready(env, Deployments(desired)).None? <==> OperandReady(env, desired)
  {
    DeploymentsAre(desired);
    NoneUnready(env, Deployments(desired));
  }

  method FindDeployments(resources: seq<Manifest>) returns (found: seq<Manifest>)
    ensures found == Deployments(resources)
  {
    found := [];
    for i := 0 to |resources|
      invariant found == Deployments(resources[..i])
    {
      assert resources[..i + 1][..i] == resources[..i];
      if resources[i].kind == "Deployment" { found := found + [resources[i]]; }
    }
    assert resources[..|resources|] == resources;
  }

  /** Stops at the first deployment that is missing or short of replicas. */
  method CheckDeploymentsReady(env: Surroundings, desired: seq<Manifest>, cr: Resource, cm: ConditionsManager)
    returns (requeue: nat, ready: bool, ghost why: string)
    requires cm.accessor == cr
    modifies cr`conditions
    ensures ready <==> forall m :: m in desired && m.kind == "Deployment" ==>
                                    && env.deployment(m).Deployment?
                                    && (env.deployment(m).replicas.Some? ==>
                                         env.deployment(m).available >= env.deployment(m).replicas.value)
                                    && (env.deployment(m).replicas.None? ==> env.deployment(m).available >= 1)
    ensures !ready ==> exists i ::
              FirstShort(env, desired, i) && why ==
              if env.deployment(desired[i]).DeploymentUnreadable? then "DeploymentNotFound" else "DeploymentNotReady"
    ensures ready ==> requeue == 0 && cr.conditions == old(cr.conditions)
    ensures !ready ==>
              requeue == DEFAULT_REQUEUE && cr.conditions == Unavailable(old(cr.conditions), why, cm.generation)
    ensures !ready ==> FirstUnready(env, Deployments(desired)) == Some(why)
  {
    var deployments := FindDeployments(desired);
    NoneUnreadyOf(env, desired);
    assert deployments[0..] == deployments;
    for i := 0 to |deployments|
      invariant FirstUnready(env, deployments[i..]) == FirstUnready(env, deployments)
      invariant cr.conditions == old(cr.conditions)
    {
      assert deployments[i..][1..] == deployments[i + 1..];
      var a := env.deployment(deployments[i]);
      if a.DeploymentUnreadable? || a.available < (if a.replicas.Some? then a.replicas.value else 1) {
        ShortIsFirst(env, desired);
        var reason := if a.DeploymentUnreadable? then "DeploymentNotFound" else "DeploymentNotReady";
        cm.MarkUnavailable(reason);
        return DEFAULT_REQUEUE, false, reason;
      }
    }
    requeue, ready, why := 0, true, "";
  }

  lemma ShortIsFirst(env: Surroundings, desired: seq<Manifest>)
    requires !OperandReady(env, desired)
    ensures exists i :: FirstShort(env, desired, i) && FirstUnready(env, Deployments(desired)) == Some(
              if env.deployment(desired[i]).DeploymentUnreadable? then "DeploymentNotFound" else "DeploymentNotReady")
  {
    var i := SomeFirstShort(env, desired);
    FirstUnreadyMeans(env, desired, i);
  }

  /** Where a reconcile that is not a removal ends before the gate, if it does. */
  function EarlyExit(env: Surroundings): Option<Course> {
    if env.tls.TlsError? then Some(Broke("TLSConfigFetchFailed"))
    else if env.rendered.None? then Some(Broke("ManifestRenderFailed"))
    else if !env.applied then Some(Broke("DeployFailed"))
    else if !env.collected then Some(Broke("GarbageCollectionFailed"))
    else
      match FirstUnready(env, Deployments(env.rendered.value))
      case Some(why) => Some(NotReady(why))
      case None => None
  }

  /** Only a fully deployed and ready operand reaches the gate. */
  lemma GateMeansReady(env: Surroundings)
    ensures EarlyExit(env).None? <==>
            && env.tls.TlsConfig? && env.rendered.Some? && env.applied && env.collected
            && forall m :: m in env.rendered.value && m.kind == "Deployment" ==>
                 && env.deployment(m).Deployment?
                 && env.deployment(m).available >=
                      (if env.deployment(m).replicas.Some? then env.deployment(m).replicas.value else 1)
  {
    if env.rendered.Some? { NoneUnreadyOf(env, env.rendered.value); }
  }

  /** Which failed step ends a reconcile, and for which reason: always the first one that failed. */
  lemma EarlyExitMeans(env: Surroundings, reason: string)
    ensures EarlyExit(env) == Some(Broke(reason)) <==>
              || (reason == "TLSConfigFetchFailed" && env.tls.TlsError?)
              || (reason == "ManifestRenderFailed" && env.tls.TlsConfig? && env.rendered.None?)
              || (reason == "DeployFailed" && env.tls.TlsConfig? && env.rendered.Some? && !env.applied)
              || (reason == "GarbageCollectionFailed" && env.tls.TlsConfig? && env.rendered.Some? && env.applied &&
                  !env.collected)
    ensures EarlyExit(env).Some? && EarlyExit(env).value.NotReady? ==>
              && env.tls.TlsConfig? && env.rendered.Some? && env.applied && env.collected
              && !OperandReady(env, env.rendered.value)
    ensures EarlyExit(env).Some? ==> EarlyExit(env).value.Broke? || EarlyExit(env).value.NotReady?
  {
    if env.rendered.Some? { NoneUnreadyOf(env, env.rendered.value); }
  }

  /** The course is the one these surroundings lead to, up to the gate. */
  predicate LedTo(env: Surroundings, course: Course) {
    && (course.Broke? || course.NotReady? ==> EarlyExit(env) == Some(course))
    && (course.Held? || course.Finished? ==> EarlyExit(env).None?)
    && (course.Finished? ==> env.tls.TlsConfig? && course.fallback == env.tls.transientFallback)
  }

  /** A removal failed because the owned resources, or the migration object, could not be deleted. */
  ghost predicate RemovalBlocked(env: Surroundings, from: seq<Migration.Step>, to: seq<Migration.Step>) {
    || !env.ownedDeleted
    || (from < to && to[|to| - 1].RemovedDelete? && to[|to| - 1].removal.Failed?)
  }

  method HandleRemoved(env: Surroundings, api: MC.SvmApi, cr: Resource, cm: ConditionsManager)
    returns (requeue: nat, failed: bool, ghost course: Course)
    requires cm.accessor == cr && api.Valid() && api.run.pc.Idle?
    modifies api, cr`conditions
    ensures api.Valid() && api.run.pc.Idle? && old(api.steps) <= api.steps &&
              api.run.successes == old(api.run.successes)
    ensures course.RemovalFailed? || course.RemovalDone?
    ensures course.RemovalDone? ==> env.ownedDeleted && api.svm.None?
    ensures course.RemovalFailed? ==> RemovalBlocked(env, old(api.steps), api.steps)
    ensures !env.ownedDeleted ==> api.steps == old(api.steps)
    ensures requeue == RequeueAfter(course) && failed == ReturnsError(course)
    ensures cr.conditions == ConditionsAfter(old(cr.conditions), course, cm.generation)
  {
    if !env.ownedDeleted { return DEFAULT_REQUEUE, true, RemovalFailed; }
    var deleted := api.DeleteWhenRemoved();
    if !deleted { return DEFAULT_REQUEUE, true, RemovalFailed; }
    cm.MarkFalse(Available, "Removed");
    cm.MarkFalse(Ready, "Removed");
    cm.MarkFalse(ProvisioningSucceeded, "Removed");
    cm.MarkFalse(Degraded, "NotDegraded");
    requeue, failed, course := 0, false, RemovalDone;
  }

  /** Everything up to the readiness check; `None` means the operand is deployed and ready. */
  method DeployOperand(env: Surroundings, cr: Resource, cm: ConditionsManager)
    returns (requeue: nat, failed: bool, stopped: bool, ghost course: Course)
    requires cm.accessor == cr
    modifies cr`conditions
    ensures stopped <==> EarlyExit(env).Some?
    ensures stopped ==>
              course == EarlyExit(env).value && requeue == RequeueAfter(course) && failed == ReturnsError(course)
    ensures stopped ==> cr.conditions == ConditionsAfter(old(cr.conditions), course, cm.generation)
    ensures !stopped ==> cr.conditions == old(cr.conditions) && env.tls.TlsConfig?
  {
    stopped := true;
    if env.tls.TlsError? {
      cm.MarkUnavailable("TLSConfigFetchFailed");
      return 0, true, true, Broke("TLSConfigFetchFailed");
    }
    if env.rendered.None? {
      cm.MarkUnavailable("ManifestRenderFailed");
      return 0, true, true, Broke("ManifestRenderFailed");
    }
    if !env.applied {
      cm.MarkUnavailable("DeployFailed");
      return 0, true, true, Broke("DeployFailed");
    }
    if !env.collected {
      cm.MarkUnavailable("GarbageCollectionFailed");
      return 0, true, true, Broke("GarbageCollectionFailed");
    }
    var ready;
    ghost var why;
    requeue, ready, why := CheckDeploymentsReady(env, env.rendered.value, cr, cm);
    NoneUnreadyOf(env, env.rendered.value);
    if !ready { return requeue, false, true, NotReady(why); }
    requeue, failed, stopped, course := 0, false, false, RemovalDone;
  }

  /** What a reconcile that is not a removal has learned about the two stateful APIs. */
  ghost predicate Witnessed(course: Course, logBefore: seq<Call>, log: seq<Call>, before: Migration.World,
                            run: Migration.World)
  {
    && (course.Held? ==> logBefore < log)
    && (course.Finished? && course.checked ==> EndsInFullPass(logBefore, log))
    && (!course.Held? && !(course.Finished? && course.checked) ==> log == logBefore)
    && run.successes == before.successes + (if course.Finished? && course.migration.Completed? then 1 else 0)
    && (course.Finished? && course.migration.Exhausted? ==> Migration.Exhausted(run))
  }

  /** The gate, the handshake and the migration, once the operand is up. */
  method GateAndMigrate(env: Surroundings, pc: PlatformConfig, servers: McpServers, api: MC.SvmApi, cr: Resource,
                        cm: ConditionsManager)
    returns (requeue: nat, ghost course: Course)
    requires cm.accessor == cr && servers.Valid() && api.Valid() && api.run.pc.Idle? && env.tls.TlsConfig?
    modifies servers, api, cr`conditions, cr`distribution
    ensures servers.Valid() && api.Valid() && api.run.pc.Idle? && old(api.steps) <= api.steps
    ensures course.Held? || course.Finished?
    ensures Allowed(old(cr.View()), Managed, Seen(pc, None, course))
    ensures Witnessed(course, old(servers.log), servers.log, old(api.run), api.run)
    ensures course.Finished? ==> course.fallback == env.tls.transientFallback
    ensures requeue == RequeueAfter(course) && !ReturnsError(course)
    ensures cr.conditions == ConditionsAfter(old(cr.conditions), course, cm.generation)
    ensures cr.distribution == DistributionAfter(old(cr.distribution), Seen(pc, None, course))
    ensures servers.log == old(servers.log) <==>
              && pc.available && old(cr.distribution) == Distribution(pc.name, pc.version)
              && exists c :: Find(old(cr.conditions), ConversionVerified) == Some(c) && c.status == True
  {
    var checked := !HandshakeSettled(cr.View(), pc);
    if checked {
      var healthy;
      ghost var v;
      requeue, healthy, v := CheckConversionHealth(servers, cr, cm);
      if !healthy { course := Held(v); return; }
    }
    requeue, course := AdvanceAndMigrate(env, pc, checked, api, cr, cm);
  }

  /** Drives the migration; a transient TLS fallback asks for a requeue when the migration does not. */
  method DriveMigration(env: Surroundings, checked: bool, api: MC.SvmApi, cr: Resource, cm: ConditionsManager)
    returns (requeue: nat, ghost course: Course)
    requires cm.accessor == cr && api.Valid() && api.run.pc.Idle? && env.tls.TlsConfig?
    modifies api, cr`conditions
    ensures api.Valid() && api.run.pc.Idle? && old(api.steps) <= api.steps
    ensures course.Finished? && course.checked == checked && course.fallback == env.tls.transientFallback
    ensures course.migration.Settled? <==> IsTrue(old(cr.conditions), StorageMigrated)
    ensures api.run.successes == old(api.run.successes) + (if course.migration.Completed? then 1 else 0)
    ensures course.migration.Exhausted? ==> Migration.Exhausted(api.run)
    ensures requeue == RequeueAfter(course)
    ensures cr.conditions == MC.Effect(course.migration, old(cr.conditions), cm.generation)
  {
    ghost var m;
    requeue, m := MC.ReconcileStorageMigration(api, env.discovery, cr, cm);
    if env.tls.transientFallback && requeue == 0 { requeue := DEFAULT_REQUEUE; }
    course := Finished(checked, m, env.tls.transientFallback);
  }

  /** Past the gate: mark healthy, advance the recorded distribution, drive the migration. */
  method AdvanceAndMigrate(env: Surroundings, pc: PlatformConfig, checked: bool, api: MC.SvmApi, cr: Resource,
                           cm: ConditionsManager)
    returns (requeue: nat, ghost course: Course)
    requires cm.accessor == cr && api.Valid() && api.run.pc.Idle? && env.tls.TlsConfig?
    modifies api, cr`conditions, cr`distribution
    ensures api.Valid() && api.run.pc.Idle? && old(api.steps) <= api.steps
    ensures course.Finished? && course.checked == checked && course.fallback == env.tls.transientFallback
    ensures course.migration.Settled? <==> IsTrue(old(cr.conditions), StorageMigrated)
    ensures api.run.successes == old(api.run.successes) + (if course.migration.Completed? then 1 else 0)
    ensures course.migration.Exhausted? ==> Migration.Exhausted(api.run)
    ensures requeue == RequeueAfter(course)
    ensures cr.conditions == MC.Effect(course.migration, AfterSuccess(old(cr.conditions), checked, cm.generation),
              cm.generation)
    ensures cr.distribution == if pc.available then Distribution(pc.name, pc.version) else old(cr.distribution)
  {
    MarkHealthy(cr, cm, checked);
    if pc.available { cr.distribution := Distribution(pc.name, pc.version); }
    requeue, course := DriveMigration(env, checked, api, cr, cm);
  }

  /** Records a verified conversion, when this reconcile did the verifying, and availability. */
  method MarkHealthy(cr: Resource, cm: ConditionsManager, checked: bool)
    requires cm.accessor == cr
    modifies cr`conditions
    ensures cr.conditions == AfterSuccess(old(cr.conditions), checked, cm.generation)
    ensures IsTrue(cr.conditions, StorageMigrated) <==> IsTrue(old(cr.conditions), StorageMigrated)
  {
    SuccessKeepsMigration(cr.conditions, checked, cm.generation);
    if checked { cm.MarkTrueWithReason(ConversionVerified, "ConversionVerified"); }
    cm.MarkTrue(Available);
    cm.AggregateReady();
  }

  /** Aggregation never reads or writes the migration's own condition. */
  lemma SuccessKeepsMigration(cs: seq<Condition>, checked: bool, generation: int)
    ensures Find(AfterSuccess(cs, checked, generation), StorageMigrated) == Find(cs, StorageMigrated)
  {}

  /** The operand, then the gate and what lies behind it. */
  method DeployAndGate(env: Surroundings, pc: PlatformConfig, servers: McpServers, api: MC.SvmApi, cr: Resource,
                       cm: ConditionsManager)
    returns (requeue: nat, failed: bool, ghost course: Course)
    requires cm.accessor == cr && servers.Valid() && api.Valid() && api.run.pc.Idle?
    modifies servers, api, cr`conditions, cr`distribution
    ensures servers.Valid() && api.Valid() && api.run.pc.Idle? && old(api.steps) <= api.steps
    ensures Allowed(old(cr.View()), Managed, Seen(pc, None, course))
    ensures Witnessed(course, old(servers.log), servers.log, old(api.run), api.run) && LedTo(env, course)
    ensures requeue == RequeueAfter(course) && failed == ReturnsError(course)
    ensures cr.conditions == ConditionsAfter(old(cr.conditions), course, cm.generation)
    ensures cr.distribution == DistributionAfter(old(cr.distribution), Seen(pc, None, course))
  {
    var stopped;
    requeue, failed, stopped, course := DeployOperand(env, cr, cm);
    if !stopped {
      requeue, course := GateAndMigrate(env, pc, servers, api, cr, cm);
      failed := false;
    }
  }

  /** What a course may be depends on the conditions, the distribution and the configuration only. */
  lemma AllowedSame(s: Status, s': Status, seen: Seen, seen': Seen)
    requires s.conditions == s'.conditions && s.distribution == s'.distribution && seen.course == seen'.course &&
               seen.config == seen'.config
    requires Allowed(s, Managed, seen)
    ensures Allowed(s', Managed, seen') &&
              DistributionAfter(s.distribution, seen) == DistributionAfter(s'.distribution, seen')
  {}

  /** A reconcile that is not a removal, up to its deferred write. */
  method ReconcileManaged(env: Surroundings, pc: PlatformConfig, servers: McpServers, api: MC.SvmApi, cr: Resource,
                          cm: ConditionsManager)
    returns (requeue: nat, failed: bool, ghost course: Course)
    requires cm.accessor == cr && servers.Valid() && api.Valid() && api.run.pc.Idle?
    modifies servers, api, cr`conditions, cr`distribution, cr`gateways
    ensures servers.Valid() && api.Valid() && api.run.pc.Idle? && old(api.steps) <= api.steps
    ensures Allowed(old(cr.View()), Managed, Seen(pc, env.gateways, course))
    ensures Witnessed(course, old(servers.log), servers.log, old(api.run), api.run) && LedTo(env, course)
    ensures requeue == RequeueAfter(course) && failed == ReturnsError(course)
    ensures cr.conditions == ConditionsAfter(old(cr.conditions), course, cm.generation)
    ensures cr.distribution == DistributionAfter(old(cr.distribution), Seen(pc, env.gateways, course))
    ensures cr.gateways == if env.gateways.Some? then env.gateways.value else old(cr.gateways)
  {
    ghost var s := cr.View();
    if env.gateways.Some? { cr.gateways := env.gateways.value; }
    ghost var s' := cr.View();
    requeue, failed, course := DeployAndGate(env, pc, servers, api, cr, cm);
    AllowedSame(s', s, Seen(pc, None, course), Seen(pc, env.gateways, course));
  }

  /** `reconcile` with its deferred base-status write. */
  method ReconcileResource(env: Surroundings, operatorVersion: string, servers: McpServers, api: MC.SvmApi,
                           cr: Resource)
    returns (requeue: nat, failed: bool, ghost seen: Seen)
    requires servers.Valid() && api.Valid() && api.run.pc.Idle?
    modifies servers, api, cr
    ensures servers.Valid() && api.Valid() && api.run.pc.Idle? && old(api.steps) <= api.steps
    ensures seen.config == PlatformConfigOf(env.config, operatorVersion) && seen.gateways == env.gateways
    ensures Allowed(old(cr.View()), cr.managementState, seen)
    ensures Witnessed(seen.course, old(servers.log), servers.log, old(api.run), api.run)
    ensures LedTo(env, seen.course)
    ensures seen.course.RemovalDone? ==> env.ownedDeleted && api.svm.None?
    ensures seen.course.RemovalFailed? ==> RemovalBlocked(env, old(api.steps), api.steps)
    ensures requeue == RequeueAfter(seen.course) && failed == ReturnsError(seen.course)
    ensures cr.View() == After(old(cr.View()), cr.generation, operatorVersion, seen)
  {
    var cm := new ConditionsManager(cr, cr.generation);
    var pc := PlatformConfigOf(env.config, operatorVersion);
    ghost var course;
    if cr.managementState.Removed? {
      requeue, failed, course := HandleRemoved(env, api, cr, cm);
    } else {
      requeue, failed, course := ReconcileManaged(env, pc, servers, api, cr, cm);
    }
    UpdateBaseStatus(cr, cm, pc, operatorVersion);
    seen := Seen(pc, env.gateways, course);
  }

  method UpdateBaseStatus(cr: Resource, cm: ConditionsManager, pc: PlatformConfig, operatorVersion: string)
    requires cm.accessor == cr
    modifies cr`observedGeneration, cr`phase, cr`releases
    ensures cr.observedGeneration == cr.generation && cr.phase == PhaseOf(cr.conditions)
    ensures cr.releases == if pc.available then ReleasesFor(operatorVersion, cr.distribution) else old(cr.releases)
  {
    cr.observedGeneration := cr.generation;
    cr.phase := cm.Phase();
    if pc.available { SetReleases(cr, operatorVersion); }
  }

  method SetReleases(cr: Resource, operatorVersion: string)
    modifies cr`releases
    ensures cr.releases == ReleasesFor(operatorVersion, cr.distribution)
  {
    var releases := [Release(SERVICE_NAME, REPO_URL, operatorVersion)];
    if cr.distribution.version != "" {
      releases := releases + [Release(PLATFORM, "", cr.distribution.version)];
    }
    cr.releases := releases;
  }

  datatype Stored = Stored(generation: int, managementState: ManagementState, status: Status)

  /** The resource as the API server stores it. */
  class Cluster {
    var stored: Option<Stored>

    /**
     One reconcile request: read the stored resource, reconcile a copy, patch the status. The
     stored status takes exactly one allowed step, or stays as it was; `readable` and `patched`
     say whether the API server answered the read and took the patch.
     */
    method ReconcileRequest(env: Surroundings, operatorVersion: string, servers: McpServers, api: MC.SvmApi,
                            readable: bool, patched: bool)
      returns (requeue: nat, failed: bool, ghost seen: Option<Seen>)
      requires servers.Valid() && api.Valid() && api.run.pc.Idle?
      modifies this, servers, api
      ensures servers.Valid() && api.Valid() && api.run.pc.Idle? && old(api.steps) <= api.steps
      ensures seen.None? <==> !readable || old(stored).None?
      ensures seen.None? ==> stored == old(stored) && servers.log == old(servers.log) && api.steps == old(api.steps)
      ensures seen.None? ==> requeue == 0 && (failed <==> !readable)
      ensures seen.Some? ==>
                && stored.Some? && stored.value.generation == old(stored).value.generation
                && stored.value.managementState == old(stored).value.managementState
                && Allowed(old(stored).value.status, old(stored).value.managementState, seen.value)
                && Witnessed(seen.value.course, old(servers.log), servers.log, old(api.run), api.run)
                && LedTo(env, seen.value.course)
                && (seen.value.course.RemovalDone? ==> env.ownedDeleted && api.svm.None?)
                && (seen.value.course.RemovalFailed? ==> RemovalBlocked(env, old(api.steps), api.steps))
                && seen.value.config == PlatformConfigOf(env.config, operatorVersion)
                && seen.value.gateways == env.gateways
                && stored.value.status ==
                   (if patched
                    then After(old(stored).value.status, old(stored).value.generation, operatorVersion, seen.value)
                    else old(stored).value.status)
                && (failed <==> !patched || ReturnsError(seen.value.course))
                && requeue == (if patched then RequeueAfter(seen.value.course) else 0)
    {
      if !readable { return 0, true, None; }
      if stored.None? { return 0, false, None; }
      var s := stored.value;
      var cr := new Resource(s.generation, s.managementState, s.status);
      ghost var what;
      requeue, failed, what := ReconcileResource(env, operatorVersion, servers, api, cr);
      seen := Some(what);
      if patched {
        stored := Some(s.(status := cr.View()));
      } else {
        requeue, failed := 0, true;
      }
    }
  }
}
