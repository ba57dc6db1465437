/**
 The status of the MCPLifecycleOperator resource and the manager of its conditions
 (api/v1alpha1/mcplifecycleoperator_lifecycle.go, mcplifecycleoperator_types.go).
 Setting a condition is an upsert by type; message texts and transition times are left out.
 */
module Api {
  import opened Wrappers

  datatype ConditionType = Available | Ready | ProvisioningSucceeded | Degraded | StorageMigrated | ConversionVerified
      | Other(name: string)
  datatype ConditionStatus = True | False | Unknown
  datatype Severity = Error | Info

  datatype Condition = Condition(kind: ConditionType, status: ConditionStatus, reason: string, severity: Severity,
      observedGeneration: int)

  datatype Phase = NotReadyPhase | ReadyPhase
  datatype ManagementState = Managed | Removed
  datatype Distribution = Distribution(name: string, version: string)
  datatype Release = Release(name: string, repoURL: string, version: string)

  datatype Status = Status(
    conditions: seq<Condition>, phase: Phase, observedGeneration: int, distribution: Distribution,
        releases: seq<Release>, gateways: seq<string>)

  /** The status of a resource nobody has reconciled yet. */
  const FRESH := Status([], NotReadyPhase, 0, Distribution("", ""), [], [])

  function Find(cs: seq<Condition>, kind: ConditionType): Option<Condition> {
    if cs == [] then None else if cs[0].kind == kind then Some(cs[0]) else Find(cs[1..], kind)
  }

  lemma FindMeaning(cs: seq<Condition>, kind: ConditionType)
    ensures Find(cs, kind).Some? ==> Find(cs, kind).value in cs && Find(cs, kind).value.kind == kind
    ensures Find(cs, kind).None? <==> forall i :: 0 <= i < |cs| ==> cs[i].kind != kind
  {}

  /** `Find` returns the first condition of the type. */
  lemma {:induction false} FindIsFirst(cs: seq<Condition>, kind: ConditionType)
    ensures Find(cs, kind).None? ==> forall i :: 0 <= i < |cs| ==> cs[i].kind != kind
    ensures Find(cs, kind).Some? ==> exists i ::
              && 0 <= i < |cs| && cs[i].kind == kind && Find(cs, kind) == Some(cs[i])
              && forall j :: 0 <= j < i ==> cs[j].kind != kind
    decreases |cs|
  {
    if cs != [] && cs[0].kind != kind {
      FindIsFirst(cs[1..], kind);
      if Find(cs, kind).Some? {
        var i :| 0 <= i < |cs[1..]| && cs[1..][i].kind == kind && Find(cs, kind) == Some(cs[1..][i]) &&
          forall j :: 0 <= j < i ==> cs[1..][j].kind != kind;
        forall j | 0 <= j < i + 1 ensures cs[j].kind != kind { assert j > 0 ==> cs[j] == cs[1..][j - 1]; }
        assert cs[i + 1] == cs[1..][i];
      }
    }
  }

  predicate Unique(cs: seq<Condition>) {
    forall i, j :: 0 <= i < j < |cs| ==> cs[i].kind != cs[j].kind
  }

  /** Replaces the first condition of that type, or appends. */
  function Upsert(cs: seq<Condition>, c: Condition): (r: seq<Condition>)
    ensures forall k :: Find(r, k) == if k == c.kind then Some(c) else Find(cs, k)
    ensures Unique(cs) ==> Unique(r)
  {
    if cs == [] then [c]
    else if cs[0].kind == c.kind then [c] + cs[1..]
    else
      var rest := Upsert(cs[1..], c);
      FindMeaning(cs[1..], cs[0].kind);
      FindMeaning(rest, cs[0].kind);
      [cs[0]] + rest
  }

  /** The position of the first condition of the type, or the length. */
  function Position(cs: seq<Condition>, kind: ConditionType): (i: nat)
    ensures i <= |cs| && (i < |cs| ==> cs[i].kind == kind) && forall j :: 0 <= j < i ==> cs[j].kind != kind
  {
    if cs == [] || cs[0].kind == kind then 0 else 1 + Position(cs[1..], kind)
  }

  /** Setting a condition replaces the first one of its type in its place, or appends it when there is none. */
  lemma {:induction false} UpsertAt(cs: seq<Condition>, c: Condition)
    ensures var i := Position(cs, c.kind); Upsert(cs, c) == if i < |cs| then cs[i := c] else cs + [c]
    decreases |cs|
  {
    if cs != [] && cs[0].kind != c.kind {
      UpsertAt(cs[1..], c);
      Shifted(cs, c, Position(cs, c.kind));
    }
  }

  lemma Shifted(cs: seq<Condition>, c: Condition, i: int)
    requires cs != [] && 0 < i <= |cs|
    ensures i < |cs| ==> cs[i := c] == [cs[0]] + cs[1..][i - 1 := c]
    ensures cs + [c] == [cs[0]] + (cs[1..] + [c])
  {
    assert cs == [cs[0]] + cs[1..];
  }

  function StatusOf(cs: seq<Condition>, kind: ConditionType): Option<ConditionStatus> {
    match Find(cs, kind) case Some(c) => Some(c.status) case None => None
  }

  predicate IsTrue(cs: seq<Condition>, kind: ConditionType) { StatusOf(cs, kind) == Some(True) }

  /** The first condition of the type says true. */
  lemma TrueMeans(cs: seq<Condition>, kind: ConditionType)
    ensures IsTrue(cs, kind) <==> exists i ::
              && 0 <= i < |cs| && cs[i].kind == kind && cs[i].status == True
              && forall j :: 0 <= j < i ==> cs[j].kind != kind
  {
    FindIsFirst(cs, kind);
  }

  predicate IsFeature(kind: ConditionType) { kind == Available }

  /** The conditions of the resource, to which a manager writes. */
  class Resource {
    const generation: int
    const managementState: ManagementState
    var conditions: seq<Condition>
    var phase: Phase
    var observedGeneration: int
    var distribution: Distribution
    var releases: seq<Release>
    var gateways: seq<string>

    constructor (generation: int, managementState: ManagementState, status: Status)
      ensures View() == status && this.generation == generation && this.managementState == managementState
    {
      this.generation, this.managementState := generation, managementState;
      conditions, phase, observedGeneration := status.conditions, status.phase, status.observedGeneration;
      distribution, releases, gateways := status.distribution, status.releases, status.gateways;
    }

    function View(): Status
      reads this
    {
      Status(conditions, phase, observedGeneration, distribution, releases, gateways)
    }
  }

  class ConditionsManager {
    const accessor: Resource
    const generation: int

    constructor (accessor: Resource, generation: int)
      ensures this.accessor == accessor && this.generation == generation
    {
      this.accessor, this.generation := accessor, generation;
    }

    method MarkTrue(kind: ConditionType)
      modifies accessor`conditions
      ensures accessor.conditions ==
              Upsert(old(accessor.conditions), Condition(kind, True, "Available", Error, generation))
    {
      accessor.conditions := Upsert(accessor.conditions, TrueCondition(kind, "Available", generation));
    }

    method MarkTrueWithReason(kind: ConditionType, reason: string)
      modifies accessor`conditions
      ensures accessor.conditions ==
              Upsert(old(accessor.conditions), Condition(kind, True, reason, Error, generation))
    {
      accessor.conditions := Upsert(accessor.conditions, TrueCondition(kind, reason, generation));
    }

    method MarkFalse(kind: ConditionType, reason: string)
      modifies accessor`conditions
      ensures accessor.conditions ==
              Upsert(old(accessor.conditions), Condition(kind, False, reason, Error, generation))
    {
      accessor.conditions := Upsert(accessor.conditions, FalseCondition(kind, reason, generation));
    }

    method MarkUnknown(kind: ConditionType)
      modifies accessor`conditions
      ensures accessor.conditions == Upsert(old(accessor.conditions),
                Condition(kind, Unknown, "Progressing", Error, generation))
    {
      accessor.conditions := Upsert(accessor.conditions, Condition(kind, Unknown, "Progressing", Error, generation));
    }

    /** Folds the feature conditions into ProvisioningSucceeded, Ready and Degraded. */
    method AggregateReady()
      modifies accessor`conditions
      ensures accessor.conditions == Aggregated(old(accessor.conditions), generation)
    {
      if !IsTrue(accessor.conditions, Available) {
        MarkFalse(ProvisioningSucceeded, "OperandDeploymentFailed");
        MarkFalse(Ready, "OperandDeploymentFailed");
        MarkFalse(Degraded, "NotDegraded");
        return;
      }
      var anyFailing, anyUnknown := false, false;
      var cs := accessor.conditions;
      for i := 0 to |cs|
        invariant anyFailing <==> exists j :: 0 <= j < i && Failing(cs[j])
        invariant anyUnknown <==> exists j :: 0 <= j < i && Undecided(cs[j])
      {
        if IsFeature(cs[i].kind) {
          match cs[i].status
          case False => if cs[i].severity != Info { anyFailing := true; }
          case Unknown => anyUnknown := true;
          case True =>
        }
      }
      MarkTrue(ProvisioningSucceeded);
      if anyFailing {
        MarkTrue(Ready);
        MarkTrue(Degraded);
      } else if anyUnknown {
        MarkUnknown(Ready);
        MarkFalse(Degraded, "NotDegraded");
      } else {
        MarkTrue(Ready);
        MarkFalse(Degraded, "NotDegraded");
      }
    }

    /** The pair every early exit of a reconcile makes: not available, then aggregate. */
    method MarkUnavailable(reason: string)
      modifies accessor`conditions
      ensures accessor.conditions == Unavailable(old(accessor.conditions), reason, generation)
    {
      MarkFalse(Available, reason);
      AggregateReady();
    }

    function Phase(): Phase
      reads accessor
    {
      PhaseOf(accessor.conditions)
    }
  }

  function TrueCondition(kind: ConditionType, reason: string, generation: int): Condition {
    Condition(kind, True, reason, Error, generation)
  }

  function FalseCondition(kind: ConditionType, reason: string, generation: int): Condition {
    Condition(kind, False, reason, Error, generation)
  }

  function PhaseOf(cs: seq<Condition>): Phase {
    if IsTrue(cs, Ready) then ReadyPhase else NotReadyPhase
  }

  predicate Failing(c: Condition) { IsFeature(c.kind) && c.status == False && c.severity != Info }
  predicate Undecided(c: Condition) { IsFeature(c.kind) && c.status == Unknown }

  /** The three derived conditions, for given statuses. */
  function Derived(cs: seq<Condition>, first: Condition, second: Condition, third: Condition): (r: seq<Condition>)
    requires first.kind != second.kind && second.kind != third.kind && first.kind != third.kind
    ensures Unique(cs) ==> Unique(r)
    ensures Find(r, first.kind) == Some(first) && Find(r, second.kind) == Some(second) &&
              Find(r, third.kind) == Some(third)
    ensures forall k :: k !in {first.kind, second.kind, third.kind} ==> Find(r, k) == Find(cs, k)
  {
    Upsert(Upsert(Upsert(cs, first), second), third)
  }

  /** What aggregation leaves, said without a loop. */
  ghost function Aggregated(cs: seq<Condition>, generation: int): (r: seq<Condition>)
    ensures forall k :: k !in {Ready, ProvisioningSucceeded, Degraded} ==> Find(r, k) == Find(cs, k)
    ensures Unique(cs) ==> Unique(r)
  {
    if !IsTrue(cs, Available) then
      Derived(cs, FalseCondition(ProvisioningSucceeded, "OperandDeploymentFailed", generation),
              FalseCondition(Ready, "OperandDeploymentFailed", generation),
              FalseCondition(Degraded, "NotDegraded", generation))
    else if exists c :: c in cs && Failing(c) then
      Derived(cs, TrueCondition(ProvisioningSucceeded, "Available", generation),
              TrueCondition(Ready, "Available", generation),
              TrueCondition(Degraded, "Available", generation))
    else if exists c :: c in cs && Undecided(c) then
      Derived(cs, TrueCondition(ProvisioningSucceeded, "Available", generation),
              Condition(Ready, Unknown, "Progressing", Error, generation),
              FalseCondition(Degraded, "NotDegraded", generation))
    else
      Derived(cs, TrueCondition(ProvisioningSucceeded, "Available", generation),
              TrueCondition(Ready, "Available", generation),
              FalseCondition(Degraded, "NotDegraded", generation))
  }

  /** Without a true Available the derived conditions say that the operand is not deployed. */
  lemma AggregatedDown(cs: seq<Condition>, g: int)
    requires forall c :: Find(cs, Available) == Some(c) ==> c.status != True
    ensures var r := Aggregated(cs, g);
            && Find(r, ProvisioningSucceeded) ==
                 Some(Condition(ProvisioningSucceeded, False, "OperandDeploymentFailed", Error, g))
            && Find(r, Ready) == Some(Condition(Ready, False, "OperandDeploymentFailed", Error, g))
            && Find(r, Degraded) == Some(Condition(Degraded, False, "NotDegraded", Error, g))
  {}

  /** With one, they depend on whether some Available condition reports a failure, or does not know. */
  lemma AggregatedUp(cs: seq<Condition>, g: int)
    requires exists c :: Find(cs, Available) == Some(c) && c.status == True
    ensures var r := Aggregated(cs, g);
            var failing := exists c :: c in cs && c.kind == Available && c.status == False && c.severity != Info;
            var unknown := exists c :: c in cs && c.kind == Available && c.status == Unknown;
            && Find(r, ProvisioningSucceeded) == Some(Condition(ProvisioningSucceeded, True, "Available", Error, g))
            && Find(r, Ready) == Some(if !failing && unknown then Condition(Ready, Unknown, "Progressing", Error, g)
                                      else Condition(Ready, True, "Available", Error, g))
            && Find(r, Degraded) == Some(if failing then Condition(Degraded, True, "Available", Error, g)
                                         else Condition(Degraded, False, "NotDegraded", Error, g))
  {}

  /** The conditions after Available is marked false and readiness aggregated. */
  ghost function Unavailable(cs: seq<Condition>, reason: string, generation: int): (r: seq<Condition>)
    ensures Unique(cs) ==> Unique(r)
    ensures forall k :: k !in {Available, Ready, ProvisioningSucceeded, Degraded} ==> Find(r, k) == Find(cs, k)
  {
    Aggregated(Upsert(cs, FalseCondition(Available, reason, generation)), generation)
  }

  lemma UnavailableReason(cs: seq<Condition>, reason: string, g: int)
    ensures Find(Unavailable(cs, reason, g), Available) == Some(Condition(Available, False, reason, Error, g))
  {}

  /** With one condition per type the failing and undecided branches cannot be taken. */
  lemma UniqueConditionsAgree(cs: seq<Condition>, generation: int)
    requires Unique(cs)
    ensures var r := Aggregated(cs, generation); var up := if IsTrue(cs, Available) then True else False;
            && StatusOf(r, Ready) == Some(up) && StatusOf(r, ProvisioningSucceeded) == Some(up)
            && StatusOf(r, Degraded) == Some(False)
  {
    if IsTrue(cs, Available) {
      forall c | c in cs && IsFeature(c.kind) ensures c.status == True {
        assert c == Find(cs, Available).value by { UniqueMember(cs, c); }
      }
    }
  }

  lemma UniqueMember(cs: seq<Condition>, c: Condition)
    requires Unique(cs) && c in cs
    ensures Find(cs, c.kind) == Some(c)
  {}

  /** Degraded is raised exactly when a second Available condition reports a failure beside a true first one. */
  lemma DegradedExactly(cs: seq<Condition>, generation: int)
    ensures IsTrue(Aggregated(cs, generation), Degraded) <==>
            (IsTrue(cs, Available) && exists c ::
            c in cs && c.kind == Available && c.status == False && c.severity != Info)
  {
    assert forall c :: Failing(c) <==> c.kind == Available && c.status == False && c.severity != Info;
  }
}
