/**
 Whole runs: any sequence of Exists, Create, Update and Delete on one machine, each starting from the
 stored object. Storing can fail half way, so the next operation starts from what the last one left, or
 from what it found, separately for the two halves that are patched separately.
 */
module Runs {
  import opened Wrappers
  import opened Tags
  import opened Ecs
  import opened Lookup
  import opened Newest
  import opened Polling
  import opened Conditions
  import opened Machines
  import opened Creation
  import opened Protocol
  import opened Operations
  import opened Outcomes

  /** One operation with its calls, the clock reading it used, and its result. */
  datatype Op =
    | Exists(look: seq<Event>, at: int, present: Result<bool, Error>)
    | Create(config: seq<Event>, run: seq<Event>, made: Result<Instance, Error>, at: int, r: Result<(), Error>)
    | Update(look: seq<Event>, tag: seq<Event>, at: int, r: Result<(), Error>)
    | Delete(look: seq<Event>, rest: seq<Event>, at: int, r: Result<(), Error>)

  datatype Step = Step(before: Object, op: Op, after: Object)

  function CallsOf(op: Op): seq<Event> {
    match op
    case Exists(look, _, _) => look
    case Create(config, run, _, _, _) => config + run
    case Update(look, tag, _, _) => look + tag
    case Delete(look, rest, _, _) => look + rest
  }

  ghost predicate StepOk(s: Spec, parse: ParseIP, step: Step) {
    match step.op
    case Exists(look, at, present) => ExistsCalls(s, step.before, look, at, present) && step.after == step.before
    case Create(config, run, made, at, r) => CreateCalls(s, parse, step.before, config, run, made, at, step.after, r)
    case Update(look, tag, at, r) => UpdateCalls(s, parse, step.before, look, tag, at, step.after, r)
    case Delete(look, rest, at, r) => DeleteCalls(s, step.before, look, rest, at, step.after, r)
  }

  /** The half of the object that the main patch stores, and the half that the status patch stores. */
  predicate SameMain(a: Machine, b: Machine) {
    a.name == b.name && a.labels == b.labels && a.specLabels == b.specLabels && a.providerID == b.providerID
  }

  predicate SameStatus(a: Object, b: Object) {
    a.machine.addresses == b.machine.addresses && a.status == b.status
  }

  /** What the next operation may start from. Annotations and the update time also belong to others. */
  predicate Handover(step: Step, next: Object) {
    && (SameMain(next.machine, step.after.machine) || SameMain(next.machine, step.before.machine))
    && (SameStatus(next, step.after) || SameStatus(next, step.before))
  }

  ghost predicate RunOk(s: Spec, parse: ParseIP, run: seq<Step>) {
    && (forall n :: 0 <= n < |run| ==> StepOk(s, parse, run[n]))
    && (forall n :: 0 < n < |run| ==> Handover(run[n - 1], run[n].before))
  }

  function Log(run: seq<Step>): seq<Event> {
    if run == [] then [] else Log(run[..|run| - 1]) + CallsOf(run[|run| - 1].op)
  }

  /** How many calls the first n operations made. */
  function Position(run: seq<Step>, n: nat): nat
    requires n <= |run|
  {
    |Log(run[..n])|
  }

  lemma {:induction false} LogSplits(run: seq<Step>, n: nat)
    requires n <= |run|
    ensures Position(run, n) <= |Log(run)| && Log(run)[..Position(run, n)] == Log(run[..n])
  {
    if n == |run| {
      assert run[..n] == run;
    } else {
      var m := |run| - 1;
      assert run[..m][..n] == run[..n];
      LogSplits(run[..m], n);
    }
  }

  /** The calls of operation n, found again in the log of the run. */
  lemma CallsInLog(run: seq<Step>, n: nat)
    requires n < |run|
    ensures Position(run, n + 1) == Position(run, n) + |CallsOf(run[n].op)| <= |Log(run)|
    ensures forall k :: 0 <= k < |CallsOf(run[n].op)| ==> Log(run)[Position(run, n) + k] == CallsOf(run[n].op)[k]
  {
    hide CallsOf;
    LogSplits(run, n + 1);
    assert run[..n + 1][..n] == run[..n] && run[..n + 1][n] == run[n];
    var all, calls := Log(run), CallsOf(run[n].op);
    assert all[..Position(run, n + 1)] == Log(run[..n]) + calls;
    forall k | 0 <= k < |calls|
      ensures all[Position(run, n) + k] == calls[k]
    {
      assert all[Position(run, n) + k] == all[..Position(run, n + 1)][Position(run, n) + k];
    }
  }

  // --- What one operation does to the object ---

  /** How the operations touch the object: who it is, what it records, and its conditions. */
  lemma StepEffect(s: Spec, parse: ParseIP, step: Step)
    requires StepOk(s, parse, step)
    ensures step.after.machine.name == step.before.machine.name
    ensures ClusterID(step.after.machine) == ClusterID(step.before.machine)
    ensures HasProviderID(step.before.machine) ==> HasProviderID(step.after.machine)
    ensures step.after.status.conditions == step.before.status.conditions ||
            exists at :: step.after.status.conditions == WithCondition(step.before.status.conditions, ConditionSuccess(), at)
  {
    match step.op
    case Exists(look, at, present) =>
    case Create(config, run, made, at, r) =>
      hide RunCalls, WithCondition, ClusterID, WithSpecifics;
      if made.Success? {
        WritesKeepCluster(step.before.machine, made.value);
        WrittenStatus(parse, step.before, made.value, at);
      }
    case Update(look, tag, at, r) =>
      UpdateEffect(s, parse, step.before, look, tag, at, step.after, r);
    case Delete(look, rest, at, r) =>
      DeleteEffect(s, step.before, look, rest, at, step.after, r);
  }

  lemma WrittenStatus(parse: ParseIP, o: Object, i: Instance, at: int)
    ensures var after := WithStatus(parse, Written(o, i), Some(i), ConditionSuccess(), at);
            && after.machine.name == o.machine.name && ClusterID(after.machine) == ClusterID(o.machine)
            && HasProviderID(after.machine) && HasProviderID(Written(o, i).machine)
            && (after.status.conditions == o.status.conditions
                || after.status.conditions == WithCondition(o.status.conditions, ConditionSuccess(), at))
  {
    hide WithCondition, NodeAddresses;
    WritesKeepCluster(o.machine, i);
    assert |ProviderIDOf(i.regionID, i.id)| > 0;
  }

  lemma UpdateEffect(
    s: Spec, parse: ParseIP, o: Object, look: seq<Event>, tag: seq<Event>, at: int, after: Object, r: Result<(), Error>
  )
    requires UpdateCalls(s, parse, o, look, tag, at, after, r)
    ensures after.machine.name == o.machine.name && ClusterID(after.machine) == ClusterID(o.machine)
    ensures HasProviderID(o.machine) ==> HasProviderID(after.machine)
    ensures after.status.conditions == o.status.conditions ||
            after.status.conditions == WithCondition(o.status.conditions, ConditionSuccess(), at)
    ensures after.status.instanceID == o.status.instanceID || after.status.instanceID == None ||
            (ValidMachine(o.machine) && UpdateMachineResult(o.machine, LookupOutcome(o, look), at).Success?
             && after.status.instanceID == Some(UpdateMachineResult(o.machine, LookupOutcome(o, look), at).value.id))
  {
    hide WithCondition, NodeAddresses, LookupOutcome, LookupCalls, ClusterID, WithSpecifics, NeedsRetag;
    if ValidMachine(o.machine) {
      match UpdateMachineResult(o.machine, LookupOutcome(o, look), at)
      case Failure(e) =>
      case Success(i) =>
        WritesKeepCluster(o.machine, i);
        WrittenStatus(parse, o, i, at);
    }
  }

  lemma DeleteEffect(
    s: Spec, o: Object, look: seq<Event>, rest: seq<Event>, at: int, after: Object, r: Result<(), Error>
  )
    requires DeleteCalls(s, o, look, rest, at, after, r)
    ensures after.status == o.status && SameMain(after.machine, o.machine)
  {
    hide LookupOutcome, LookupCalls, WaitThenDelete;
  }

  // --- Invariants of every run ---

  /** The object a run starts from is a new one: nothing recorded, no conditions. */
  predicate Fresh(o: Object) {
    !Recorded(o.status) && o.status.conditions == []
  }

  /** No condition, or the single condition that the machine was created. */
  ghost predicate OnlyCreated(conditions: seq<Condition>) {
    conditions == [] || exists at :: conditions == [ConditionSuccess().(lastTransitionTime := at)]
  }

  lemma SuccessKeepsOnlyCreated(conditions: seq<Condition>, at: int)
    requires OnlyCreated(conditions)
    ensures OnlyCreated(WithCondition(conditions, ConditionSuccess(), at))
  {
    if conditions == [] {
      assert WithCondition(conditions, ConditionSuccess(), at) == [ConditionSuccess().(lastTransitionTime := at)];
    } else {
      var t :| conditions == [ConditionSuccess().(lastTransitionTime := t)];
      assert conditions[..0] == [];
      assert WithCondition(conditions, ConditionSuccess(), at) == conditions;
    }
  }

  /**
   In every run from a fresh object, the name and the cluster stay, a provider ID once set is never
   empty again, and the only condition ever stored is the successful creation: the failed one is not.
   */
  lemma {:induction false} RunInvariants(s: Spec, parse: ParseIP, run: seq<Step>, n: nat)
    requires RunOk(s, parse, run) && n < |run| && Fresh(run[0].before)
    ensures run[n].before.machine.name == run[0].before.machine.name
    ensures ClusterID(run[n].before.machine) == ClusterID(run[0].before.machine)
    ensures OnlyCreated(run[n].before.status.conditions) && OnlyCreated(run[n].after.status.conditions)
  {
    hide RunCalls, LookupCalls, WithCondition, ClusterID;
    if n > 0 {
      RunInvariants(s, parse, run, n - 1);
      StepEffect(s, parse, run[n - 1]);
      SameMainSameCluster(run[n].before.machine, run[n - 1].before.machine);
      SameMainSameCluster(run[n].before.machine, run[n - 1].after.machine);
    }
    StepEffect(s, parse, run[n]);
    if run[n].after.status.conditions != run[n].before.status.conditions {
      var at :| run[n].after.status.conditions == WithCondition(run[n].before.status.conditions, ConditionSuccess(), at);
      SuccessKeepsOnlyCreated(run[n].before.status.conditions, at);
    }
  }

  lemma SameMainSameCluster(a: Machine, b: Machine)
    ensures SameMain(a, b) ==> ClusterID(a) == ClusterID(b) && HasProviderID(a) == HasProviderID(b)
  {
  }

  lemma {:induction false} ProviderIDStays(s: Spec, parse: ParseIP, run: seq<Step>, m: nat, n: nat)
    requires RunOk(s, parse, run) && m <= n < |run|
    ensures HasProviderID(run[m].before.machine) ==>
              HasProviderID(run[n].before.machine) && HasProviderID(run[n].after.machine)
  {
    hide RunCalls, LookupCalls, WithCondition, ClusterID;
    StepEffect(s, parse, run[n]);
    if m < n {
      ProviderIDStays(s, parse, run, m, n - 1);
      SameMainSameCluster(run[n].before.machine, run[n - 1].before.machine);
      SameMainSameCluster(run[n].before.machine, run[n - 1].after.machine);
    }
  }

  /**
   Identity holds at every success: after a create or update that reports success, the object names,
   in provider ID and status alike, the instance the operation created or picked.
   */
  lemma SuccessIsCoherent(s: Spec, parse: ParseIP, run: seq<Step>, n: nat)
    requires RunOk(s, parse, run) && n < |run|
    ensures run[n].op.Create? && run[n].op.r.Success? ==>
              run[n].op.made.Success? && CoherentWith(run[n].after, run[n].op.made.value)
    ensures run[n].op.Update? && run[n].op.r.Success? ==>
              var picked := UpdateMachineResult(run[n].before.machine, LookupOutcome(run[n].before, run[n].op.look), run[n].op.at);
              picked.Success? && CoherentWith(run[n].after, picked.value)
  {
    hide RunCalls, LookupCalls, LookupOutcome, CoherentWith, WithStatus, NeedsRetag;
    match run[n].op
    case Create(config, calls, made, at, r) =>
      if r.Success? {
        CreateIsCoherent(s, parse, run[n].before, config, calls, made, at, run[n].after, r);
      }
    case Update(look, tag, at, r) =>
      if r.Success? {
        var i := UpdateMachineResult(run[n].before.machine, LookupOutcome(run[n].before, look), at).value;
        UpdateIsCoherentIff(s, parse, run[n].before, look, tag, at, run[n].after, r, i);
      }
    case _ =>
  }

  /** Delete safety in every run: each call that removes instances is preceded by a poll that makes it safe. */
  lemma RunsDeleteSafely(s: Spec, parse: ParseIP, run: seq<Step>, k: nat)
    requires RunOk(s, parse, run) && k < |Log(run)|
    requires Log(run)[k].request.DeleteInstances?
    ensures k > 0
    ensures Log(run)[k - 1].request == DescribeByIds(s.region, Log(run)[k].request.ids)
    ensures SafeToDelete(Log(run)[k].request.ids, Log(run)[k - 1].response)
  {
    hide RunCalls, LookupCalls, LookupOutcome, DeleteCalls, UpdateCalls, CreateCalls, ExistsCalls, SafeToDelete,
         CallsOf, StepOk, Log;
    var n := StepAt(run, k);
    CallsInLog(run, n);
    var p, calls := Position(run, n), CallsOf(run[n].op);
    assert calls[k - p] == Log(run)[k];
    DeleteCallIsDeletes(s, parse, run[n], k - p);
    assert calls[k - p - 1] == Log(run)[k - 1];
  }

  /**
   Deletion follows at once, in every run: when a poll of a Delete (a call after its describe and its stop)
   makes the deletion safe, the next call of the run deletes the polled instances.
   */
  lemma RunsDeletePromptly(s: Spec, parse: ParseIP, run: seq<Step>, n: nat, k: nat)
    requires RunOk(s, parse, run) && n < |run| && run[n].op.Delete?
    requires Position(run, n) + |run[n].op.look| + 2 <= k < Position(run, n + 1) <= |Log(run)|
    requires Log(run)[k].request.DescribeByIds? && SafeToDelete(Log(run)[k].request.ids, Log(run)[k].response)
    ensures k + 1 < Position(run, n + 1)
    ensures Log(run)[k + 1].request == DeleteInstances(s.region, Log(run)[k].request.ids)
  {
    hide RunCalls, LookupCalls, LookupOutcome, DeleteCalls, UpdateCalls, CreateCalls, ExistsCalls, SafeToDelete,
         CallsOf, StepOk, Log;
    CallsInLog(run, n);
    var p, calls := Position(run, n), CallsOf(run[n].op);
    assert calls[k - p] == Log(run)[k];
    SafePollInStep(s, parse, run[n], k - p);
    assert calls[k - p + 1] == Log(run)[k + 1];
  }

  lemma SafePollInStep(s: Spec, parse: ParseIP, step: Step, j: nat)
    requires StepOk(s, parse, step) && step.op.Delete? && |step.op.look| + 2 <= j < |CallsOf(step.op)|
    requires CallsOf(step.op)[j].request.DescribeByIds?
    requires SafeToDelete(CallsOf(step.op)[j].request.ids, CallsOf(step.op)[j].response)
    ensures j + 1 < |CallsOf(step.op)|
    ensures CallsOf(step.op)[j + 1].request == DeleteInstances(s.region, CallsOf(step.op)[j].request.ids)
  {
    hide SafeToDelete, DeleteCalls;
    var look, rest := step.op.look, step.op.rest;
    assert CallsOf(step.op)[j] == rest[j - |look|];
    SafePollIsFollowed(s, step.before, look, rest, step.op.at, step.after, step.op.r, j - |look|);
    assert CallsOf(step.op)[j + 1] == rest[j + 1 - |look|];
  }

  /** The operation that made call k. */
  lemma {:induction false} StepAt(run: seq<Step>, k: nat) returns (n: nat)
    requires k < |Log(run)|
    ensures n < |run| && Position(run, n) <= k < Position(run, n + 1)
  {
    var m := |run| - 1;
    if k < |Log(run[..m])| {
      n := StepAt(run[..m], k);
      assert run[..m][..n] == run[..n] && run[..m][..n + 1] == run[..n + 1];
    } else {
      n := m;
      assert run[..m + 1] == run;
    }
  }

  lemma DeleteCallIsDeletes(s: Spec, parse: ParseIP, step: Step, j: nat)
    requires StepOk(s, parse, step) && j < |CallsOf(step.op)| && CallsOf(step.op)[j].request.DeleteInstances?
    ensures j > 0
    ensures CallsOf(step.op)[j - 1].request == DescribeByIds(s.region, CallsOf(step.op)[j].request.ids)
    ensures SafeToDelete(CallsOf(step.op)[j].request.ids, CallsOf(step.op)[j - 1].response)
  {
    hide RunCalls, LookupCalls, LookupOutcome, SafeToDelete, DeleteCalls, WithStatus, NeedsRetag;
    var d := CallsOf(step.op);
    match step.op
    case Exists(look, _, _) => LookupIsReadOnly(s.region, step.before, look);
    case Create(config, run, made, at, r) =>
      if ValidMachine(step.before.machine) && s.userData.Success? {
        CreateIsGated(s, step.before.machine, config, run, at, made);
      }
    case Update(look, tag, at, r) =>
      if ValidMachine(step.before.machine) {
        LookupIsReadOnly(s.region, step.before, look);
      }
    case Delete(look, rest, at, r) =>
      DeleteIsSafe(s, step.before, look, rest, at, step.after, r);
      var i := j - |look|;
      assert d[j] == rest[i] && d[j - 1] == rest[i - 1];
  }
}
