/** The reconciler: the methods that update the machine object and its provider status around the cloud calls. */
module Reconciler {
  import opened Wrappers
  import opened Tags
  import opened Ecs
  import opened Lookup
  import opened Newest
  import opened Polling
  import opened Conditions
  import opened Machines
  import opened Creation
  import opened Protocol
  import opened Operations

  /** A wait that outlasted its timeout also did so counted from an earlier moment. */
  lemma WaitFromEarlier(
    region: string, ids: seq<string>, earlier: int, from: int, d: seq<Event>, at: int, r: Result<(), Error>
  )
    requires WaitThenDelete(region, ids, from, d, at, r) && earlier <= from
    ensures WaitThenDelete(region, ids, earlier, d, at, r)
  {
  }

  class Reconciler {
    const client: Client
    const spec: Spec
    const parseTime: ParseTime
    const parseIP: ParseIP
    var machine: Machine
    var status: ProviderStatus

    constructor (client: Client, spec: Spec, parseTime: ParseTime, parseIP: ParseIP, o: Object)
      ensures this.client == client && this.spec == spec && this.parseTime == parseTime && this.parseIP == parseIP
      ensures State() == o
    {
      this.client, this.spec, this.parseTime, this.parseIP := client, spec, parseTime, parseIP;
      machine, status := o.machine, o.status;
    }

    function State(): Object
      reads this
    {
      Object(machine, status)
    }

    method GetMachineInstances() returns (found: Result<seq<Instance>, Error>, ghost look: seq<Event>)
      requires client.Valid()
      modifies client
      ensures Extends(client, look)
      ensures LookupCalls(State(), spec.region, look) && found == LookupOutcome(State(), look)
    {
      look := [];
      if status.instanceID.Some? && status.instanceID.value != "" {
        var byID;
        byID, look := GetInstanceByID(client, spec.region, status.instanceID.value);
        if byID.Success? {
          return Success([byID.value]), look;
        }
      }
      ghost var first, start, middle := look, old(client.now), client.now;
      var byTags, asked := GetInstances(client, spec.region, ClusterID(machine), machine.name);
      found := byTags;
      look := JoinCalls(first, asked, start, middle, client.now);
      if first != [] {
        assert look[0] == first[0] && look[1..] == asked;
      } else {
        assert look == asked;
      }
    }

    /** setProviderID: the write is skipped when the value is already there. */
    method SetProviderID(instance: Instance)
      modifies this`machine
      ensures machine == WithProviderID(old(machine), instance)
    {
      var providerID := ProviderIDOf(instance.regionID, instance.id);
      if machine.providerID.Some? && machine.providerID.value == providerID {
        return;
      }
      machine := machine.(providerID := Some(providerID));
    }

    method SetMachineCloudProviderSpecifics(instance: Instance)
      modifies this`machine
      ensures machine == WithSpecifics(old(machine), instance)
    {
      if machine.labels.None? {
        machine := machine.(labels := Some(map[]));
      }
      if machine.specLabels.None? {
        machine := machine.(specLabels := Some(map[]));
      }
      if machine.annotations.None? {
        machine := machine.(annotations := Some(map[]));
      }
      machine := machine.(labels := Some(machine.labels.value[REGION_LABEL := instance.regionID]));
      machine := machine.(labels := Some(machine.labels.value[ZONE_LABEL := instance.zoneID]));
      if instance.instanceType != "" {
        machine := machine.(labels := Some(machine.labels.value[INSTANCE_TYPE_LABEL := instance.instanceType]));
      }
      if instance.status != "" {
        machine := machine.(
          annotations := Some(machine.annotations.value[INSTANCE_STATE_ANNOTATION := instance.status]));
      }
    }

    method SetProviderStatus(instance: Option<Instance>, condition: Condition)
      modifies this
      ensures State() == WithStatus(parseIP, old(State()), instance, condition, client.now)
    {
      if instance.None? {
        status := status.(instanceID := None, instanceState := None);
      } else {
        status := status.(instanceID := Some(instance.value.id), instanceState := Some(instance.value.status));
      }
      var addresses := ExtractNodeAddresses(parseIP, instance);
      if addresses.None? {
        return;
      }
      machine := machine.(addresses := addresses.value + [NodeAddress(InternalDNS, machine.name)]);
      var conditions := SetMachineProviderCondition(condition, status.conditions, client.now);
      status := status.(conditions := conditions);
    }

    method Exists() returns (r: Result<bool, Error>, ghost look: seq<Event>, ghost at: int)
      requires client.Valid()
      modifies client
      ensures Extends(client, look) && at == client.now
      ensures ExistsCalls(spec, State(), look, at, r)
    {
      var found;
      found, look := GetMachineInstances();
      at := client.now;
      if found.Failure? {
        return Failure(found.error), look, at;
      }
      if |found.value| == 0 {
        if HasProviderID(machine) &&
           (machine.lastUpdated.None? || machine.lastUpdated.value + REQUEUE_AFTER > client.now) {
          return Failure(RequeueAfter(REQUEUE_AFTER)), look, at;
        }
        return Success(false), look, at;
      }
      r := Success(true);
    }

    method CreateMachine()
      returns (made: Result<Instance, Error>, ghost config: seq<Event>, ghost run: seq<Event>, ghost failed: bool)
      requires client.Valid()
      modifies this, client
      ensures Extends(client, config + run)
      ensures failed <==> !ValidMachine(old(machine)) || spec.userData.Failure?
      ensures failed ==> config == [] && run == [] && State() == old(State()) && made.Failure?
      ensures !failed ==> RunCalls(spec, old(machine), config, run, client.now, made)
      ensures !failed && made.Success? ==> State() == old(State())
      ensures !failed && made.Failure? ==>
                State() == WithStatus(parseIP, old(State()), None, ConditionFailed(Text(made.error)), client.now)
    {
      hide RunCalls;
      config, run, failed := [], [], true;
      if !ValidMachine(machine) {
        return Failure(InvalidConfiguration("failed validating machine provider spec")), config, run, failed;
      }
      if spec.userData.Failure? {
        return Failure(InvalidConfiguration("failed to get user data")), config, run, failed;
      }
      failed := false;
      made, config, run := RunInstance(client, spec, machine);
      if made.Failure? {
        SetProviderStatus(None, ConditionFailed(Text(made.error)));
      }
    }

    method Create()
      returns (
        r: Result<(), Error>, ghost config: seq<Event>, ghost run: seq<Event>, ghost made: Result<Instance, Error>,
        ghost at: int)
      requires client.Valid()
      modifies this, client
      ensures Extends(client, config + run) && at == client.now
      ensures CreateCalls(spec, parseIP, old(State()), config, run, made, at, State(), r)
    {
      hide RunCalls, Within;
      var created;
      ghost var failed;
      created, config, run, failed := CreateMachine();
      made, at := created, client.now;
      if created.Failure? {
        return Failure(CreateFailed("failed to create instance")), config, run, made, at;
      }
      SetProviderID(created.value);
      SetMachineCloudProviderSpecifics(created.value);
      SetProviderStatus(Some(created.value), ConditionSuccess());
      r := Success(());
    }

    method UpdateMachine()
      returns (picked: Result<Instance, Error>, ghost look: seq<Event>, ghost at: int)
      requires client.Valid()
      modifies this, client
      ensures Extends(client, look) && at == client.now
      ensures !ValidMachine(old(machine)) ==>
                look == [] && State() == old(State())
                && picked == Failure(InvalidConfiguration("failed validating machine provider spec"))
      ensures ValidMachine(old(machine)) ==>
                && LookupCalls(old(State()), spec.region, look)
                && picked == UpdateMachineResult(old(machine), LookupOutcome(old(State()), look), at)
                && State() == AfterUpdateMachine(parseIP, old(State()), LookupOutcome(old(State()), look), at)
    {
      look, at := [], client.now;
      if !ValidMachine(machine) {
        return Failure(InvalidConfiguration("failed validating machine provider spec")), look, at;
      }
      var found;
      found, look := GetMachineInstances();
      at := client.now;
      if found.Failure? {
        return Failure(found.error), look, at;
      }
      if |found.value| == 0 {
        if HasProviderID(machine) &&
           (machine.lastUpdated.None? || machine.lastUpdated.value + REQUEUE_AFTER > client.now) {
          return Failure(RequeueAfter(REQUEUE_AFTER)), look, at;
        }
        SetProviderStatus(None, ConditionSuccess());
        return Failure(RequeueAfter(REQUEUE_AFTER_FATAL)), look, at;
      }
      var newest := SelectNewest(parseTime, found.value);
      ListIsConstant(State(), look);
      picked := Success(newest);
    }

    /** correctExistingTags. */
    method CorrectExistingTags(instance: Instance) returns (r: Result<(), Error>, ghost tag: seq<Event>)
      requires client.Valid()
      modifies client
      ensures Extends(client, tag)
      ensures var cluster := ClusterID(machine);
              if instance.id == "" || cluster.None? then tag == [] && r.Failure?
              else if NeedsRetag(instance.tags, cluster.value, machine.name) then
                && |tag| == 1
                && tag[0].request == TagResources(spec.region, instance.id, ManagedTags(cluster.value, machine.name))
                && Answers(tag[0].request, tag[0].response)
                && (r.Failure? <==> tag[0].response.Failed?)
              else tag == [] && r.Success?
    {
      tag := [];
      if instance.id == "" {
        return Failure(InvalidConfiguration("unexpected nil found in instance")), tag;
      }
      var cluster := ClusterID(machine);
      if cluster.None? {
        return Failure(NoClusterID), tag;
      }
      var needed := CheckTags(instance.tags, cluster.value, machine.name);
      r := Success(());
      if needed {
        var response;
        response, tag :=
          Ask(client, TagResources(spec.region, instance.id, ManagedTags(cluster.value, machine.name)));
        if response.Failed? {
          r := Failure(CloudFailed(response.what));
        }
      }
    }

    method Update()
      returns (r: Result<(), Error>, ghost look: seq<Event>, ghost tag: seq<Event>, ghost at: int)
      requires client.Valid()
      modifies this, client
      ensures Extends(client, look + tag)
      ensures UpdateCalls(spec, parseIP, old(State()), look, tag, at, State(), r)
    {
      hide LookupCalls, LookupOutcome, ManagedTags, NeedsRetag, WithStatus, Within, Answers, WithSpecifics,
           WithProviderID, ClusterID, ValidMachine, Chronological, Answered;
      tag := [];
      var picked;
      picked, look, at := UpdateMachine();
      assert look + tag == look;
      if picked.Failure? {
        return Failure(picked.error), look, tag, at;
      }
      ghost var start, middle := old(client.now), client.now;
      var instance := picked.value;
      SetProviderID(instance);
      SetMachineCloudProviderSpecifics(instance);
      WritesKeepCluster(old(machine), instance);
      var corrected;
      corrected, tag := CorrectExistingTags(instance);
      ghost var all := JoinCalls(look, tag, start, middle, client.now);
      if corrected.Failure? {
        return Failure(CloudFailed("failed to correct existing instance tags")), look, tag, at;
      }
      at := client.now;
      SetProviderStatus(Some(instance), ConditionSuccess());
      if instance.status == PENDING {
        return Failure(RequeueAfter(REQUEUE_AFTER)), look, tag, at;
      }
      r := Success(());
    }

    /** stopInstances: only the instances that are running at this describe are stopped. */
    method StopInstances(ids: seq<string>) returns (r: Result<seq<StopState>, Error>, ghost d: seq<Event>)
      requires client.Valid() && ids != []
      modifies client
      ensures Extends(client, d)
      ensures |d| >= 1 && d[0].request == DescribeByIds(spec.region, ids) && Answers(d[0].request, d[0].response)
      ensures if d[0].response.Failed? || d[0].response.records == [] then |d| == 1 && r.Failure?
              else
                && |d| == 2 && d[1].request == Request.StopInstances(spec.region, RunningIds(d[0].response.records))
                && Answers(d[1].request, d[1].response)
                && r == if d[1].response.Failed? then Failure(CloudFailed("error stopping instances"))
                        else Success(d[1].response.states)
    {
      var described;
      described, d := Ask(client, DescribeByIds(spec.region, ids));
      if described.Failed? {
        return Failure(CloudFailed(described.what)), d;
      }
      if |described.records| < 1 {
        return Failure(NotFound), d;
      }
      var needed: seq<string> := [];
      for i := 0 to |described.records|
        invariant needed == RunningIds(described.records[..i])
      {
        assert described.records[..i + 1][..i] == described.records[..i];
        if described.records[i].status == RUNNING {
          needed := needed + [described.records[i].id];
        }
      }
      assert described.records[..|described.records|] == described.records;
      ghost var first, start, middle := d, old(client.now), client.now;
      var stopped, asked := Ask(client, Request.StopInstances(spec.region, needed));
      d := JoinCalls(first, asked, start, middle, client.now);
      assert d[0] == first[0] && d[1] == asked[0];
      if stopped.Failed? {
        return Failure(CloudFailed("error stopping instances")), d;
      }
      r := Success(stopped.states);
    }

    /** The last stretch of DeleteMachine: wait until the instances have stopped, then delete them. */
    method AwaitStoppedAndDelete(ids: seq<string>) returns (r: Result<(), Error>, ghost d: seq<Event>)
      requires client.Valid()
      modifies client
      ensures Extends(client, d) && WaitThenDelete(spec.region, ids, old(client.now), d, client.now, r)
    {
      var waited;
      waited, d := WaitForInstancesStatus(client, spec.region, ids, STOPPED, DEFAULT_TIMEOUT);
      if waited.Failure? {
        return Failure(TimedOut), d;
      }
      ghost var polls, start, middle := d, old(client.now), client.now;
      var deleted, asked := Ask(client, DeleteInstances(spec.region, ids));
      d := JoinCalls(polls, asked, start, middle, client.now);
      assert d[|d| - 1] == asked[0] && d[..|d| - 1] == polls;
      if deleted.Failed? {
        return Failure(CloudFailed("failed to delete instances")), d;
      }
      r := Success(());
    }

    /** DeleteMachine from the stop on. Writing the annotation of a stopped instance needs a non-nil map. */
    method StopAndDelete(ids: seq<string>) returns (r: Result<(), Error>, ghost d: seq<Event>)
      requires client.Valid() && machine.annotations.Some? && ids != []
      modifies this, client
      ensures Extends(client, d)
      ensures StopWaitDelete(spec.region, ids, old(State()), d, client.now, State(), r)
    {
      hide WaitThenDelete, RunningIds, Chronological, Answered;
      ghost var start := client.now;
      var stopped;
      stopped, d := StopInstances(ids);
      if stopped.Failure? {
        return Failure(stopped.error), d;
      }
      if |stopped.value| == 1 {
        if stopped.value[0].code == "200" && stopped.value[0].currentStatus != "" {
          machine := machine.(
            annotations := Some(machine.annotations.value[INSTANCE_STATE_ANNOTATION := stopped.value[0].currentStatus]));
        }
      }
      ghost var first, middle := d, client.now;
      ghost var asked;
      r, asked := AwaitStoppedAndDelete(ids);
      d := JoinCalls(first, asked, start, middle, client.now);
      assert d[0] == first[0] && d[1] == first[1] && d[2..] == asked;
      WaitFromEarlier(spec.region, ids, d[1].at, middle, asked, client.now, r);
    }

    method Delete() returns (r: Result<(), Error>, ghost look: seq<Event>, ghost rest: seq<Event>, ghost at: int)
      requires client.Valid() && machine.annotations.Some?
      modifies this, client
      ensures Extends(client, look + rest) && at == client.now
      ensures DeleteCalls(spec, old(State()), look, rest, at, State(), r)
    {
      hide LookupCalls, LookupOutcome, StopWaitDelete, Within, Chronological, Answered;
      rest := [];
      var found;
      found, look := GetMachineInstances();
      assert look + rest == look;
      if found.Failure? {
        return Failure(found.error), look, rest, client.now;
      }
      if |found.value| < 1 {
        return Success(()), look, rest, client.now;
      }
      ghost var start, middle := old(client.now), client.now;
      r, rest := StopAndDelete(IdsOf(found.value));
      at := client.now;
      ghost var all := JoinCalls(look, rest, start, middle, client.now);
    }
  }
}
