/** What holds of one operation, whatever the cloud answers: agreement of Exists and Update, safety of Delete, identity. */
module Operations {
  import opened Wrappers
  import opened Tags
  import opened Ecs
  import opened Lookup
  import opened Newest
  import opened Polling
  import opened Conditions
  import opened Machines
  import opened Creation
  import opened Protocol

  // --- Presence ---

  /** The answer of the tag lookup that a lookup ended with. */
  function LastAnswer(look: seq<Event>): Response {
    if look == [] then Failed("no call") else look[|look| - 1].response
  }

  /**
   Presence is decided right on every answer, in spite of the aliased list: Exists is true exactly when
   the answer for the recorded ID is one live instance, or some record of the tag answer is a live one.
   */
  lemma PresenceIsRight(s: Spec, o: Object, look: seq<Event>, at: int, r: Result<bool, Error>)
    requires ExistsCalls(s, o, look, at, r)
    ensures r == Success(true) <==>
              (Recorded(o.status) && OneLive(look[0].response))
              || (look != [] && LastAnswer(look).Instances? && look[|look| - 1].request.DescribeByTags?
                  && exists i <- LastAnswer(look).records :: Live(i))
    ensures r == Success(false) ==> NoTaggedInstance(s, o, look)
  {
    if look != [] && LastAnswer(look).Instances? {
      AliasedEmptiness(LastAnswer(look).records, Supported);
      forall i | i in LastAnswer(look).records
        ensures Supported(i) <==> Live(i)
      {
        SupportedIsLive(i);
      }
    }
    if Recorded(o.status) {
      ByIdFindsOneLive(look[0].response);
    }
    if Recorded(o.status) && ByIdResult(look[0].response).Failure? {
      assert look[1..] != [] ==> look[1..][0] == look[|look| - 1];
    }
  }

  /** The answer is one record, of a live instance. */
  predicate OneLive(response: Response) {
    response.Instances? && |response.records| == 1 && Live(response.records[0])
  }

  lemma ByIdFindsOneLive(response: Response)
    ensures ByIdResult(response).Success? <==> OneLive(response)
    ensures OneLive(response) ==> ByIdResult(response) == Success(response.records[0])
  {
    if response.Instances? && |response.records| == 1 {
      SupportedIsLive(response.records[0]);
    }
  }

  /** The lookup ended with a tag answer that shows no live instance. */
  predicate NoTaggedInstance(s: Spec, o: Object, look: seq<Event>) {
    && look != [] && ClusterID(o.machine).Some?
    && look[|look| - 1].request == DescribeByTags(s.region, LookupTags(ClusterID(o.machine).value, o.machine.name))
    && LastAnswer(look).Instances?
    && forall i <- LastAnswer(look).records :: !Live(i)
  }

  /**
   Exists and Update decide alike. On the same answers and the same clock, for a validated machine:
   the machine exists exactly when Update picks an instance; both ask for the short requeue together;
   Exists says no exactly when Update clears the recorded instance and asks for the long requeue; and
   every other failure is shared and changes nothing.
   */
  lemma ExistsAndUpdateAgree(
    s: Spec, parse: ParseIP, o: Object, look: seq<Event>, at: int, present: Result<bool, Error>,
    tag: seq<Event>, after: Object, update: Result<(), Error>
  )
    requires ValidMachine(o.machine)
    requires ExistsCalls(s, o, look, at, present) && UpdateCalls(s, parse, o, look, tag, at, after, update)
    ensures var picked := UpdateMachineResult(o.machine, LookupOutcome(o, look), at);
            && (present == Success(true) <==> picked.Success?)
            && (present == Failure(RequeueAfter(20)) <==> picked == Failure(RequeueAfter(20)))
            && (present == Success(false) <==> picked == Failure(RequeueAfter(180)))
            && (present == Success(false) ==>
                after == o.(status := o.status.(instanceID := None, instanceState := None)))
            && (present.Failure? ==> picked == Failure(present.error) && after == o)
            && (picked.Failure? ==> update == Failure(picked.error) && tag == [])
  {
    LookupNeverRequeues(s, o, look);
  }

  /** The requeue errors come from the reconciler alone, never from a lookup. */
  lemma LookupNeverRequeues(s: Spec, o: Object, look: seq<Event>)
    requires LookupCalls(o, s.region, look)
    ensures LookupOutcome(o, look).Failure? ==> !LookupOutcome(o, look).error.RequeueAfter?
  {
  }

  // --- Delete ---

  /** The answer showed every awaited, distinct ID stopped, or no instance at all. */
  ghost predicate SafeToDelete(ids: seq<string>, response: Response) {
    NothingSeen(response) || (Distinct(ids) && AllSeen(ids, "Stopped", response))
  }

  lemma {:induction false} RunningIdsAre(records: seq<Instance>)
    ensures forall id :: id in RunningIds(records) <==> exists r <- records :: r.id == id && r.status == RUNNING
  {
    if records != [] {
      var n := |records| - 1;
      RunningIdsAre(records[..n]);
      assert records == records[..n] + [records[n]];
    }
  }

  /** A stop leaves the reported state in the annotation when it concerns one instance, and nothing else. */
  lemma AnnotatedIs(o: Object, states: seq<StopState>, key: string)
    ensures var after := Annotated(o, states);
            var reported := |states| == 1 && states[0].code == "200" && states[0].currentStatus != "";
            && Read(after.machine.annotations, key) ==
               (if reported && key == "machine.openshift.io/instance-state" then Some(states[0].currentStatus)
                else Read(o.machine.annotations, key))
            && after == o.(machine := o.machine.(annotations := after.machine.annotations))
  {
  }

  /** One delete call: it comes last, right after a poll that makes it safe, and names exactly the awaited IDs. */
  ghost predicate DeleteFollowsPoll(region: string, ids: seq<string>, d: seq<Event>, i: int) {
    && 1 <= i == |d| - 1
    && d[i].request == DeleteInstances(region, ids)
    && d[i - 1].request == DescribeByIds(region, ids)
    && SafeToDelete(ids, d[i - 1].response)
  }

  /** One stop call: it names exactly the IDs that the describe before it showed running. */
  ghost predicate StopFollowsDescribe(region: string, ids: seq<string>, d: seq<Event>, i: int) {
    && 1 <= i < |d| && d[i].request.StopInstances? && d[i].request.region == region
    && d[i - 1].request == DescribeByIds(region, ids) && d[i - 1].response.Instances?
    && forall id :: id in d[i].request.ids <==>
                    exists r <- d[i - 1].response.records :: r.id == id && r.status == "Running"
  }

  /**
   Delete is safe whatever the cloud answers: every DeleteInstances names exactly the listed instances
   and follows a poll of those that saw all of them stopped or saw none; StopInstances names exactly
   the instances its own describe saw running; nothing else changes the cloud. Success means that
   nothing was found or that the deletion was accepted.
   */
  lemma DeleteIsSafe(
    s: Spec, o: Object, look: seq<Event>, rest: seq<Event>, at: int, after: Object, r: Result<(), Error>
  )
    requires DeleteCalls(s, o, look, rest, at, after, r)
    ensures forall i :: 0 <= i < |look| ==> ReadOnly(look[i].request)
    ensures forall i :: 0 <= i < |rest| ==>
              ReadOnly(rest[i].request)
              || (LookupOutcome(o, look).Success?
                  && var ids := IdsOf(LookupOutcome(o, look).value);
                     DeleteFollowsPoll(s.region, ids, rest, i) || (i == 1 && StopFollowsDescribe(s.region, ids, rest, i)))
    ensures r.Success? <==>
              LookupOutcome(o, look) == Success([])
              || (rest != [] && rest[|rest| - 1].request.DeleteInstances? && !rest[|rest| - 1].response.Failed?)
    ensures after.status == o.status && after.machine.providerID == o.machine.providerID
  {
    hide DeleteFollowsPoll, StopFollowsDescribe, StopWaitDelete, LookupOutcome, LookupCalls;
    LookupIsReadOnly(s.region, o, look);
    if LookupOutcome(o, look).Success? && LookupOutcome(o, look).value != [] {
      StopWaitDeleteIsSafe(s.region, IdsOf(LookupOutcome(o, look).value), o, rest, at, after, r);
    }
  }

  lemma LookupIsReadOnly(region: string, o: Object, look: seq<Event>)
    requires LookupCalls(o, region, look)
    ensures forall i :: 0 <= i < |look| ==> look[i].request.DescribeByIds? || look[i].request.DescribeByTags?
  {
    assert forall i :: 0 < i < |look| ==> look[i] == look[1..][i - 1];
  }

  lemma StopWaitDeleteIsSafe(
    region: string, ids: seq<string>, o: Object, d: seq<Event>, at: int, after: Object, r: Result<(), Error>
  )
    requires StopWaitDelete(region, ids, o, d, at, after, r) && ids != []
    ensures forall i :: 0 <= i < |d| ==>
              ReadOnly(d[i].request) || DeleteFollowsPoll(region, ids, d, i)
              || (i == 1 && StopFollowsDescribe(region, ids, d, i))
    ensures r.Success? <==> d[|d| - 1].request.DeleteInstances? && !d[|d| - 1].response.Failed?
    ensures d != [] && after.status == o.status && after.machine.providerID == o.machine.providerID
  {
    if |d| > 1 {
      RunningIdsAre(d[0].response.records);
      assert StopFollowsDescribe(region, ids, d, 1);
    }
    if |d| > 2 {
      var tail := d[2..];
      assert forall i :: 2 <= i < |d| ==> d[i] == tail[i - 2];
      var n := |tail| - 1;
      if tail[n].request.DeleteInstances? {
        var polls := tail[..n];
        WaitMeaning(polls, region, ids, STOPPED);
        assert forall i :: 0 <= i < n ==> polls[i] == tail[i];
      }
    }
  }

  /** Delete ends after at most two lookups, a describe, a stop, 181 polls (900 seconds in steps of 5) and a deletion. */
  lemma DeleteIsBounded(
    s: Spec, o: Object, look: seq<Event>, rest: seq<Event>, at: int, after: Object, r: Result<(), Error>
  )
    requires DeleteCalls(s, o, look, rest, at, after, r)
    ensures |look| <= 2 && |rest| <= MAX_POLLS + 3
  {
    hide WaitCalls, WaitOutcome, ByIdResult, Aliased;
  }

  /**
   When the tag lookup lists more than one entry, the entries repeat one ID, so the wait can never see
   them all: a deletion then follows only an empty poll. Listing exactly one entry is the case in which
   a deletion may follow a poll that saw the instance stopped.
   */
  lemma SeveralInstancesAreNeverSeenStopped(
    s: Spec, o: Object, look: seq<Event>, rest: seq<Event>, at: int, after: Object, r: Result<(), Error>
  )
    requires DeleteCalls(s, o, look, rest, at, after, r)
    requires LookupOutcome(o, look).Success? && rest != [] && rest[|rest| - 1].request.DeleteInstances?
    ensures !NothingSeen(rest[|rest| - 2].response) ==> |LookupOutcome(o, look).value| == 1
  {
    hide LookupCalls, LookupOutcome, StopWaitDelete;
    DeleteIsSafe(s, o, look, rest, at, after, r);
    ListIsConstant(o, look);
    var list := LookupOutcome(o, look).value;
    if |list| > 1 {
      assert list[0] == list[1];
      assert IdsOf(list)[0] == IdsOf(list)[1];
    }
  }

  lemma ListIsConstant(o: Object, look: seq<Event>)
    ensures LookupOutcome(o, look).Success? ==>
              forall i :: 0 <= i < |LookupOutcome(o, look).value| ==>
                LookupOutcome(o, look).value[i] == LookupOutcome(o, look).value[0]
  {
  }

  // --- Identity ---

  /** Provider ID and provider status speak of this instance. */
  predicate CoherentWith(o: Object, i: Instance) {
    && o.machine.providerID == Some("alicloud://" + i.regionID + "." + i.id)
    && o.status.instanceID == Some(i.id)
    && o.status.instanceState == Some(i.status)
  }

  /** After a successful create, the object speaks of the new, running instance. */
  lemma CreateIsCoherent(
    s: Spec, parse: ParseIP, o: Object, config: seq<Event>, run: seq<Event>, made: Result<Instance, Error>, at: int,
    after: Object, r: Result<(), Error>
  )
    requires CreateCalls(s, parse, o, config, run, made, at, after, r) && r.Success?
    ensures made.Success? && CoherentWith(after, made.value)
    ensures made.value.status == RUNNING && run[0].response == Created([made.value.id])
  {
    CreateIsGated(s, o.machine, config, run, at, made);
  }

  /**
   After an update that picked an instance with an ID, the object speaks of that instance exactly when
   the tag correction did not fail, or when it spoke of it already: the provider ID is written before
   the correction and the status after it.
   */
  lemma UpdateIsCoherentIff(
    s: Spec, parse: ParseIP, o: Object, look: seq<Event>, tag: seq<Event>, at: int, after: Object, r: Result<(), Error>,
    i: Instance
  )
    requires ValidMachine(o.machine) && UpdateCalls(s, parse, o, look, tag, at, after, r)
    requires UpdateMachineResult(o.machine, LookupOutcome(o, look), at) == Success(i) && i.id != ""
    ensures CoherentWith(after, i) <==>
              (tag == [] || !tag[0].response.Failed?)
              || (o.status.instanceID == Some(i.id) && o.status.instanceState == Some(i.status))
    ensures r.Success? ==> CoherentWith(after, i)
  {
  }

  /** Such an update really happens: the provider ID names an instance that the status does not. */
  lemma IncoherentUpdate(s: Spec, parse: ParseIP)
    returns (o: Object, look: seq<Event>, tag: seq<Event>, after: Object, r: Result<(), Error>)
    ensures UpdateCalls(s, parse, o, look, tag, 0, after, r) && r.Failure?
    ensures HasProviderID(after.machine) && after.status.instanceID.None?
  {
    var i := Instance("i-1", s.region, "z", "", RUNNING, "", LookupTags("c", "m"), [], []);
    var labels: StringMap := map[CLUSTER_ID_LABEL := "c"];
    o := Object(Machine("m", Some(labels), None, None, None, None, []), ProviderStatus(None, None, []));
    look := [Event(0, DescribeByTags(s.region, LookupTags("c", "m")), Instances([i]))];
    tag := [Event(0, TagResources(s.region, "i-1", ManagedTags("c", "m")), Failed("throttled"))];
    after := Written(o, i);
    r := Failure(CloudFailed("failed to correct existing instance tags"));
    assert i in [i] && Supported(i);
    AliasedEmptiness([i], Supported);
    assert Tag(OWNED_KEY, OWNED_VALUE) !in i.tags by {
      assert i.tags[0].value == CLUSTER_VALUE && i.tags[1].value == "m";
      assert |OWNED_VALUE| == 28 && |CLUSTER_VALUE| == 5;
    }
    assert ManagedTags("c", "m")[2] == Tag(OWNED_KEY, OWNED_VALUE);
  }
}
