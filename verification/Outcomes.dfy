/**
 What each operation does, said of its calls, their answers and the clock alone: which cases there are, which
 call has to follow in each of them, the result, and the object that is left.
 */
module Outcomes {
  import opened Wrappers
  import opened Tags
  import opened Ecs
  import opened Lookup
  import opened Newest
  import opened Polling
  import opened Conditions
  import opened Machines
  import opened Creation
  import opened Protocol
  import opened Operations

  // --- Finding the instances ---

  /** The first n calls are those that look for the recorded instance, and they do not find it. */
  predicate NotByID(s: Spec, o: Object, look: seq<Event>, n: nat) {
    if o.status.instanceID.Some? && o.status.instanceID.value != "" then
      && n == 1 <= |look|
      && look[0].request == DescribeByIds(s.region, [o.status.instanceID.value]) && !OneLive(look[0].response)
    else n == 0
  }

  /** The one call for the recorded ID was answered by one live record. */
  predicate FoundByID(s: Spec, o: Object, look: seq<Event>) {
    && o.status.instanceID.Some? && o.status.instanceID.value != "" && |look| == 1
    && look[0].request == DescribeByIds(s.region, [o.status.instanceID.value]) && OneLive(look[0].response)
  }

  /** The lookup ends with a call by the machine's two tags. */
  predicate AskedByTags(s: Spec, o: Object, look: seq<Event>) {
    && look != [] && NotByID(s, o, look, |look| - 1) && ClusterID(o.machine).Some?
    && look[|look| - 1].request ==
       DescribeByTags(s.region, [Tag("kubernetes.io/cluster/" + ClusterID(o.machine).value, "owned"),
                                 Tag("Name", o.machine.name)])
  }

  predicate LookupFails(s: Spec, o: Object, look: seq<Event>) {
    (NotByID(s, o, look, |look|) && ClusterID(o.machine).None?) ||
    (AskedByTags(s, o, look) && look[|look| - 1].response.Failed?)
  }

  /** The tag answer shows no live instance. */
  predicate Absent(s: Spec, o: Object, look: seq<Event>) {
    && AskedByTags(s, o, look) && look[|look| - 1].response.Instances?
    && forall r <- look[|look| - 1].response.records :: !Live(r)
  }

  /** The lookup leads to instance i: the recorded one, or the last record of a tag answer that shows a live one. */
  predicate LeadsTo(s: Spec, o: Object, look: seq<Event>, i: Instance) {
    || (FoundByID(s, o, look) && i == look[0].response.records[0])
    || (AskedByTags(s, o, look) && look[|look| - 1].response.Instances?
        && (exists r <- look[|look| - 1].response.records :: Live(r))
        && i == look[|look| - 1].response.records[|look[|look| - 1].response.records| - 1])
  }

  lemma {:induction false} KeptAlike(records: seq<Instance>, a: Instance -> bool, b: Instance -> bool)
    requires forall r <- records :: a(r) <==> b(r)
    ensures Kept(records, a) == Kept(records, b)
  {
    if records != [] {
      KeptAlike(records[..|records| - 1], a, b);
    }
  }

  /**
   A lookup ends in exactly one of three ways, told by its calls and answers. The list it yields is as long
   as there are live records (one, by ID), and every entry is the instance it leads to.
   */
  lemma LookupIs(s: Spec, o: Object, look: seq<Event>)
    requires LookupCalls(o, s.region, look)
    ensures var found := LookupOutcome(o, look);
            && (found.Failure? <==> LookupFails(s, o, look))
            && (found == Success([]) <==> Absent(s, o, look))
            && (found.Failure? ==> !found.error.RequeueAfter?)
            && (forall i :: LeadsTo(s, o, look, i) <==> found.Success? && found.value != [] && found.value[0] == i)
            && (found.Success? ==>
                && (forall k :: 0 <= k < |found.value| ==> found.value[k] == found.value[0])
                && |found.value| == if FoundByID(s, o, look) then 1
                                    else |Kept(look[|look| - 1].response.records, Live)|)
  {
    RetagIff([], if ClusterID(o.machine).Some? then ClusterID(o.machine).value else "", o.machine.name);
    hide ClusterID, LookupTags;
    if Recorded(o.status) {
      ByIdFindsOneLive(look[0].response);
    }
    if look != [] && look[|look| - 1].response.Instances? {
      var records := look[|look| - 1].response.records;
      forall r | r in records
        ensures Supported(r) <==> Live(r)
      {
        SupportedIsLive(r);
      }
      hide Supported, Live;
      KeptAlike(records, Supported, Live);
      AliasedEmptiness(records, Supported);
    }
  }

  // --- Exists ---

  /** The machine has a provider ID and was updated less than 20 seconds ago, or never. */
  predicate Recent(m: Machine, at: int) {
    && m.providerID.Some? && m.providerID.value != ""
    && (m.lastUpdated.None? || at < m.lastUpdated.value + 20)
  }

  /** The four answers of Exists, and when each is given. */
  lemma ExistsIs(s: Spec, o: Object, look: seq<Event>, at: int, r: Result<bool, Error>)
    requires ExistsCalls(s, o, look, at, r)
    ensures r == Success(true) <==> exists i :: LeadsTo(s, o, look, i)
    ensures r == Success(false) <==> Absent(s, o, look) && !Recent(o.machine, at)
    ensures r == Failure(RequeueAfter(20)) <==> Absent(s, o, look) && Recent(o.machine, at)
    ensures r.Failure? && r != Failure(RequeueAfter(20)) <==> LookupFails(s, o, look)
  {
    hide LookupCalls, LookupOutcome, LeadsTo, Absent, LookupFails;
    LookupIs(s, o, look);
    var found := LookupOutcome(o, look);
    if found.Success? && found.value != [] {
      assert LeadsTo(s, o, look, found.value[0]);
    }
  }

  // --- What is written into the object ---

  /** One key of a label or annotation map after a write. */
  predicate SpecificKeys(m: Machine, after: Machine, i: Instance, key: string) {
    && Read(after.labels, key) ==
       (if key == "machine.openshift.io/region" then Some(i.regionID)
        else if key == "machine.openshift.io/zone" then Some(i.zoneID)
        else if key == "machine.openshift.io/instance-type" && i.instanceType != "" then Some(i.instanceType)
        else Read(m.labels, key))
    && Read(after.annotations, key) ==
       (if key == "machine.openshift.io/instance-state" && i.status != "" then Some(i.status)
        else Read(m.annotations, key))
    && Read(after.specLabels, key) == Read(m.specLabels, key)
  }

  /** Provider ID, labels and annotation name the instance; everything else that the main patch stores is kept. */
  ghost predicate MainShows(o: Object, after: Object, i: Instance) {
    && after.machine.providerID == Some("alicloud://" + i.regionID + "." + i.id)
    && (forall key :: SpecificKeys(o.machine, after.machine, i, key))
    && after.machine.labels.Some? && after.machine.specLabels.Some? && after.machine.annotations.Some?
    && after.machine.name == o.machine.name && after.machine.lastUpdated == o.machine.lastUpdated
  }

  /** No address of the instance is malformed. */
  predicate AllParse(parse: ParseIP, i: Instance) {
    (forall nic <- i.nics :: !NicUnparsable(parse, nic)) && (forall a <- i.publicIps :: !Unparsable(parse, a))
  }

  /** The status names the instance and, if all its addresses parse, shows them and the successful creation. */
  predicate StatusShows(parse: ParseIP, o: Object, after: Object, i: Instance, at: int) {
    && after.status.instanceID == Some(i.id) && after.status.instanceState == Some(i.status)
    && if AllParse(parse, i) then
         && after.machine.addresses ==
            Published(parse, RawAddresses(i)) + [NodeAddress(InternalDNS, o.machine.name)]
         && after.status.conditions ==
            WithCondition(o.status.conditions,
                          Condition("MachineCreation", "True", "MachineCreationSucceeded", "Machine successfully created", 0),
                          at)
       else after.machine.addresses == o.machine.addresses && after.status.conditions == o.status.conditions
  }

  /** The object without its recorded instance, and otherwise as it was. */
  function Forgotten(o: Object): Object {
    o.(status := ProviderStatus(None, None, o.status.conditions))
  }

  lemma WrittenShows(o: Object, i: Instance)
    ensures MainShows(o, Written(o, i), i) && Written(o, i).status == o.status
    ensures Written(o, i).machine.addresses == o.machine.addresses
  {
    forall key
      ensures SpecificKeys(o.machine, Written(o, i).machine, i, key)
    {
      SpecificsAre(WithProviderID(o.machine, i), i, key);
    }
    SpecificsAre(WithProviderID(o.machine, i), i, "");
    hide WithSpecifics, SpecificKeys;
  }

  /** What a create and a completed update leave behind. */
  lemma StoredShows(parse: ParseIP, o: Object, i: Instance, at: int)
    ensures var after := WithStatus(parse, Written(o, i), Some(i), ConditionSuccess(), at);
            MainShows(o, after, i) && StatusShows(parse, o, after, i, at)
  {
    WrittenShows(o, i);
    StatusStoredIff(parse, Written(o, i), Some(i), ConditionSuccess(), at);
    ConstructorsFollow("");
    if AllParse(parse, i) {
      AddressesInOrder(parse, i);
    }
    hide WithStatus, NodeAddresses, Published, RawAddresses, WithCondition, NicUnparsable, Unparsable;
  }

  // --- Update ---

  /** Update when the machine is not valid, or no instance is there to update. */
  lemma UpdateWithoutInstance(
    s: Spec, parse: ParseIP, o: Object, look: seq<Event>, tag: seq<Event>, at: int, after: Object, r: Result<(), Error>
  )
    requires UpdateCalls(s, parse, o, look, tag, at, after, r)
    ensures !ValidMachine(o.machine) ==> look == [] && tag == [] && after == o && r.Failure? && !r.error.RequeueAfter?
    ensures ValidMachine(o.machine) ==>
              && (LookupFails(s, o, look) || Absent(s, o, look) || exists i :: LeadsTo(s, o, look, i))
              && (LookupFails(s, o, look) ==> tag == [] && after == o && r.Failure? && !r.error.RequeueAfter?)
              && (Absent(s, o, look) && Recent(o.machine, at) ==>
                  tag == [] && after == o && r == Failure(RequeueAfter(20)))
              && (Absent(s, o, look) && !Recent(o.machine, at) ==>
                  tag == [] && after == Forgotten(o) && r == Failure(RequeueAfter(180)))
  {
    hide LookupCalls, LookupOutcome, LeadsTo, Absent, LookupFails, UpdateInstance, ClusterID;
    if ValidMachine(o.machine) {
      LookupIs(s, o, look);
      var found := LookupOutcome(o, look);
      if found.Success? && found.value != [] {
        assert LeadsTo(s, o, look, found.value[0]);
      }
    }
  }

  /**
   Update of the instance that the lookup leads to. Its tags are corrected exactly when one of the three is
   missing (or the name is empty); then the main half of the object names the instance in any case, and if the
   correction did not fail, so does the status, and the result is the 20-second requeue for a pending instance
   and success for any other.
   */
  lemma UpdateOfInstance(
    s: Spec, parse: ParseIP, o: Object, look: seq<Event>, tag: seq<Event>, at: int, after: Object, r: Result<(), Error>,
    i: Instance
  )
    requires UpdateCalls(s, parse, o, look, tag, at, after, r) && ValidMachine(o.machine)
    requires LeadsTo(s, o, look, i)
    ensures ClusterID(o.machine).Some? && |tag| <= 1
    ensures var managed := [Tag("kubernetes.io/cluster/" + ClusterID(o.machine).value, "owned"), Tag("Name", o.machine.name),
                            Tag("kubernetes-sigs/cluster-api", "cluster-api-provider-alibaba")];
            var corrected := i.id != "" && (tag == [] || !tag[0].response.Failed?);
            && (tag != [] <==> i.id != "" && (o.machine.name == "" || exists t <- managed :: t !in i.tags))
            && (tag != [] ==> tag[0].request == TagResources(s.region, i.id, managed))
            && MainShows(o, after, i)
            && (corrected ==> StatusShows(parse, o, after, i, at)
                              && r == if i.status == "Pending" then Failure(RequeueAfter(20)) else Success(()))
            && (!corrected ==> after.status == o.status && after.machine.addresses == o.machine.addresses
                               && r.Failure? && !r.error.RequeueAfter?)
  {
    hide LookupCalls, LookupOutcome, LeadsTo, WithStatus, MainShows, StatusShows, Written, ClusterID, NeedsRetag,
         ManagedTags, LookupTags;
    LookupIs(s, o, look);
    ValidHasCluster(o.machine);
    RetagIff(i.tags, ClusterID(o.machine).value, o.machine.name);
    WrittenShows(o, i);
    StoredShows(parse, o, i, at);
  }

  lemma ValidHasCluster(m: Machine)
    ensures ValidMachine(m) ==> ClusterID(m).Some?
  {
  }

  // --- Create ---

  /** The resource group is the given one, or the first that was answered for the given name. */
  ghost predicate ResourceGroupIs(s: Spec, config: seq<Event>, group: string) {
    || (s.resourceGroup.kind == ByID && group != "" && s.resourceGroup.id == Some(group))
    || (s.resourceGroup.kind == ByName && s.resourceGroup.name.Some?
        && exists e <- config :: e.request == ListResourceGroups(s.region, s.resourceGroup.name.value)
                                 && e.response.Ids? && e.response.found != [] && e.response.found[0] == group)
  }

  /** The security groups that one reference stands for. */
  ghost predicate GroupsOfReference(s: Spec, config: seq<Event>, ref: ResourceRef, groups: seq<string>) {
    || (ref.kind == ByID && exists id: string :: id != "" && ref.id == Some(id) && groups == [id])
    || (ref.kind == ByTags && ref.tags.Some? && groups != []
        && exists e <- config :: e.request.DescribeSecurityGroups? && e.request.region == s.region
                                 && e.request.vpc == s.vpc && e.request.filter == Dedup(ref.tags.value)
                                 && ResourceGroupIs(s, config, e.request.resourceGroup)
                                 && e.response == Ids(groups))
  }

  function Concatenated(parts: seq<seq<string>>): seq<string> {
    if parts == [] then [] else Concatenated(parts[..|parts| - 1]) + parts[|parts| - 1]
  }

  lemma ResolvedGroupIs(s: Spec, config: seq<Event>, group: string)
    requires GroupResolved(s, config, group)
    ensures ResourceGroupIs(s, config, group)
  {
    if s.resourceGroup.kind == ByName {
      var i :| 0 <= i < |config| && config[i].request == ListResourceGroups(s.region, s.resourceGroup.name.value)
               && config[i].response.Ids? && config[i].response.found != [] && config[i].response.found[0] == group;
      assert config[i] in config;
    }
  }

  lemma ResolvedReferenceIs(s: Spec, config: seq<Event>, ref: ResourceRef, groups: seq<string>)
    requires SelectorResolved(s, config, ref, groups)
    ensures GroupsOfReference(s, config, ref, groups)
  {
    hide GroupResolved, ResourceGroupIs;
    if ref.kind == ByTags {
      var i :| 0 <= i < |config| && config[i].request.DescribeSecurityGroups?
               && config[i].request ==
                  DescribeSecurityGroups(s.region, s.vpc, config[i].request.resourceGroup, Dedup(ref.tags.value))
               && GroupResolved(s, config, config[i].request.resourceGroup) && config[i].response == Ids(groups);
      ResolvedGroupIs(s, config, config[i].request.resourceGroup);
      assert config[i] in config;
    }
  }

  lemma {:induction false} ResolvedReferencesAre(s: Spec, config: seq<Event>, refs: seq<ResourceRef>, ids: seq<string>)
    returns (parts: seq<seq<string>>)
    requires SelectorsResolved(s, config, refs, ids)
    ensures |parts| == |refs| && Concatenated(parts) == ids
    ensures forall k :: 0 <= k < |refs| ==> GroupsOfReference(s, config, refs[k], parts[k])
  {
    hide SelectorResolved, GroupsOfReference;
    parts := [];
    if refs != [] {
      var n := |refs| - 1;
      var k :| 0 <= k <= |ids| && SelectorsResolved(s, config, refs[..n], ids[..k])
               && SelectorResolved(s, config, refs[n], ids[k..]);
      var before := ResolvedReferencesAre(s, config, refs[..n], ids[..k]);
      ResolvedReferenceIs(s, config, refs[n], ids[k..]);
      parts := before + [ids[k..]];
      assert parts[..n] == before && ids[..k] + ids[k..] == ids;
      assert forall j :: 0 <= j < n ==> refs[..n][j] == refs[j];
    }
  }

  /**
   The request of a launch, field by field: one instance; an available image that was answered first; the
   groups of every reference, in the order of the spec; a vswitch and a resource group that are given or were
   answered first; the tags of this machine and cluster; a tenancy that is default or host.
   */
  lemma LaunchRequestIs(s: Spec, m: Machine, config: seq<Event>, run: RunRequest) returns (parts: seq<seq<string>>)
    requires Justified(s, m, config, run)
    ensures run.amount == 1 && run.region == s.region
    ensures exists e <- config :: e.request == DescribeImages(s.region, s.image) && e.response.Images?
                                  && e.response.images != [] && e.response.images[0] == Image(run.image, "Available")
    ensures |parts| == |s.securityGroups| && run.securityGroups == Concatenated(parts) && run.securityGroups != []
    ensures forall k :: 0 <= k < |parts| ==> GroupsOfReference(s, config, s.securityGroups[k], parts[k])
    ensures (s.vSwitch.kind == ByID && run.vSwitch != "" && s.vSwitch.id == Some(run.vSwitch)) ||
            (s.vSwitch.kind == ByTags && s.vSwitch.tags.Some? &&
             exists e <- config :: e.request == DescribeVSwitches(s.region, s.vpc, Dedup(s.vSwitch.tags.value))
                                   && e.response.Ids? && e.response.found != [] && e.response.found[0] == run.vSwitch)
    ensures ResourceGroupIs(s, config, run.resourceGroup)
    ensures ClusterID(m).Some? && run.tags == BuiltTags(m.name, ClusterID(m).value, s.tags)
    ensures run.tenancy in ["default", "host"] && (s.tenancy == run.tenancy || (s.tenancy == "" && run.tenancy == "default"))
  {
    hide SelectorsResolved, GroupsOfReference, ResourceGroupIs, ClusterID, BuiltTags, Dedup;
    parts := ResolvedReferencesAre(s, config, s.securityGroups, run.securityGroups);
    ResolvedGroupIs(s, config, run.resourceGroup);
    var i :| 0 <= i < |config| && config[i].request == DescribeImages(s.region, s.image)
             && config[i].response.Images? && config[i].response.images != []
             && config[i].response.images[0] == Image(run.image, AVAILABLE);
    assert config[i] in config;
    if s.vSwitch.kind == ByTags {
      var j :| 0 <= j < |config|
               && config[j].request == DescribeVSwitches(s.region, s.vpc, Dedup(s.vSwitch.tags.value))
               && config[j].response.Ids? && config[j].response.found != [] && config[j].response.found[0] == run.vSwitch;
      assert config[j] in config;
    }
  }

  /** Everything in the spec that a launch needs, and that can be said before any call. */
  predicate CanLaunch(s: Spec, m: Machine) {
    && s.securityGroups != []
    && (forall g <- s.securityGroups ::
          (g.kind == ByID && g.id.Some? && g.id.value != "") || (g.kind == ByTags && g.tags.Some?))
    && ((s.vSwitch.kind == ByID && s.vSwitch.id.Some? && s.vSwitch.id.value != "")
        || (s.vSwitch.kind == ByTags && s.vSwitch.tags.Some?))
    && ((s.resourceGroup.kind == ByID && s.resourceGroup.id.Some? && s.resourceGroup.id.value != "")
        || (s.resourceGroup.kind == ByName && s.resourceGroup.name.Some? && s.resourceGroup.name.value != ""))
    && s.tenancy in ["", "default", "host"]
    && ClusterID(m).Some?
  }

  /** The answer lists something; if images, an available one first. */
  predicate Useful(response: Response) {
    || (response.Images? && response.images != [] && response.images[0].status == "Available")
    || (response.Ids? && response.found != [])
  }

  /** The launch was answered with one ID, and the last poll showed that instance running. */
  predicate LaunchSucceeds(run: seq<Event>) {
    && |run| > 1 && run[0].response.Created? && |run[0].response.ids| == 1
    && run[|run| - 1].response.Instances?
    && exists r <- run[|run| - 1].response.records :: r.id == run[0].response.ids[0] && r.status == "Running"
  }

  /** Polling went on for 900 seconds after the pause of 5, and no poll was empty or showed the instance running. */
  ghost predicate LaunchTimesOut(run: seq<Event>, at: int) {
    && |run| > 1 && run[0].response.Created? && |run[0].response.ids| == 1
    && at > run[0].at + 905
    && forall k :: 0 < k < |run| ==>
         !NothingSeen(run[k].response) &&
         (run[k].response.Instances? ==>
          forall r <- run[k].response.records :: !(r.id == run[0].response.ids[0] && r.status == "Running"))
  }

  /**
   Create: a launch follows exactly when the machine is valid, the user data is there, the spec can launch and
   every lookup was useful; it succeeds exactly when a poll shows the one new instance running, and it fails
   for exactly one of four reasons.
   */
  lemma CreateIs(
    s: Spec, parse: ParseIP, o: Object, config: seq<Event>, run: seq<Event>, made: Result<Instance, Error>, at: int,
    after: Object, r: Result<(), Error>
  )
    requires CreateCalls(s, parse, o, config, run, made, at, after, r)
    ensures var attempted := ValidMachine(o.machine) && s.userData.Success?;
            && (!attempted ==> config == [] && run == [] && after == o && r.Failure?)
            && (run != [] <==> attempted && CanLaunch(s, o.machine)
                               && forall k :: 0 <= k < |config| ==> Useful(config[k].response))
            && (attempted && r.Failure? ==> after == Forgotten(o))
    ensures run != [] ==> run[0].request.RunInstances? && Justified(s, o.machine, config, run[0].request.run)
    ensures forall k :: 0 < k < |run| ==>
              run[0].response.Created? && run[k].request == DescribeByIds(s.region, run[0].response.ids)
              && run[0].at + 5 <= run[k].at
    ensures forall k, l :: 0 < k < l < |run| ==> run[k].at + 5 <= run[l].at
    ensures r.Success? <==> LaunchSucceeds(run)
    ensures r.Success? ==> made.Success? && run[0].response.ids == [made.value.id] && made.value.status == "Running"
                           && MainShows(o, after, made.value) && StatusShows(parse, o, after, made.value, at)
    ensures run != [] ==>
              var lost := if run[0].response.Failed? then 1 else 0;
              var odd := if run[0].response.Created? && |run[0].response.ids| != 1 then 1 else 0;
              var unseen := if |run| > 1 && NothingSeen(run[|run| - 1].response) then 1 else 0;
              var late := if LaunchTimesOut(run, at) then 1 else 0;
              lost + odd + unseen + late == if r.Failure? then 1 else 0
  {
    hide WithStatus, MainShows, StatusShows, Written, ClusterID, Justified, AfterRun, LaunchSucceeds, LaunchTimesOut;
    if ValidMachine(o.machine) && s.userData.Success? {
      GatesAre(s, o.machine, config);
      CreateIsGated(s, o.machine, config, run, at, made);
      if run != [] {
        LaunchIs(s.region, run, at, made);
      } else {
        assert !LaunchSucceeds(run) by { NoLaunch(); }
      }
      match made
      case Success(i) =>
        StoredShows(parse, o, i, at);
      case Failure(e) =>
        StatusStoredIff(parse, o, None, ConditionFailed(Text(e)), at);
        ForgottenIs(parse, o, ConditionFailed(Text(e)), at);
    } else {
      NoLaunch();
    }
  }

  lemma NoLaunch()
    ensures !LaunchSucceeds([])
  {
  }

  lemma ForgottenIs(parse: ParseIP, o: Object, c: Condition, at: int)
    ensures WithStatus(parse, o, None, c, at) == Forgotten(o)
  {
  }

  lemma GatesAre(s: Spec, m: Machine, config: seq<Event>)
    ensures WellFormed(s, m) <==> CanLaunch(s, m)
    ensures AllGood(config) <==> forall k :: 0 <= k < |config| ==> Useful(config[k].response)
  {
    hide ClusterID;
    assert forall k :: 0 <= k < |config| ==> (Good(config[k]) <==> Useful(config[k].response));
  }

  /** From the launch on: its polls, and what decides over its success. */
  lemma LaunchIs(region: string, run: seq<Event>, at: int, made: Result<Instance, Error>)
    requires AfterRun(region, run, at, made)
    ensures forall k :: 0 < k < |run| ==>
              run[0].response.Created? && run[k].request == DescribeByIds(region, run[0].response.ids)
              && run[0].at + 5 <= run[k].at
    ensures forall k, l :: 0 < k < l < |run| ==> run[k].at + 5 <= run[l].at
    ensures made.Success? <==> LaunchSucceeds(run)
    ensures made.Success? ==> run[0].response.ids == [made.value.id] && made.value.status == "Running"
    ensures var lost := if run[0].response.Failed? then 1 else 0;
            var odd := if run[0].response.Created? && |run[0].response.ids| != 1 then 1 else 0;
            var unseen := if |run| > 1 && NothingSeen(run[|run| - 1].response) then 1 else 0;
            var late := if LaunchTimesOut(run, at) then 1 else 0;
            lost + odd + unseen + late == if made.Failure? then 1 else 0
  {
    if |run| > 1 {
      var ids, polls := run[0].response.ids, run[1..];
      assert ids == [ids[0]];
      assert forall k :: 0 < k < |run| ==> run[k] == polls[k - 1];
      WaitMeaning(polls, region, ids, RUNNING);
      AfterRunCalls(region, run, at, made);
      OneIsSeen(ids[0], "Running", run);
    }
  }

  lemma OneIsSeen(id: string, status: string, run: seq<Event>)
    ensures Distinct([id])
    ensures forall k :: 0 <= k < |run| ==>
              (AllSeen([id], status, run[k].response) <==>
               run[k].response.Instances? && exists r <- run[k].response.records :: r.id == id && r.status == status)
  {
    assert id in [id] && forall x: string :: x in [id] ==> x == id;
  }

  // --- Delete ---

  /** Delete when the lookup fails or shows that nothing is left. */
  lemma DeleteWithoutInstance(
    s: Spec, o: Object, look: seq<Event>, rest: seq<Event>, at: int, after: Object, r: Result<(), Error>
  )
    requires DeleteCalls(s, o, look, rest, at, after, r)
    ensures LookupFails(s, o, look) || Absent(s, o, look) || exists i :: LeadsTo(s, o, look, i)
    ensures LookupFails(s, o, look) ==> rest == [] && after == o && r.Failure?
    ensures Absent(s, o, look) ==> rest == [] && after == o && r == Success(())
  {
    hide LookupCalls, LookupOutcome, LeadsTo, Absent, LookupFails, StopWaitDelete;
    LookupIs(s, o, look);
    var found := LookupOutcome(o, look);
    if found.Success? && found.value != [] {
      assert LeadsTo(s, o, look, found.value[0]);
    }
  }

  /** The stop was accepted, and polling went on for 900 seconds without a poll that makes the deletion safe. */
  ghost predicate DeleteTimesOut(ids: seq<string>, rest: seq<Event>, at: int) {
    && |rest| > 2 && at > rest[1].at + 900
    && forall k :: 2 <= k < |rest| ==> rest[k].request.DescribeByIds? && !SafeToDelete(ids, rest[k].response)
  }

  /** The last call is a deletion. */
  predicate EndsInDeletion(rest: seq<Event>) {
    rest != [] && rest[|rest| - 1].request.DeleteInstances?
  }

  /**
   Delete of the instances that the lookup lists. It describes them; if that shows any, it stops the running
   ones; if the stop is accepted, it polls, at least 5 seconds apart, and as soon as a poll makes the deletion
   safe, the deletion of exactly the listed IDs is the next and last call. It succeeds exactly when that was
   accepted, and fails for exactly one of five reasons.
   */
  lemma DeleteIs(
    s: Spec, o: Object, look: seq<Event>, rest: seq<Event>, at: int, after: Object, r: Result<(), Error>, i: Instance
  )
    requires DeleteCalls(s, o, look, rest, at, after, r) && LeadsTo(s, o, look, i)
    ensures LookupOutcome(o, look).Success?
    ensures var ids := IdsOf(LookupOutcome(o, look).value);
            && rest != [] && rest[0].request == DescribeByIds(s.region, ids)
            && (|rest| > 1 <==> rest[0].response.Instances? && rest[0].response.records != [])
            && (|rest| > 1 ==> StopFollowsDescribe(s.region, ids, rest, 1))
            && (|rest| > 2 <==> |rest| > 1 && !rest[1].response.Failed?)
            && (forall k :: 2 <= k < |rest| ==>
                  if k == |rest| - 1 && EndsInDeletion(rest) then rest[k].request == DeleteInstances(s.region, ids)
                  else rest[k].request == DescribeByIds(s.region, ids))
            && (forall k, l :: 2 <= k < l < |rest| && rest[l].request.DescribeByIds? ==> rest[k].at + 5 <= rest[l].at)
            && (forall k :: 2 <= k < |rest| && rest[k].request.DescribeByIds? ==>
                  (SafeToDelete(ids, rest[k].response) <==> k == |rest| - 2 && EndsInDeletion(rest)))
            && (EndsInDeletion(rest) ==> |rest| > 3)
            && (r.Success? <==> EndsInDeletion(rest) && !rest[|rest| - 1].response.Failed?)
            && var undescribed := if rest[0].response.Failed? then 1 else 0;
               var gone := if rest[0].response.Instances? && rest[0].response.records == [] then 1 else 0;
               var unstopped := if |rest| > 1 && rest[1].response.Failed? then 1 else 0;
               var refused := if EndsInDeletion(rest) && rest[|rest| - 1].response.Failed? then 1 else 0;
               var late := if DeleteTimesOut(ids, rest, at) then 1 else 0;
               undescribed + gone + unstopped + refused + late == if r.Failure? then 1 else 0
    ensures after == if |rest| > 2 then Annotated(o, rest[1].response.states) else o
  {
    hide LookupCalls, LookupOutcome, LeadsTo, StopWaitDelete, StopFollowsDescribe, DeleteTimesOut, Annotated,
         SafeToDelete;
    LookupIs(s, o, look);
    StopWaitDeleteIs(s.region, IdsOf(LookupOutcome(o, look).value), o, rest, at, after, r);
  }

  lemma SafePollIsFollowed(
    s: Spec, o: Object, look: seq<Event>, rest: seq<Event>, at: int, after: Object, r: Result<(), Error>, j: nat
  )
    requires DeleteCalls(s, o, look, rest, at, after, r)
    requires 2 <= j < |rest| && rest[j].request.DescribeByIds? && SafeToDelete(rest[j].request.ids, rest[j].response)
    ensures j + 1 < |rest| && rest[j + 1].request == DeleteInstances(s.region, rest[j].request.ids)
  {
    hide SafeToDelete, LookupCalls, LookupOutcome, DeleteCalls, LeadsTo, LookupFails, Absent, IdsOf, DeleteTimesOut,
         StopFollowsDescribe;
    DeleteWithoutInstance(s, o, look, rest, at, after, r);
    var i :| LeadsTo(s, o, look, i);
    DeleteIs(s, o, look, rest, at, after, r, i);
  }

  lemma StopWaitDeleteIs(
    region: string, ids: seq<string>, o: Object, d: seq<Event>, at: int, after: Object, r: Result<(), Error>
  )
    requires StopWaitDelete(region, ids, o, d, at, after, r) && ids != []
    ensures && d != [] && d[0].request == DescribeByIds(region, ids)
            && (|d| > 1 <==> d[0].response.Instances? && d[0].response.records != [])
            && (|d| > 1 ==> StopFollowsDescribe(region, ids, d, 1))
            && (|d| > 2 <==> |d| > 1 && !d[1].response.Failed?)
            && (forall k :: 2 <= k < |d| ==>
                  if k == |d| - 1 && EndsInDeletion(d) then d[k].request == DeleteInstances(region, ids)
                  else d[k].request == DescribeByIds(region, ids))
            && (forall k, l :: 2 <= k < l < |d| && d[l].request.DescribeByIds? ==> d[k].at + 5 <= d[l].at)
            && (forall k :: 2 <= k < |d| && d[k].request.DescribeByIds? ==>
                  (SafeToDelete(ids, d[k].response) <==> k == |d| - 2 && EndsInDeletion(d)))
            && (EndsInDeletion(d) ==> |d| > 3)
            && (r.Success? <==> EndsInDeletion(d) && !d[|d| - 1].response.Failed?)
    ensures var undescribed := if d[0].response.Failed? then 1 else 0;
            var gone := if d[0].response.Instances? && d[0].response.records == [] then 1 else 0;
            var unstopped := if |d| > 1 && d[1].response.Failed? then 1 else 0;
            var refused := if EndsInDeletion(d) && d[|d| - 1].response.Failed? then 1 else 0;
            var late := if DeleteTimesOut(ids, d, at) then 1 else 0;
            undescribed + gone + unstopped + refused + late == if r.Failure? then 1 else 0
    ensures after == if |d| > 2 then Annotated(o, d[1].response.states) else o
  {
    hide WaitCalls, WaitOutcome, SafeToDelete, Annotated, RunningIds;
    if |d| > 1 {
      RunningIdsAre(d[0].response.records);
    }
    if |d| > 2 {
      var tail := d[2..];
      assert forall k :: 2 <= k < |d| ==> d[k] == tail[k - 2];
      var n := |tail| - 1;
      if tail[n].request.DeleteInstances? {
        PollsAre(region, ids, tail[..n]);
        assert forall k :: 0 <= k < n ==> tail[..n][k] == tail[k];
      } else {
        PollsAre(region, ids, tail);
      }
    }
  }

  /** The polls of a wait for stopped instances: the last one decides, and no other makes the deletion safe. */
  lemma PollsAre(region: string, ids: seq<string>, polls: seq<Event>)
    requires WaitCalls(polls, region, ids, STOPPED) && ids != []
    ensures polls != []
    ensures forall k :: 0 <= k < |polls| ==> polls[k].request == DescribeByIds(region, ids)
    ensures forall k, l :: 0 <= k < l < |polls| ==> polls[k].at + 5 <= polls[l].at
    ensures forall k :: 0 <= k < |polls| - 1 ==> !SafeToDelete(ids, polls[k].response)
    ensures SafeToDelete(ids, polls[|polls| - 1].response) <==> WaitOutcome(polls, ids, STOPPED).Success?
  {
    forall k | 0 <= k < |polls|
      ensures PollOf(ids, STOPPED, polls[k].response).satisfied <==> SafeToDelete(ids, polls[k].response)
    {
      SatisfiedMeansSeen(region, ids, STOPPED, polls[k].response);
    }
    hide SafeToDelete, PollOf;
  }
}
