/**
 The four operations as interactions with the cloud: for each, which calls it makes given the answers it
 gets, what it leaves in the machine object and what it returns. The answers themselves are free, so
 statements about these predicates hold for every behaviour of the cloud between and during calls.
 */
module Protocol {
  import opened Wrappers
  import opened Tags
  import opened Ecs
  import opened Lookup
  import opened Polling
  import opened Conditions
  import opened Machines
  import opened Creation

  // --- Finding the instances: by the recorded ID, then by tags ---

  predicate TagCalls(m: Machine, region: string, d: seq<Event>) {
    if ClusterID(m).None? then d == []
    else
      && |d| == 1
      && d[0].request == DescribeByTags(region, LookupTags(ClusterID(m).value, m.name))
      && Answers(d[0].request, d[0].response)
  }

  predicate LookupCalls(o: Object, region: string, look: seq<Event>) {
    if Recorded(o.status) then
      && look != []
      && look[0].request == DescribeByIds(region, [o.status.instanceID.value])
      && Answers(look[0].request, look[0].response)
      && if ByIdResult(look[0].response).Success? then look[1..] == [] else TagCalls(o.machine, region, look[1..])
    else TagCalls(o.machine, region, look)
  }

  function TagOutcome(d: seq<Event>): Result<seq<Instance>, Error> {
    if d == [] then Failure(NoClusterID) else ByTagsResult(d[0].response)
  }

  function LookupOutcome(o: Object, look: seq<Event>): Result<seq<Instance>, Error> {
    if Recorded(o.status) && look != [] then
      match ByIdResult(look[0].response)
      case Success(i) => Success([i])
      case Failure(_) => TagOutcome(look[1..])
    else TagOutcome(look)
  }

  // --- Exists ---

  function ExistsResult(m: Machine, found: Result<seq<Instance>, Error>, at: int): Result<bool, Error> {
    match found
    case Failure(e) => Failure(e)
    case Success(list) =>
      if list != [] then Success(true)
      else if MaybeStale(m, at) then Failure(RequeueAfter(REQUEUE_AFTER))
      else Success(false)
  }

  predicate ExistsCalls(s: Spec, o: Object, look: seq<Event>, at: int, r: Result<bool, Error>) {
    LookupCalls(o, s.region, look) && r == ExistsResult(o.machine, LookupOutcome(o, look), at)
  }

  // --- Update ---

  function UpdateMachineResult(m: Machine, found: Result<seq<Instance>, Error>, at: int): Result<Instance, Error> {
    match found
    case Failure(e) => Failure(e)
    case Success(list) =>
      if list != [] then Success(list[0])
      else if MaybeStale(m, at) then Failure(RequeueAfter(REQUEUE_AFTER))
      else Failure(RequeueAfter(REQUEUE_AFTER_FATAL))
  }

  /** Only a machine whose instance is really gone loses its recorded instance. */
  function AfterUpdateMachine(parse: ParseIP, o: Object, found: Result<seq<Instance>, Error>, at: int): Object {
    if found == Success([]) && !MaybeStale(o.machine, at) then WithStatus(parse, o, None, ConditionSuccess(), at) else o
  }

  /** Provider ID, labels and annotations of the chosen instance. */
  function Written(o: Object, i: Instance): Object {
    o.(machine := WithSpecifics(WithProviderID(o.machine, i), i))
  }

  predicate UpdateDone(parse: ParseIP, o: Object, i: Instance, at: int, after: Object, r: Result<(), Error>) {
    && after == WithStatus(parse, Written(o, i), Some(i), ConditionSuccess(), at)
    && r == if i.status == PENDING then Failure(RequeueAfter(REQUEUE_AFTER)) else Success(())
  }

  /** Update once an instance is chosen; its one possible call corrects the tags. */
  predicate UpdateInstance(
    s: Spec, parse: ParseIP, o: Object, i: Instance, tag: seq<Event>, at: int, after: Object, r: Result<(), Error>
  ) {
    var cluster := ClusterID(o.machine);
    if i.id == "" || cluster.None? then
      tag == [] && after == Written(o, i) && r == Failure(CloudFailed("failed to correct existing instance tags"))
    else if NeedsRetag(i.tags, cluster.value, o.machine.name) then
      && |tag| == 1
      && tag[0].request == TagResources(s.region, i.id, ManagedTags(cluster.value, o.machine.name))
      && Answers(tag[0].request, tag[0].response)
      && if tag[0].response.Failed? then
           after == Written(o, i) && r == Failure(CloudFailed("failed to correct existing instance tags"))
         else UpdateDone(parse, o, i, at, after, r)
    else tag == [] && UpdateDone(parse, o, i, at, after, r)
  }

  predicate UpdateCalls(
    s: Spec, parse: ParseIP, o: Object, look: seq<Event>, tag: seq<Event>, at: int, after: Object, r: Result<(), Error>
  ) {
    if !ValidMachine(o.machine) then
      look == [] && tag == [] && after == o && r == Failure(InvalidConfiguration("failed validating machine provider spec"))
    else
      && LookupCalls(o, s.region, look)
      && var found := LookupOutcome(o, look);
         match UpdateMachineResult(o.machine, found, at)
         case Failure(e) => tag == [] && after == AfterUpdateMachine(parse, o, found, at) && r == Failure(e)
         case Success(i) => UpdateInstance(s, parse, o, i, tag, at, after, r)
  }

  // --- Create ---

  ghost predicate CreateCalls(
    s: Spec, parse: ParseIP, o: Object, config: seq<Event>, run: seq<Event>, made: Result<Instance, Error>, at: int,
    after: Object, r: Result<(), Error>
  ) {
    if !ValidMachine(o.machine) || s.userData.Failure? then
      config == [] && run == [] && after == o && r.Failure?
    else
      && RunCalls(s, o.machine, config, run, at, made)
      && match made
         case Failure(e) =>
           after == WithStatus(parse, o, None, ConditionFailed(Text(e)), at) && r.Failure?
         case Success(i) =>
           after == WithStatus(parse, Written(o, i), Some(i), ConditionSuccess(), at) && r == Success(())
  }

  // --- Delete ---

  function RunningIds(records: seq<Instance>): seq<string> {
    if records == [] then []
    else
      var before, last := RunningIds(records[..|records| - 1]), records[|records| - 1];
      if last.status == RUNNING then before + [last.id] else before
  }

  function Annotated(o: Object, states: seq<StopState>): Object {
    if |states| == 1 && states[0].code == "200" && states[0].currentStatus != "" then
      o.(machine := o.machine.(
        annotations := Some(OrEmpty(o.machine.annotations)[INSTANCE_STATE_ANNOTATION := states[0].currentStatus])))
    else o
  }

  /** The wait starts at the clock reading from, and the operation returns at the clock reading at. */
  predicate WaitThenDelete(
    region: string, ids: seq<string>, from: int, d: seq<Event>, at: int, r: Result<(), Error>
  ) {
    d != [] &&
    var n := |d| - 1;
    n <= MAX_POLLS &&
    if d[n].request.DeleteInstances? then
      && WaitCalls(d[..n], region, ids, STOPPED) && WaitOutcome(d[..n], ids, STOPPED).Success?
      && d[n].request == DeleteInstances(region, ids) && Answers(d[n].request, d[n].response)
      && (r.Success? <==> !d[n].response.Failed?)
    else
      && |d| <= MAX_POLLS && WaitCalls(d, region, ids, STOPPED) && WaitOutcome(d, ids, STOPPED).Failure?
      && at > from + DEFAULT_TIMEOUT && r.Failure?
  }

  predicate StopWaitDelete(
    region: string, ids: seq<string>, o: Object, d: seq<Event>, at: int, after: Object, r: Result<(), Error>
  ) {
    && d != [] && d[0].request == DescribeByIds(region, ids) && Answers(d[0].request, d[0].response)
    && if d[0].response.Failed? || d[0].response.records == [] then
         |d| == 1 && after == o && r.Failure?
       else
         && |d| >= 2 && d[1].request == StopInstances(region, RunningIds(d[0].response.records))
         && Answers(d[1].request, d[1].response)
         && if d[1].response.Failed? then
              |d| == 2 && after == o && r.Failure?
            else
              after == Annotated(o, d[1].response.states) && WaitThenDelete(region, ids, d[1].at, d[2..], at, r)
  }

  predicate DeleteCalls(
    s: Spec, o: Object, look: seq<Event>, rest: seq<Event>, at: int, after: Object, r: Result<(), Error>
  ) {
    && LookupCalls(o, s.region, look)
    && match LookupOutcome(o, look)
       case Failure(e) => rest == [] && after == o && r == Failure(e)
       case Success(list) =>
         if list == [] then rest == [] && after == o && r == Success(())
         else StopWaitDelete(s.region, IdsOf(list), o, rest, at, after, r)
  }
}
