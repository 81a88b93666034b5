/**
 The ECS cloud as the actuator sees it: instance records, requests, answers, and a client that keeps
 a log of every call. The answers are arbitrary within a small contract, so a property proved of the
 actuator holds whatever the cloud answers and whatever it does between two calls.
 */
module Ecs {
  import opened Wrappers
  import opened Tags

  const PENDING := "Pending"
  const STARTING := "Starting"
  const RUNNING := "Running"
  const STOPPING := "Stopping"
  const STOPPED := "Stopped"

  datatype Nic = Nic(ipv6: seq<string>, privateIps: seq<string>)

  datatype Instance = Instance(
    id: string, regionID: string, zoneID: string, instanceType: string, status: string,
    startTime: string, tags: seq<Tag>, nics: seq<Nic>, publicIps: seq<string>
  )

  /** An instance that exists: it has an ID and is in one of the five states of an ECS instance. */
  predicate Live(i: Instance) {
    && i.id != ""
    && (i.status == "Pending" || i.status == "Starting" || i.status == "Running" ||
        i.status == "Stopping" || i.status == "Stopped")
  }

  datatype Image = Image(id: string, status: string)

  /** One entry of the answer to StopInstances. */
  datatype StopState = StopState(code: string, currentStatus: string)

  datatype RunRequest = RunRequest(
    region: string, image: string, securityGroups: seq<string>, vSwitch: string, resourceGroup: string,
    tags: seq<Tag>, tenancy: string, amount: int
  )

  datatype Request =
    | DescribeByIds(region: string, ids: seq<string>)
    | DescribeByTags(region: string, filter: seq<Tag>)
    | RunInstances(run: RunRequest)
    | StopInstances(region: string, ids: seq<string>)
    | DeleteInstances(region: string, ids: seq<string>)
    | TagResources(region: string, id: string, tags: seq<Tag>)
    | DescribeImages(region: string, image: string)
    | DescribeSecurityGroups(region: string, vpc: string, resourceGroup: string, filter: seq<Tag>)
    | DescribeVSwitches(region: string, vpc: string, filter: seq<Tag>)
    | ListResourceGroups(region: string, name: string)

  datatype Response =
    | Failed(what: string)
    | Instances(records: seq<Instance>)
    | Created(ids: seq<string>)
    | Stopped(states: seq<StopState>)
    | Done
    | Images(images: seq<Image>)
    | Ids(found: seq<string>)

  datatype Event = Event(at: int, request: Request, response: Response)

  /** The calls that look up what a new instance needs: image, security groups, vswitch, resource group. */
  predicate ConfigRequest(r: Request) {
    r.DescribeImages? || r.DescribeSecurityGroups? || r.DescribeVSwitches? || r.ListResourceGroups?
  }

  /** The calls that change no instance. */
  predicate ReadOnly(r: Request) {
    ConfigRequest(r) || r.DescribeByIds? || r.DescribeByTags?
  }

  predicate OneRecordPerId(records: seq<Instance>, ids: seq<string>) {
    && (forall i :: 0 <= i < |records| ==> records[i].id in ids)
    && (forall i, j :: 0 <= i < j < |records| ==> records[i].id != records[j].id)
  }

  /** The contract of the cloud on one call: an answer of the right kind, one record per requested ID. */
  predicate Answers(request: Request, response: Response) {
    response.Failed? ||
    match request
    case DescribeByIds(_, ids) => response.Instances? && OneRecordPerId(response.records, ids)
    case DescribeByTags(_, _) => response.Instances?
    case RunInstances(_) => response.Created?
    case StopInstances(_, _) => response.Stopped?
    case DeleteInstances(_, _) => response.Done?
    case TagResources(_, _, _) => response.Done?
    case DescribeImages(_, _) => response.Images?
    case DescribeSecurityGroups(_, _, _, _) => response.Ids?
    case DescribeVSwitches(_, _, _) => response.Ids?
    case ListResourceGroups(_, _) => response.Ids?
  }

  predicate Answered(log: seq<Event>) {
    forall i :: 0 <= i < |log| ==> Answers(log[i].request, log[i].response)
  }

  predicate Chronological(log: seq<Event>) {
    forall i, j :: 0 <= i < j < |log| ==> log[i].at <= log[j].at
  }

  /** The log d was written between the clock readings from and to. */
  predicate Within(d: seq<Event>, from: int, to: int) {
    forall i :: 0 <= i < |d| ==> from <= d[i].at <= to
  }

  /** After some pauses came n more, all of the same length. */
  predicate PausedTimes(before: seq<nat>, after: seq<nat>, n: int, seconds: nat) {
    && |after| == |before| + n && before <= after
    && forall k :: |before| <= k < |after| ==> after[k] == seconds
  }

  /** The client: every call is answered, logged and stamped, every pause noted; the clock never goes back. */
  class Client {
    var log: seq<Event>
    var now: int
    ghost var pauses: seq<nat>

    constructor (start: int)
      ensures Valid() && log == [] && now == start && pauses == []
    {
      log, now, pauses := [], start, [];
    }

    ghost predicate Valid()
      reads this
    {
      Chronological(log) && Answered(log) && forall i :: 0 <= i < |log| ==> log[i].at <= now
    }

    method Call(request: Request) returns (response: Response)
      requires Valid()
      modifies this
      ensures Valid() && now >= old(now)
      ensures log == old(log) + [Event(now, request, response)]
      ensures Answers(request, response) && pauses == old(pauses)
    {
      var elapsed: int := *;
      if elapsed > 0 {
        now := now + elapsed;
      }
      response := *;
      if !Answers(request, response) {
        response := Failed("no answer");
      }
      log := log + [Event(now, request, response)];
    }

    method Sleep(seconds: nat)
      requires Valid()
      modifies this`now, this`pauses
      ensures Valid() && now >= old(now) + seconds && pauses == old(pauses) + [seconds]
    {
      pauses := pauses + [seconds];
      var late: int := *;
      now := now + seconds + if late > 0 then late else 0;
    }
  }
}
