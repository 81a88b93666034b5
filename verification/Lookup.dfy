/**
 Describing instances. The loops of the source collect the address of their loop variable; under the
 module's language version (go 1.18) that is one variable per loop, so every collected pointer
 denotes the record the loop saw last. InstanceVar is that variable.
 */
module Lookup {
  import opened Wrappers
  import opened Tags
  import opened Ecs

  const SUPPORTED_STATES: seq<string> := [PENDING, STARTING, RUNNING, STOPPING, STOPPED]

  /** instanceHasSupportedState reports no error. */
  predicate Supported(i: Instance) {
    i.id != "" && i.status != "" && i.status in SUPPORTED_STATES
  }

  /** The supported states are all the states that an existing instance can be in. */
  lemma SupportedIsLive(i: Instance)
    ensures Supported(i) <==> Live(i)
    ensures Live(i) <==> i.id != "" && i.status in ["Pending", "Starting", "Running", "Stopping", "Stopped"]
  {
    assert SUPPORTED_STATES == ["Pending", "Starting", "Running", "Stopping", "Stopped"];
  }

  /** A loop variable that outlives its loop. */
  class InstanceVar {
    var value: Instance

    constructor (value: Instance)
      ensures this.value == value
    {
      this.value := value;
    }
  }

  function Deref(pointers: seq<InstanceVar>): (values: seq<Instance>)
    reads pointers
    ensures |values| == |pointers|
    ensures forall i :: 0 <= i < |values| ==> values[i] == pointers[i].value
  {
    seq(|pointers|, i requires 0 <= i < |pointers| reads pointers => pointers[i].value)
  }

  /** The records a filter is meant to keep. */
  function Kept(records: seq<Instance>, keep: Instance -> bool): (kept: seq<Instance>)
    ensures forall r {:trigger r in kept} :: r in kept <==> r in records && keep(r)
    ensures |kept| <= |records|
  {
    if records == [] then []
    else
      var before := Kept(records[..|records| - 1], keep);
      var last := records[|records| - 1];
      assert records == records[..|records| - 1] + [last];
      if keep(last) then before + [last] else before
  }

  /** What the loop yields: as many entries as there are records to keep, all of them the last record. */
  function Aliased(records: seq<Instance>, keep: Instance -> bool): (list: seq<Instance>)
    ensures |list| == |Kept(records, keep)|
    ensures forall i :: 0 <= i < |list| ==> |records| > 0 && list[i] == records[|records| - 1]
  {
    seq(|Kept(records, keep)|, i requires 0 <= i < |Kept(records, keep)| => records[|records| - 1])
  }

  /** The collecting loop shared by getInstances and the status poll. */
  method Collect(records: seq<Instance>, keep: Instance -> bool) returns (pointers: seq<InstanceVar>)
    ensures forall i :: 0 <= i < |pointers| ==> fresh(pointers[i])
    ensures Deref(pointers) == Aliased(records, keep)
  {
    pointers := [];
    if records == [] {
      return;
    }
    var variable := new InstanceVar(records[0]);
    for i := 0 to |records|
      invariant fresh(variable)
      invariant forall j :: 0 <= j < |pointers| ==> pointers[j] == variable
      invariant |pointers| == |Kept(records[..i], keep)|
      invariant i > 0 ==> variable.value == records[i - 1]
    {
      variable.value := records[i];
      assert records[..i + 1][..i] == records[..i];
      if keep(records[i]) {
        pointers := pointers + [variable];
      }
    }
    assert records[..|records|] == records;
  }

  /** Whatever the records, the loop finds something exactly when there is something to find. */
  lemma AliasedEmptiness(records: seq<Instance>, keep: Instance -> bool)
    ensures Aliased(records, keep) == [] <==> forall r <- records :: !keep(r)
  {
    if r :| r in records && keep(r) {
      assert r in Kept(records, keep);
    }
    if Kept(records, keep) != [] {
      assert Kept(records, keep)[0] in Kept(records, keep);
    }
  }

  /**
   The loop yields what it was meant to yield exactly when every record it keeps equals the last
   record of the answer; with distinct IDs: when nothing before the last record is kept.
   */
  lemma AliasedIsKept(records: seq<Instance>, keep: Instance -> bool)
    ensures Aliased(records, keep) == Kept(records, keep) <==>
            forall r <- records :: keep(r) ==> r == records[|records| - 1]
    ensures (forall i, j :: 0 <= i < j < |records| ==> records[i].id != records[j].id) ==>
              (Aliased(records, keep) == Kept(records, keep) <==>
               forall i :: 0 <= i < |records| - 1 ==> !keep(records[i]))
  {
    var kept, aliased := Kept(records, keep), Aliased(records, keep);
    if aliased == kept {
      forall r <- records | keep(r)
        ensures r == records[|records| - 1]
      {
        assert r in kept;
        var i :| 0 <= i < |kept| && kept[i] == r;
        assert aliased[i] == r;
      }
    }
    if forall r <- records :: keep(r) ==> r == records[|records| - 1] {
      forall i | 0 <= i < |kept|
        ensures kept[i] == aliased[i]
      {
        assert kept[i] in kept;
      }
    }
    if forall i, j :: 0 <= i < j < |records| ==> records[i].id != records[j].id {
      OnlyTheLast(records, keep);
    }
  }

  lemma OnlyTheLast(records: seq<Instance>, keep: Instance -> bool)
    requires forall i, j :: 0 <= i < j < |records| ==> records[i].id != records[j].id
    ensures (forall r <- records :: keep(r) ==> r == records[|records| - 1]) <==>
            (forall i :: 0 <= i < |records| - 1 ==> !keep(records[i]))
  {
    assert forall i :: 0 <= i < |records| - 1 ==> records[i] in records && records[i] != records[|records| - 1];
  }

  // --- The two ways of finding a machine's instances ---

  /** getInstanceByID on the answer to its describe call. */
  function ByIdResult(response: Response): Result<Instance, Error> {
    if response.Failed? then Failure(CloudFailed(response.what))
    else if !response.Instances? || |response.records| != 1 then Failure(NotFound)
    else if Supported(response.records[0]) then Success(response.records[0])
    else Failure(UnsupportedState)
  }

  /** getInstances on the answer to its describe call. */
  function ByTagsResult(response: Response): Result<seq<Instance>, Error> {
    if response.Failed? then Failure(CloudFailed(response.what))
    else if !response.Instances? then Failure(NotFound)
    else Success(Aliased(response.records, Supported))
  }

  method GetInstanceByID(client: Client, region: string, id: string)
    returns (result: Result<Instance, Error>, ghost d: seq<Event>)
    requires client.Valid() && id != ""
    modifies client
    ensures client.Valid() && client.log == old(client.log) + d
    ensures Within(d, old(client.now), client.now) && old(client.now) <= client.now
    ensures |d| == 1 && d[0].request == DescribeByIds(region, [id]) && Answers(d[0].request, d[0].response)
    ensures result == ByIdResult(d[0].response)
  {
    var response := client.Call(DescribeByIds(region, [id]));
    d := [Event(client.now, DescribeByIds(region, [id]), response)];
    match response
    case Failed(what) => result := Failure(CloudFailed(what));
    case Instances(records) =>
      if |records| != 1 {
        result := Failure(NotFound);
      } else if Supported(records[0]) {
        result := Success(records[0]);
      } else {
        result := Failure(UnsupportedState);
      }
    case _ => assert false;
  }

  method GetInstances(client: Client, region: string, clusterID: Option<string>, name: string)
    returns (result: Result<seq<Instance>, Error>, ghost d: seq<Event>)
    requires client.Valid()
    modifies client
    ensures client.Valid() && client.log == old(client.log) + d
    ensures Within(d, old(client.now), client.now) && old(client.now) <= client.now
    ensures clusterID.None? ==> d == [] && result == Failure(NoClusterID)
    ensures clusterID.Some? ==>
              && |d| == 1
              && d[0].request == DescribeByTags(region, LookupTags(clusterID.value, name))
              && Answers(d[0].request, d[0].response)
              && result == ByTagsResult(d[0].response)
  {
    if clusterID.None? {
      return Failure(NoClusterID), [];
    }
    var request := DescribeByTags(region, LookupTags(clusterID.value, name));
    var response := client.Call(request);
    d := [Event(client.now, request, response)];
    match response
    case Failed(what) => result := Failure(CloudFailed(what));
    case Instances(records) =>
      var pointers := Collect(records, Supported);
      result := Success(Deref(pointers));
    case _ => assert false;
  }
}
