/**
 Creating an instance: resolving the image, security groups, vswitch and resource group, issuing the one
 RunInstances call, and waiting for the instance. RunCalls says which calls this makes, in which order.
 */
module Creation {
  import opened Wrappers
  import opened Tags
  import opened Ecs
  import opened Lookup
  import opened Polling
  import opened Machines

  const AVAILABLE := "Available"
  const DEFAULT_TENANCY := "default"
  const HOST_TENANCY := "host"
  const SETTLE_SECONDS := 5

  datatype RefKind = ByID | ByName | ByTags | Unknown

  datatype ResourceRef = ResourceRef(kind: RefKind, id: Option<string>, name: Option<string>, tags: Option<seq<Tag>>)

  /** The provider spec, and the user data fetched from its secret. */
  datatype Spec = Spec(
    region: string, image: string, vpc: string, resourceGroup: ResourceRef, securityGroups: seq<ResourceRef>,
    vSwitch: ResourceRef, tags: seq<Tag>, tenancy: string, userData: Result<string, Error>
  )

  predicate Given(s: Option<string>) { s.Some? && s.value != "" }

  // --- What makes a spec usable, and an answer good ---

  predicate GroupRefOk(r: ResourceRef) {
    (r.kind == ByID && Given(r.id)) || (r.kind == ByName && Given(r.name))
  }

  predicate SelectorOk(r: ResourceRef) {
    (r.kind == ByID && Given(r.id)) || (r.kind == ByTags && r.tags.Some?)
  }

  predicate TenancyOk(tenancy: string) {
    tenancy == "" || tenancy == DEFAULT_TENANCY || tenancy == HOST_TENANCY
  }

  predicate WellFormed(s: Spec, m: Machine) {
    && s.securityGroups != []
    && (forall r <- s.securityGroups :: SelectorOk(r))
    && SelectorOk(s.vSwitch)
    && GroupRefOk(s.resourceGroup)
    && TenancyOk(s.tenancy)
    && ClusterID(m).Some?
  }

  /** A good answer: an available image first, or a non-empty list. */
  predicate Good(e: Event) {
    match e.response
    case Images(images) => images != [] && images[0].status == AVAILABLE
    case Ids(found) => found != []
    case _ => false
  }

  predicate AllGood(d: seq<Event>) {
    forall i :: 0 <= i < |d| ==> Good(d[i])
  }

  predicate AllConfig(d: seq<Event>) {
    forall i :: 0 <= i < |d| ==> ConfigRequest(d[i].request)
  }

  // --- What each part of the request is justified by ---

  predicate Answer(d: seq<Event>, request: Request, response: Response) {
    exists i :: 0 <= i < |d| && d[i].request == request && d[i].response == response
  }

  predicate ImageResolved(s: Spec, d: seq<Event>, image: string) {
    exists i :: 0 <= i < |d| && d[i].request == DescribeImages(s.region, s.image) && d[i].response.Images?
                && d[i].response.images != [] && d[i].response.images[0] == Image(image, AVAILABLE)
  }

  predicate GroupResolved(s: Spec, d: seq<Event>, group: string) {
    var r := s.resourceGroup;
    (r.kind == ByID && Given(r.id) && r.id.value == group) ||
    (r.kind == ByName && Given(r.name) &&
     exists i :: 0 <= i < |d| && d[i].request == ListResourceGroups(s.region, r.name.value)
                 && d[i].response.Ids? && d[i].response.found != [] && d[i].response.found[0] == group)
  }

  /** The IDs that one security-group reference stands for. */
  predicate SelectorResolved(s: Spec, d: seq<Event>, r: ResourceRef, ids: seq<string>) {
    ids != [] &&
    ((r.kind == ByID && Given(r.id) && ids == [r.id.value]) ||
     (r.kind == ByTags && r.tags.Some? &&
      exists i :: 0 <= i < |d| && d[i].request.DescribeSecurityGroups?
                  && d[i].request == DescribeSecurityGroups(s.region, s.vpc, d[i].request.resourceGroup, Dedup(r.tags.value))
                  && GroupResolved(s, d, d[i].request.resourceGroup)
                  && d[i].response == Ids(ids)))
  }

  /** ids is the concatenation, in order, of what the references stand for. */
  ghost predicate SelectorsResolved(s: Spec, d: seq<Event>, refs: seq<ResourceRef>, ids: seq<string>) {
    if refs == [] then ids == []
    else
      var n := |refs| - 1;
      exists k :: 0 <= k <= |ids| && SelectorsResolved(s, d, refs[..n], ids[..k]) && SelectorResolved(s, d, refs[n], ids[k..])
  }

  predicate VSwitchResolved(s: Spec, d: seq<Event>, id: string) {
    var r := s.vSwitch;
    (r.kind == ByID && Given(r.id) && r.id.value == id) ||
    (r.kind == ByTags && r.tags.Some? &&
     exists i :: 0 <= i < |d| && d[i].request == DescribeVSwitches(s.region, s.vpc, Dedup(r.tags.value))
                 && d[i].response.Ids? && d[i].response.found != [] && d[i].response.found[0] == id)
  }

  /** Every field of a RunInstances request is the one the spec and the answers d call for. */
  ghost predicate Justified(s: Spec, m: Machine, d: seq<Event>, run: RunRequest) {
    && run.region == s.region && run.amount == 1
    && ImageResolved(s, d, run.image)
    && run.securityGroups != [] && SelectorsResolved(s, d, s.securityGroups, run.securityGroups)
    && VSwitchResolved(s, d, run.vSwitch)
    && GroupResolved(s, d, run.resourceGroup)
    && ClusterID(m).Some? && run.tags == BuiltTags(m.name, ClusterID(m).value, s.tags)
    && (run.tenancy == if s.tenancy == "" then DEFAULT_TENANCY else s.tenancy)
    && (run.tenancy == DEFAULT_TENANCY || run.tenancy == HOST_TENANCY)
  }

  // --- The resolvers ---

  /** The part of a client method's contract that every resolver shares. */
  twostate predicate Extends(client: Client, d: seq<Event>)
    reads client
  {
    && client.Valid()
    && client.log == old(client.log) + d
    && old(client.now) <= client.now
    && Within(d, old(client.now), client.now)
  }

  method Ask(client: Client, request: Request) returns (response: Response, ghost d: seq<Event>)
    requires client.Valid()
    modifies client
    ensures Extends(client, d)
    ensures |d| == 1 && d[0].request == request && d[0].response == response && Answers(request, response)
    ensures client.pauses == old(client.pauses)
  {
    response := client.Call(request);
    d := [Event(client.now, request, response)];
  }

  method GetImageID(client: Client, s: Spec) returns (r: Result<string, Error>, ghost d: seq<Event>)
    requires client.Valid()
    modifies client
    ensures Extends(client, d) && AllConfig(d)
    ensures r.Success? <==> AllGood(d)
    ensures r.Success? ==> ImageResolved(s, d, r.value)
  {
    var response;
    response, d := Ask(client, DescribeImages(s.region, s.image));
    if response.Failed? {
      r := Failure(CloudFailed("error describing Images"));
    } else if |response.images| < 1 {
      r := Failure(InvalidConfiguration("no image"));
    } else if response.images[0].status != AVAILABLE {
      assert !Good(d[0]);
      r := Failure(InvalidConfiguration("invalid image status"));
    } else {
      r := Success(response.images[0].id);
      assert Good(d[0]);
    }
  }

  method GetResourceGroupID(client: Client, s: Spec) returns (r: Result<string, Error>, ghost d: seq<Event>)
    requires client.Valid()
    modifies client
    ensures Extends(client, d) && AllConfig(d)
    ensures r.Success? <==> GroupRefOk(s.resourceGroup) && AllGood(d)
    ensures r.Success? ==> GroupResolved(s, d, r.value)
  {
    d := [];
    match s.resourceGroup.kind
    case ByID =>
      if Given(s.resourceGroup.id) {
        r := Success(s.resourceGroup.id.value);
      } else {
        r := Failure(InvalidConfiguration("no resource group ID"));
      }
    case ByName =>
      if !Given(s.resourceGroup.name) {
        return Failure(InvalidConfiguration("no resource group name")), d;
      }
      var response;
      response, d := Ask(client, ListResourceGroups(s.region, s.resourceGroup.name.value));
      if response.Failed? {
        r := Failure(CloudFailed("error listing resource groups"));
      } else if |response.found| < 1 {
        r := Failure(InvalidConfiguration("no resource group"));
      } else {
        r := Success(response.found[0]);
      }
      assert Good(d[0]) <==> r.Success?;
    case _ =>
      r := Failure(InvalidConfiguration("unknown resource group reference type"));
  }

  method GetSecurityGroupIDByTags(client: Client, s: Spec, ref: ResourceRef)
    returns (r: Result<seq<string>, Error>, ghost d: seq<Event>)
    requires client.Valid() && ref.kind == ByTags
    modifies client
    ensures Extends(client, d) && AllConfig(d)
    ensures r.Success? ==> SelectorOk(ref) && AllGood(d) && SelectorResolved(s, d, ref, r.value)
    ensures r.Failure? ==> !SelectorOk(ref) || !GroupRefOk(s.resourceGroup) || !AllGood(d)
  {
    d := [];
    if ref.tags.None? {
      return Failure(InvalidConfiguration("no tags provided")), d;
    }
    ghost var start := client.now;
    var group;
    group, d := GetResourceGroupID(client, s);
    ghost var middle := client.now;
    if group.Failure? {
      return Failure(InvalidConfiguration("unable to determine resource group ID")), d;
    }
    var filter := RemoveDuplicatedTags(ref.tags.value);
    var request := DescribeSecurityGroups(s.region, s.vpc, group.value, filter);
    var response, asked := Ask(client, request);
    ghost var before := d;
    d := JoinCalls(before, asked, start, middle, client.now);
    if response.Failed? {
      r := Failure(CloudFailed("error describing securitygroup"));
    } else if |response.found| < 1 {
      r := Failure(InvalidConfiguration("no securitygroup for given tags"));
    } else {
      GroupResolvedMore(s, before, asked, group.value);
      assert d[|before|] == asked[0];
      r := Success(response.found);
    }
    assert Good(asked[0]) <==> r.Success?;
  }

  /** The security-group loop: resolves the references one after the other. */
  method GetSecurityGroupIDs(client: Client, s: Spec) returns (r: Result<seq<string>, Error>, ghost d: seq<Event>)
    requires client.Valid()
    modifies client
    ensures Extends(client, d) && AllConfig(d)
    ensures r.Success? ==>
              && s.securityGroups != [] && (forall g <- s.securityGroups :: SelectorOk(g)) && AllGood(d)
              && r.value != [] && SelectorsResolved(s, d, s.securityGroups, r.value)
    ensures r.Failure? ==>
              s.securityGroups == [] || (exists g <- s.securityGroups :: !SelectorOk(g))
              || !GroupRefOk(s.resourceGroup) || !AllGood(d)
  {
    hide SelectorsResolved, SelectorResolved;
    d := [];
    var refs := s.securityGroups;
    NoSelectors(s);
    if |refs| == 0 {
      return Failure(InvalidConfiguration("no security configuration provided")), d;
    }
    var ids: seq<string> := [];
    ghost var start := client.now;
    for i := 0 to |refs|
      invariant Extends(client, d) && AllConfig(d) && AllGood(d)
      invariant forall j :: 0 <= j < i ==> SelectorOk(refs[j])
      invariant i > 0 ==> |ids| > 0
      invariant SelectorsResolved(s, d, refs[..i], ids)
    {
      var sg := refs[i];
      assert sg in refs;
      ghost var before, part, asked := d, ids, [];
      var found: seq<string>;
      match sg.kind {
        case ByID =>
          if Given(sg.id) {
            found := [sg.id.value];
            SelectorByID(s, sg);
          } else {
            return Failure(InvalidConfiguration("no security group ID provided")), d;
          }
        case ByTags =>
          ghost var middle := client.now;
          var byTags;
          byTags, asked := GetSecurityGroupIDByTags(client, s, sg);
          d := JoinCalls(before, asked, start, middle, client.now);
          if byTags.Failure? {
            return Failure(byTags.error), d;
          }
          found := byTags.value;
        case _ =>
          return Failure(InvalidConfiguration("unknown security group reference type")), d;
      }
      SelectorsSnoc(s, before, asked, refs[..i], sg, part, found);
      assert refs[..i + 1] == refs[..i] + [sg] && d == before + asked;
      ids := ids + found;
    }
    assert refs[..|refs|] == refs;
    if |ids| == 0 {
      return Failure(InvalidConfiguration("no securitygroup IDs found")), d;
    }
    r := Success(ids);
  }

  lemma NoSelectors(s: Spec)
    ensures SelectorsResolved(s, [], [], [])
  {
  }

  lemma SelectorByID(s: Spec, ref: ResourceRef)
    requires ref.kind == ByID && Given(ref.id)
    ensures SelectorResolved(s, [], ref, [ref.id.value])
  {
  }

  /** One more reference, resolved by some more calls. */
  lemma SelectorsSnoc(
    s: Spec, before: seq<Event>, asked: seq<Event>, refs: seq<ResourceRef>, ref: ResourceRef,
    ids: seq<string>, found: seq<string>
  )
    requires SelectorsResolved(s, before, refs, ids) && SelectorResolved(s, asked, ref, found)
    ensures SelectorsResolved(s, before + asked, refs + [ref], ids + found) && |ids + found| > 0
  {
    SelectorsResolvedMore(s, before, asked, refs, ids);
    SelectorResolvedMore(s, before, asked, ref, found);
    var all, more := ids + found, refs + [ref];
    assert more[..|refs|] == refs && all[..|ids|] == ids && all[|ids|..] == found;
  }

  method GetVSwitchID(client: Client, s: Spec) returns (r: Result<string, Error>, ghost d: seq<Event>)
    requires client.Valid()
    modifies client
    ensures Extends(client, d) && AllConfig(d)
    ensures r.Success? <==> SelectorOk(s.vSwitch) && AllGood(d)
    ensures r.Success? ==> VSwitchResolved(s, d, r.value)
  {
    d := [];
    match s.vSwitch.kind
    case ByID =>
      if Given(s.vSwitch.id) {
        r := Success(s.vSwitch.id.value);
      } else {
        r := Failure(InvalidConfiguration("no vswitch resource id provided"));
      }
    case ByTags =>
      if s.vSwitch.tags.None? {
        return Failure(InvalidConfiguration("no tags provided for vswitch")), d;
      }
      var filter := RemoveDuplicatedTags(s.vSwitch.tags.value);
      var response;
      response, d := Ask(client, DescribeVSwitches(s.region, s.vpc, filter));
      if response.Failed? {
        r := Failure(CloudFailed("error describing vswitches"));
      } else if |response.found| < 1 {
        r := Failure(InvalidConfiguration("no vswitches found"));
      } else {
        r := Success(response.found[0]);
      }
      assert Good(d[0]) <==> r.Success?;
    case _ =>
      r := Failure(InvalidConfiguration("unknown vswitch reference type"));
  }

  // --- More answers never unsettle what is resolved ---

  lemma GroupResolvedMore(s: Spec, d: seq<Event>, more: seq<Event>, group: string)
    ensures GroupResolved(s, d, group) ==> GroupResolved(s, d + more, group)
    ensures GroupResolved(s, more, group) ==> GroupResolved(s, d + more, group)
  {
    var all := d + more;
    assert forall i :: 0 <= i < |d| ==> all[i] == d[i];
    assert forall i :: 0 <= i < |more| ==> all[|d| + i] == more[i];
  }

  lemma SelectorResolvedMore(s: Spec, d: seq<Event>, more: seq<Event>, r: ResourceRef, ids: seq<string>)
    ensures SelectorResolved(s, d, r, ids) ==> SelectorResolved(s, d + more, r, ids)
    ensures SelectorResolved(s, more, r, ids) ==> SelectorResolved(s, d + more, r, ids)
  {
    var all := d + more;
    assert forall i :: 0 <= i < |d| ==> all[i] == d[i];
    assert forall i :: 0 <= i < |more| ==> all[|d| + i] == more[i];
    forall group
      ensures GroupResolved(s, d, group) ==> GroupResolved(s, all, group)
      ensures GroupResolved(s, more, group) ==> GroupResolved(s, all, group)
    {
      GroupResolvedMore(s, d, more, group);
    }
  }

  lemma {:induction false} SelectorsResolvedMore(
    s: Spec, d: seq<Event>, more: seq<Event>, refs: seq<ResourceRef>, ids: seq<string>
  )
    ensures SelectorsResolved(s, d, refs, ids) ==> SelectorsResolved(s, d + more, refs, ids)
    ensures SelectorsResolved(s, more, refs, ids) ==> SelectorsResolved(s, d + more, refs, ids)
  {
    if refs != [] {
      var n := |refs| - 1;
      forall k | 0 <= k <= |ids|
        ensures SelectorsResolved(s, d, refs[..n], ids[..k]) ==> SelectorsResolved(s, d + more, refs[..n], ids[..k])
        ensures SelectorsResolved(s, more, refs[..n], ids[..k]) ==> SelectorsResolved(s, d + more, refs[..n], ids[..k])
        ensures SelectorResolved(s, d, refs[n], ids[k..]) ==> SelectorResolved(s, d + more, refs[n], ids[k..])
        ensures SelectorResolved(s, more, refs[n], ids[k..]) ==> SelectorResolved(s, d + more, refs[n], ids[k..])
      {
        SelectorsResolvedMore(s, d, more, refs[..n], ids[..k]);
        SelectorResolvedMore(s, d, more, refs[n], ids[k..]);
      }
    }
  }

  // --- runInstances ---

  /** From the RunInstances call on: one new instance, a pause, then a wait until it is running. */
  predicate AfterRun(region: string, d: seq<Event>, at: int, r: Result<Instance, Error>) {
    && d != [] && d[0].request.RunInstances? && Answers(d[0].request, d[0].response)
    && if d[0].response.Failed? || |d[0].response.ids| != 1 then
         |d| == 1 && r.Failure?
       else
         var ids := d[0].response.ids;
         && WaitCalls(d[1..], region, ids, RUNNING) && |d[1..]| <= MAX_POLLS
         && d[1].at >= d[0].at + SETTLE_SECONDS
         && r == NewInstance(WaitOutcome(d[1..], ids, RUNNING))
         && (WaitOutcome(d[1..], ids, RUNNING).Failure? ==> at > d[0].at + SETTLE_SECONDS + DEFAULT_TIMEOUT)
  }

  function NewInstance(waited: Result<Option<seq<Instance>>, Error>): Result<Instance, Error> {
    match waited
    case Failure(_) => Failure(CreateFailed("error waiting ECS instance to Running"))
    case Success(None) => Failure(CreateFailed("ECS instance not found"))
    case Success(Some(list)) => if |list| < 1 then Failure(CreateFailed("ECS instance not found")) else Success(list[0])
  }

  /**
   The calls of one runInstances: configuration lookups first. If the spec is well formed and every
   answer is good, exactly one RunInstances follows and each of its fields is justified by them;
   otherwise nothing follows.
   */
  ghost predicate RunCalls(
    s: Spec, m: Machine, config: seq<Event>, after: seq<Event>, at: int, r: Result<Instance, Error>
  ) {
    && AllConfig(config)
    && if WellFormed(s, m) && AllGood(config) then
         AfterRun(s.region, after, at, r) && Justified(s, m, config, after[0].request.run)
       else
         after == [] && r.Failure?
  }

  /** The lookups that precede RunInstances, and the request they lead to. */
  method PrepareRun(client: Client, s: Spec, m: Machine) returns (r: Result<RunRequest, Error>, ghost d: seq<Event>)
    requires client.Valid()
    modifies client
    ensures Extends(client, d) && AllConfig(d)
    ensures r.Success? <==> WellFormed(s, m) && AllGood(d)
    ensures r.Success? ==> Justified(s, m, d, r.value)
  {
    hide ImageResolved, SelectorsResolved, VSwitchResolved, GroupResolved, AllGood, AllConfig, Within;
    ghost var start := client.now;
    var image, d1 := GetImageID(client, s);
    d := d1;
    if image.Failure? {
      return Failure(InvalidConfiguration("error getting ImageID")), d;
    }
    ghost var t1 := client.now;
    var groups, d2 := GetSecurityGroupIDs(client, s);
    d := JoinCalls(d1, d2, start, t1, client.now);
    if groups.Failure? {
      return Failure(InvalidConfiguration("error getting security groups ID")), d;
    }
    ghost var t2 := client.now;
    var vSwitch, d3 := GetVSwitchID(client, s);
    d := JoinCalls(d, d3, start, t2, client.now);
    if vSwitch.Failure? {
      return Failure(InvalidConfiguration("error getting vswitch ID")), d;
    }
    var clusterID := ClusterID(m);
    if clusterID.None? {
      return Failure(InvalidConfiguration("unable to get cluster ID")), d;
    }
    ghost var t3 := client.now;
    var group, d4 := GetResourceGroupID(client, s);
    d := JoinCalls(d, d4, start, t3, client.now);
    if group.Failure? {
      return Failure(InvalidConfiguration("unable to determine resource group ID")), d;
    }
    var tags := BuildTagList(m.name, clusterID.value, s.tags);
    if !TenancyOk(s.tenancy) {
      return Failure(CreateFailed("invalid instance tenancy")), d;
    }
    var tenancy := if s.tenancy == "" then DEFAULT_TENANCY else s.tenancy;
    r := Success(RunRequest(s.region, image.value, groups.value, vSwitch.value, group.value, tags, tenancy, 1));
    ResolvedTogether(s, d1, d2, d3, d4, image.value, groups.value, vSwitch.value, group.value);
  }

  /** Two runs of calls, one after the other. */
  lemma JoinCalls(a: seq<Event>, b: seq<Event>, from: int, middle: int, to: int) returns (d: seq<Event>)
    requires Within(a, from, middle) && Within(b, middle, to) && from <= middle <= to
    ensures d == a + b && Within(d, from, to)
    ensures AllConfig(d) <==> AllConfig(a) && AllConfig(b)
    ensures AllGood(d) <==> AllGood(a) && AllGood(b)
  {
    d := a + b;
    assert forall i :: 0 <= i < |a| ==> d[i] == a[i];
    assert forall i :: 0 <= i < |b| ==> d[|a| + i] == b[i];
  }

  lemma ResolvedTogether(
    s: Spec, d1: seq<Event>, d2: seq<Event>, d3: seq<Event>, d4: seq<Event>,
    image: string, groups: seq<string>, vSwitch: string, group: string
  )
    requires ImageResolved(s, d1, image) && SelectorsResolved(s, d2, s.securityGroups, groups)
    requires VSwitchResolved(s, d3, vSwitch) && GroupResolved(s, d4, group)
    ensures var d := d1 + d2 + d3 + d4;
            ImageResolved(s, d, image) && SelectorsResolved(s, d, s.securityGroups, groups)
            && VSwitchResolved(s, d, vSwitch) && GroupResolved(s, d, group)
  {
    hide SelectorsResolved, GroupResolved, ImageResolved, VSwitchResolved;
    var d := d1 + d2 + d3 + d4;
    ImageResolvedMore(s, [], d1, d2 + d3 + d4, image);
    assert d == [] + d1 + (d2 + d3 + d4);
    VSwitchResolvedMore(s, d1 + d2, d3, d4, vSwitch);
    SelectorsResolvedMore(s, d1, d2, s.securityGroups, groups);
    SelectorsResolvedMore(s, d1 + d2, d3 + d4, s.securityGroups, groups);
    assert d == d1 + d2 + (d3 + d4);
    GroupResolvedMore(s, d1 + d2 + d3, d4, group);
  }

  lemma ImageResolvedMore(s: Spec, before: seq<Event>, d: seq<Event>, more: seq<Event>, image: string)
    ensures ImageResolved(s, d, image) ==> ImageResolved(s, before + d + more, image)
  {
    assert forall i :: 0 <= i < |d| ==> (before + d + more)[|before| + i] == d[i];
  }

  lemma VSwitchResolvedMore(s: Spec, before: seq<Event>, d: seq<Event>, more: seq<Event>, id: string)
    ensures VSwitchResolved(s, d, id) ==> VSwitchResolved(s, before + d + more, id)
  {
    assert forall i :: 0 <= i < |d| ==> (before + d + more)[|before| + i] == d[i];
  }

  method RunInstance(client: Client, s: Spec, m: Machine)
    returns (r: Result<Instance, Error>, ghost config: seq<Event>, ghost after: seq<Event>)
    requires client.Valid()
    modifies client
    ensures Extends(client, config + after) && RunCalls(s, m, config, after, client.now, r)
  {
    hide AfterRun, Justified, AllGood, AllConfig, WellFormed;
    ghost var start := client.now;
    after := [];
    var prepared;
    prepared, config := PrepareRun(client, s, m);
    assert config + after == config;
    if prepared.Failure? {
      return Failure(prepared.error), config, after;
    }
    ghost var middle := client.now;
    r, after := LaunchAndWait(client, s.region, prepared.value);
    ghost var d := JoinCalls(config, after, start, middle, client.now);
  }

  method LaunchAndWait(client: Client, region: string, run: RunRequest)
    returns (r: Result<Instance, Error>, ghost d: seq<Event>)
    requires client.Valid()
    modifies client
    ensures Extends(client, d) && AfterRun(region, d, client.now, r) && d[0].request == RunInstances(run)
    ensures PausedTimes(old(client.pauses), client.pauses, |client.pauses| - |old(client.pauses)|, 5)
    ensures |client.pauses| - |old(client.pauses)| ==
            if |d| > 1 && WaitOutcome(d[1..], d[0].response.ids, RUNNING).Failure? then |d| else |d| - 1
  {
    var response;
    response, d := Ask(client, RunInstances(run));
    if response.Failed? {
      return Failure(CreateFailed("error creating ECS instance")), d;
    }
    if |response.ids| != 1 {
      return Failure(CreateFailed("unexpected reservation creating instance")), d;
    }
    ghost var launched := d;
    client.Sleep(SETTLE_SECONDS);
    var waited, polls := WaitForInstancesStatus(client, region, [response.ids[0]], RUNNING, DEFAULT_TIMEOUT);
    assert [response.ids[0]] == response.ids;
    d := launched + polls;
    assert d[1..] == polls && d[0] == launched[0];
    if waited.Failure? {
      return Failure(CreateFailed("error waiting ECS instance to Running")), d;
    }
    if waited.value.None? || |waited.value.value| < 1 {
      return Failure(CreateFailed("ECS instance not found")), d;
    }
    r := Success(waited.value.value[0]);
  }

  /**
   Create is gated and single-shot. The calls up to RunInstances change nothing; there is at most one
   RunInstances, and there is one exactly when the spec is well formed and every lookup was answered
   well; what follows it only describes the new instance, a bounded number of times. A success is that
   instance, running.
   */
  lemma CreateIsGated(
    s: Spec, m: Machine, config: seq<Event>, after: seq<Event>, at: int, r: Result<Instance, Error>
  )
    requires RunCalls(s, m, config, after, at, r)
    ensures forall i :: 0 <= i < |config| ==> ReadOnly(config[i].request)
    ensures after != [] <==> WellFormed(s, m) && AllGood(config)
    ensures after != [] ==> after[0].request.RunInstances? && Justified(s, m, config, after[0].request.run)
    ensures forall i :: 0 < i < |after| ==>
                          after[0].response.Created? && after[i].request == DescribeByIds(s.region, after[0].response.ids)
    ensures |after| <= MAX_POLLS + 1
    ensures r.Success? ==> after != [] && after[0].response == Created([r.value.id]) && r.value.status == RUNNING
  {
    if after != [] {
      AfterRunCalls(s.region, after, at, r);
    }
  }

  /** What follows the RunInstances call, and what a success yields. */
  lemma AfterRunCalls(region: string, d: seq<Event>, at: int, r: Result<Instance, Error>)
    requires AfterRun(region, d, at, r)
    ensures forall i :: 0 < i < |d| ==>
                          d[0].response.Created? && d[i].request == DescribeByIds(region, d[0].response.ids)
    ensures |d| <= MAX_POLLS + 1
    ensures r.Success? ==> d[0].response == Created([r.value.id]) && r.value.status == RUNNING
  {
    if |d| > 1 {
      var ids, polls := d[0].response.ids, d[1..];
      assert ids == [ids[0]];
      assert forall i :: 0 < i < |d| ==> d[i] == polls[i - 1];
      if r.Success? {
        WaitForOne(polls, region, ids[0], RUNNING);
      }
    }
  }
}
