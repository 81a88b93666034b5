/**
 Update reaches a fixpoint in one step. Here the cloud holds still: a fixed list of instances with
 distinct IDs answers every describe, and only a tag correction changes it.
 */
module Fixpoint {
  import opened Wrappers
  import opened Tags
  import opened Ecs
  import opened Lookup
  import opened Newest
  import opened Polling
  import opened Conditions
  import opened Machines
  import opened Creation
  import opened Protocol
  import opened Operations

  type World = seq<Instance>

  predicate DistinctIds(w: World) {
    forall i, j :: 0 <= i < j < |w| ==> w[i].id != w[j].id
  }

  function IdIn(ids: seq<string>): Instance -> bool {
    (i: Instance) => i.id in ids
  }

  function TagsMatch(filter: seq<Tag>): Instance -> bool {
    (i: Instance) => Matches(i.tags, filter)
  }

  /** The answer of a cloud that holds these instances and fails no call. */
  function WorldAnswer(w: World, request: Request): Response {
    match request
    case DescribeByIds(_, ids) => Instances(Kept(w, IdIn(ids)))
    case DescribeByTags(_, filter) => Instances(Kept(w, TagsMatch(filter)))
    case TagResources(_, _, _) => Done
    case _ => Failed("not a call of an update")
  }

  predicate AnsweredBy(w: World, d: seq<Event>) {
    forall k :: 0 <= k < |d| ==> d[k].response == WorldAnswer(w, d[k].request)
  }

  function TaggedInstance(i: Instance, id: string, tags: seq<Tag>): Instance {
    if i.id == id then i.(tags := Retagged(i.tags, tags)) else i
  }

  function TaggedWorld(w: World, id: string, tags: seq<Tag>): (after: World)
    ensures |after| == |w| && forall k :: 0 <= k < |w| ==> after[k] == TaggedInstance(w[k], id, tags)
  {
    seq(|w|, k requires 0 <= k < |w| => TaggedInstance(w[k], id, tags))
  }

  /** The cloud after the calls of an update: at most one tag correction. */
  function WorldAfter(w: World, tag: seq<Event>): World {
    if tag != [] && tag[0].request.TagResources? then TaggedWorld(w, tag[0].request.id, tag[0].request.tags) else w
  }

  /** The instance that an update picks. */
  function Picked(o: Object, look: seq<Event>, at: int): Result<Instance, Error> {
    UpdateMachineResult(o.machine, LookupOutcome(o, look), at)
  }

  /** An update that picked an instance went through to its end, possibly asking to be called again. */
  predicate Completed(r: Result<(), Error>) {
    r.Success? || r == Failure(RequeueAfter(REQUEUE_AFTER))
  }

  // --- Writing the same instance twice ---

  lemma SetTwice(conditions: seq<Condition>, c: Condition, t1: int, t2: int)
    ensures WithCondition(WithCondition(conditions, c, t1), c, t2) == WithCondition(conditions, c, t1)
  {
    var once := WithCondition(conditions, c, t1);
    EntryAfterSet(conditions, c, c.kind, t1);
    var i := Find(once, c.kind).value;
    assert once[i].reason == c.reason && once[i].message == c.message;
    assert once[i := once[i]] == once;
  }

  /** An instance and its retagged version look the same to everything but the tag check. */
  predicate SameButTags(a: Instance, b: Instance) {
    a == b.(tags := a.tags)
  }

  lemma WriteTwice(parse: ParseIP, o: Object, a: Instance, b: Instance, t1: int, t2: int)
    requires SameButTags(a, b)
    ensures var once := WithStatus(parse, Written(o, a), Some(a), ConditionSuccess(), t1);
            WithStatus(parse, Written(once, b), Some(b), ConditionSuccess(), t2) == once
  {
    var w := Written(o, a);
    var once := WithStatus(parse, w, Some(a), ConditionSuccess(), t1);
    assert Written(once, b) == once by {
      SpecificsTwice(once.machine, a, b);
    }
    assert NodeAddresses(parse, a) == NodeAddresses(parse, b);
    SetTwice(o.status.conditions, ConditionSuccess(), t1, t2);
  }

  lemma SpecificsTwice(m: Machine, a: Instance, b: Instance)
    requires SameButTags(a, b)
    requires m.providerID == Some(ProviderIDOf(a.regionID, a.id))
    requires m.labels.Some? && m.specLabels.Some? && m.annotations.Some?
    requires exists before: Machine :: m.labels == WithSpecifics(before, a).labels
                                       && m.annotations == WithSpecifics(before, a).annotations
    ensures WithSpecifics(WithProviderID(m, b), b) == m
  {
    var again := WithSpecifics(WithProviderID(m, b), b);
    assert again.labels.value == m.labels.value;
    assert again.annotations.value == m.annotations.value;
  }

  // --- What the fixed cloud answers ---

  /** The record of an ID, when the cloud has one. */
  lemma {:induction false} KeptById(w: World, i: Instance)
    requires DistinctIds(w)
    ensures i in w ==> Kept(w, IdIn([i.id])) == [i]
    ensures (forall r <- w :: r.id != i.id) ==> Kept(w, IdIn([i.id])) == []
  {
    if w != [] {
      var n := |w| - 1;
      assert forall r :: r in w <==> r in w[..n] || r == w[n] by {
        assert w == w[..n] + [w[n]];
      }
      KeptById(w[..n], i);
      if i == w[n] {
        assert forall r <- w[..n] :: r.id != i.id;
      } else if i in w[..n] {
        assert i.id != w[n].id;
      }
    }
  }

  /** A correction that changes the verdict of no instance changes each kept record in place. */
  lemma {:induction false} KeptTagged(w: World, id: string, tags: seq<Tag>, keep: Instance -> bool)
    requires forall k :: 0 <= k < |w| ==> (keep(w[k]) <==> keep(TaggedInstance(w[k], id, tags)))
    ensures Kept(TaggedWorld(w, id, tags), keep) == TaggedWorld(Kept(w, keep), id, tags)
  {
    if w == [] {
      assert TaggedWorld(w, id, tags) == [];
    } else {
      hide TaggedInstance, Kept, TaggedWorld;
      var n := |w| - 1;
      var before, last := w[..n], w[n];
      KeptTagged(before, id, tags, keep);
      assert w == before + [last];
      TaggedSnoc(before, last, id, tags);
      KeptSnoc(before, last, keep);
      KeptSnoc(TaggedWorld(before, id, tags), TaggedInstance(last, id, tags), keep);
      if keep(last) {
        TaggedSnoc(Kept(before, keep), last, id, tags);
      }
    }
  }

  lemma KeptSnoc(w: World, i: Instance, keep: Instance -> bool)
    ensures Kept(w + [i], keep) == if keep(i) then Kept(w, keep) + [i] else Kept(w, keep)
  {
    assert (w + [i])[..|w|] == w;
  }

  lemma TaggedSnoc(w: World, i: Instance, id: string, tags: seq<Tag>)
    ensures TaggedWorld(w + [i], id, tags) == TaggedWorld(w, id, tags) + [TaggedInstance(i, id, tags)]
  {
  }

  /** The instances that carry the machine's lookup tags. */
  function Matching(w: World, cluster: string, name: string): seq<Instance> {
    Kept(w, TagsMatch(LookupTags(cluster, name)))
  }

  /** Instance i is the one a tag lookup ends up with. */
  predicate LastMatching(w: World, cluster: string, name: string, i: Instance) {
    && Aliased(Matching(w, cluster, name), Supported) != []
    && Matching(w, cluster, name)[|Matching(w, cluster, name)| - 1] == i
  }

  lemma TagPick(w: World, m: Machine, region: string, d: seq<Event>)
    requires TagCalls(m, region, d) && AnsweredBy(w, d) && ClusterID(m).Some?
    ensures TagOutcome(d) == Success(Aliased(Matching(w, ClusterID(m).value, m.name), Supported))
  {
  }

  lemma ByIdPick(w: World, region: string, i: Instance)
    requires DistinctIds(w) && i in w
    ensures ByIdResult(WorldAnswer(w, DescribeByIds(region, [i.id]))) ==
            if Supported(i) then Success(i) else Failure(UnsupportedState)
  {
    KeptById(w, i);
  }

  /** The instance that a lookup leads to is in the cloud; without support it came by its tags. */
  lemma PickedIsThere(s: Spec, o: Object, look: seq<Event>, at: int, w: World, i: Instance)
    requires LookupCalls(o, s.region, look) && AnsweredBy(w, look) && Picked(o, look, at) == Success(i)
    requires ClusterID(o.machine).Some?
    ensures i in w
    ensures !Supported(i) ==> LastMatching(w, ClusterID(o.machine).value, o.machine.name, i)
  {
    hide Kept, Supported, ClusterID;
    var cluster, name := ClusterID(o.machine).value, o.machine.name;
    if Recorded(o.status) && ByIdResult(look[0].response).Success? {
      ByIdIsSupported(look[0].response);
      assert look[0].response.records[0] in Kept(w, IdIn([o.status.instanceID.value]));
    } else {
      var d := if Recorded(o.status) then look[1..] else look;
      TagPick(w, o.machine, s.region, d);
      assert i in Matching(w, cluster, name);
    }
  }

  lemma ByIdIsSupported(response: Response)
    ensures ByIdResult(response).Success? ==> response.Instances? && response.records == [ByIdResult(response).value]
                                              && Supported(response.records[0])
  {
  }

  /**
   The second lookup, from an object that records instance i against a cloud that holds it: by ID when
   its state is supported, by tags to the same record otherwise.
   */
  lemma SecondLookup(s: Spec, o: Object, look: seq<Event>, at: int, w: World, i: Instance)
    requires LookupCalls(o, s.region, look) && AnsweredBy(w, look) && DistinctIds(w)
    requires o.status.instanceID == Some(i.id) && i.id != "" && i in w && ClusterID(o.machine).Some?
    requires !Supported(i) ==> LastMatching(w, ClusterID(o.machine).value, o.machine.name, i)
    ensures Picked(o, look, at) == Success(i)
    ensures look != [] && look[0].request == DescribeByIds(s.region, [i.id])
    ensures Supported(i) ==> |look| == 1
    ensures forall k :: 0 <= k < |look| ==> ReadOnly(look[k].request)
  {
    hide Kept, Supported, DistinctIds, ClusterID, WorldAnswer;
    ByIdPick(w, s.region, i);
    LookupIsReadOnly(s.region, o, look);
    if !Supported(i) {
      assert AnsweredBy(w, look[1..]);
      TagPick(w, o.machine, s.region, look[1..]);
    }
  }

  /** How the tag correction of instance i moves the cloud on, seen from the next lookup. */
  lemma CorrectedWorld(w: World, i: Instance, cluster: string, name: string)
    requires DistinctIds(w) && i in w && name != ""
    ensures var j := TaggedInstance(i, i.id, ManagedTags(cluster, name));
            var after := TaggedWorld(w, i.id, ManagedTags(cluster, name));
            && DistinctIds(after) && j in after && SameButTags(j, i)
            && !NeedsRetag(j.tags, cluster, name)
            && (LastMatching(w, cluster, name, i) ==> LastMatching(after, cluster, name, j))
  {
    hide Kept, Supported, NeedsRetag, ManagedTags, LookupTags, Retagged, Matches, LastMatching;
    var tags := ManagedTags(cluster, name);
    CorrectionConverges(i.tags, cluster, name);
    var k :| 0 <= k < |w| && w[k] == i;
    assert TaggedWorld(w, i.id, tags)[k] == TaggedInstance(i, i.id, tags);
    if LastMatching(w, cluster, name, i) {
      CorrectedMatching(w, i, cluster, name);
    }
  }

  lemma CorrectedMatching(w: World, i: Instance, cluster: string, name: string)
    requires DistinctIds(w) && i in w && LastMatching(w, cluster, name, i)
    requires Matches(Retagged(i.tags, ManagedTags(cluster, name)), LookupTags(cluster, name))
    ensures LastMatching(TaggedWorld(w, i.id, ManagedTags(cluster, name)), cluster, name,
                         TaggedInstance(i, i.id, ManagedTags(cluster, name)))
  {
    hide Supported, NeedsRetag, ManagedTags, LookupTags, Retagged, Matches;
    var tags := ManagedTags(cluster, name);
    var keep := TagsMatch(LookupTags(cluster, name));
    var matching := Matching(w, cluster, name);
    assert matching[|matching| - 1] in matching;
    SameIdSame(w, i);
    assert forall r <- w :: keep(r) <==> keep(TaggedInstance(r, i.id, tags));
    KeptTagged(w, i.id, tags, keep);
    SupportIgnoresTags(matching, i.id, tags);
    KeptTagged(matching, i.id, tags, Supported);
  }

  lemma SameIdSame(w: World, i: Instance)
    requires DistinctIds(w) && i in w
    ensures forall r <- w :: r.id == i.id ==> r == i
  {
  }

  lemma SupportIgnoresTags(list: seq<Instance>, id: string, tags: seq<Tag>)
    ensures forall r <- list :: Supported(r) <==> Supported(TaggedInstance(r, id, tags))
  {
  }

  /**
   Update is a fixpoint: for a valid machine with a name, after one update that ran to its end, a second
   one against the cloud as the first left it picks the same instance (by its ID when its state is
   supported), makes no changing call, and leaves the whole object and the result as they were, however
   much later it runs.
   */
  lemma UpdateIsFixpoint(
    s: Spec, parse: ParseIP, w: World, o: Object, i: Instance,
    look1: seq<Event>, tag1: seq<Event>, at1: int, once: Object, r1: Result<(), Error>,
    look2: seq<Event>, tag2: seq<Event>, at2: int, twice: Object, r2: Result<(), Error>
  )
    requires DistinctIds(w) && ValidMachine(o.machine) && o.machine.name != ""
    requires UpdateCalls(s, parse, o, look1, tag1, at1, once, r1) && AnsweredBy(w, look1 + tag1)
    requires Picked(o, look1, at1) == Success(i) && Completed(r1)
    requires UpdateCalls(s, parse, once, look2, tag2, at2, twice, r2) && AnsweredBy(WorldAfter(w, tag1), look2 + tag2)
    ensures twice == once && r2 == r1
    ensures tag2 == [] && forall k :: 0 <= k < |look2| ==> ReadOnly(look2[k].request)
    ensures Picked(once, look2, at2).Success? && Picked(once, look2, at2).value.id == i.id
    ensures look2 != [] && look2[0].request == DescribeByIds(s.region, [i.id])
    ensures Supported(i) ==> |look2| == 1
  {
    hide LookupCalls, LookupOutcome, NeedsRetag, Written, WithStatus, ManagedTags, Supported, DistinctIds,
         WorldAnswer, LastMatching, ClusterID, ValidMachine, UpdateInstance, TaggedWorld;
    ValidHasCluster(o.machine);
    assert forall k :: 0 <= k < |look1| ==> (look1 + tag1)[k] == look1[k];
    assert forall k :: 0 <= k < |look2| ==> (look2 + tag2)[k] == look2[k];
    PickedIsThere(s, o, look1, at1, w, i);
    var cluster, name := ClusterID(o.machine).value, o.machine.name;
    CompletedUpdate(s, parse, o, i, tag1, at1, once, r1);
    var j := i;
    if NeedsRetag(i.tags, cluster, name) {
      CorrectedWorld(w, i, cluster, name);
      j := TaggedInstance(i, i.id, ManagedTags(cluster, name));
    }
    SupportedAlike(i, j);
    SecondLookup(s, once, look2, at2, WorldAfter(w, tag1), j);
    WriteTwice(parse, o, i, j, at1, at2);
    SecondUpdate(s, parse, once, j, tag2, at2, twice, r2);
  }

  /** Without a name there is no fixpoint: every update that picks an instance tags it again. */
  lemma NamelessNeverSettles(
    s: Spec, parse: ParseIP, o: Object, look: seq<Event>, tag: seq<Event>, at: int, after: Object, r: Result<(), Error>,
    i: Instance
  )
    requires ValidMachine(o.machine) && UpdateCalls(s, parse, o, look, tag, at, after, r)
    requires Picked(o, look, at) == Success(i) && i.id != "" && o.machine.name == ""
    ensures |tag| == 1 && tag[0].request.TagResources?
  {
  }

  lemma ValidHasCluster(m: Machine)
    ensures ValidMachine(m) ==> ClusterID(m).Some?
  {
  }

  lemma SupportedAlike(i: Instance, j: Instance)
    requires SameButTags(i, j)
    ensures Supported(i) <==> Supported(j)
  {
  }

  /** The state a completed update leaves behind. */
  lemma CompletedUpdate(
    s: Spec, parse: ParseIP, o: Object, i: Instance, tag: seq<Event>, at: int, after: Object, r: Result<(), Error>
  )
    requires ValidMachine(o.machine) && UpdateInstance(s, parse, o, i, tag, at, after, r) && Completed(r)
    ensures i.id != "" && UpdateDone(parse, o, i, at, after, r)
    ensures after.status.instanceID == Some(i.id)
    ensures after.machine.name == o.machine.name && ClusterID(after.machine) == ClusterID(o.machine)
    ensures ValidMachine(after.machine)
    ensures if NeedsRetag(i.tags, ClusterID(o.machine).value, o.machine.name) then
              |tag| == 1 && tag[0].request == TagResources(s.region, i.id, ManagedTags(ClusterID(o.machine).value, o.machine.name))
            else tag == []
  {
    WritesKeepCluster(o.machine, i);
  }

  /** An update whose instance needs no correction just writes it. */
  lemma SecondUpdate(
    s: Spec, parse: ParseIP, o: Object, j: Instance, tag: seq<Event>, at: int, after: Object, r: Result<(), Error>
  )
    requires ClusterID(o.machine).Some? && UpdateInstance(s, parse, o, j, tag, at, after, r)
    requires j.id != "" && !NeedsRetag(j.tags, ClusterID(o.machine).value, o.machine.name)
    ensures tag == [] && UpdateDone(parse, o, j, at, after, r)
  {
  }
}
