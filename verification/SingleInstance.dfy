/**
 At most one live instance per machine. The cloud is a history of worlds, one before each call of a run
 and one after the last. Between calls the environment may change statuses and release instances, and
 even create others, as long as nobody else makes an instance carry this machine's lookup tags. A tag
 lookup may be answered from an old world, no older than a given lag.
 */
module SingleInstance {
  import opened Wrappers
  import opened Tags
  import opened Ecs
  import opened Lookup
  import opened Newest
  import opened Polling
  import opened Conditions
  import opened Machines
  import opened Creation
  import opened Protocol
  import opened Operations
  import opened Runs

  /** The instances that exist at one moment, by ID. */
  type World = map<string, Instance>

  predicate Creates(e: Event, id: string) {
    e.request.RunInstances? && e.response == Created([id])
  }

  predicate Corrects(e: Event, id: string) {
    e.request.TagResources? && e.request.id == id && !e.response.Failed?
  }

  /** One of the first k calls created this instance. */
  predicate Ours(log: seq<Event>, k: nat, id: string) {
    exists c :: 0 <= c < k && c < |log| && Creates(log[c], id)
  }

  predicate Carries(w: World, id: string, filter: seq<Tag>) {
    id in w && Matches(w[id].tags, filter)
  }

  /**
   From the world w before call k to the world after it: states are those of existing instances, tags change only by
   TagResources, a created ID is new and its instance has the requested tags, a released ID does not come
   back, and otherwise no instance starts to carry the tags. A successful RunInstances creates exactly one.
   */
  ghost predicate Evolves(log: seq<Event>, k: nat, w: World, after: World, filter: seq<Tag>)
    requires k < |log|
  {
    var e := log[k];
    && (forall id :: id in after ==> after[id].id == id && Live(after[id]))
    && (forall id :: Carries(after, id, filter) ==>
          Creates(e, id) || Carries(w, id, filter) || (id in w && Corrects(e, id)))
    && (forall id :: id in after && id in w ==>
          after[id].tags == if Corrects(e, id) then Retagged(w[id].tags, e.request.tags) else w[id].tags)
    && (forall id :: Creates(e, id) ==>
          !Ours(log, k, id) && id !in w && (id in after ==> after[id].tags == e.request.run.tags))
    && (forall id :: Ours(log, k, id) && id !in w ==> id !in after)
    && (e.request.RunInstances? && e.response.Created? ==> |e.response.ids| == 1)
  }

  /** The records are exactly the instances of w that match the filter. */
  ghost predicate Sees(records: seq<Instance>, w: World, filter: seq<Tag>) {
    && (forall r <- records :: Carries(w, r.id, filter) && w[r.id] == r)
    && (forall id :: Carries(w, id, filter) ==> w[id] in records)
  }

  /**
   A tag lookup is answered from the present world or from one that was still current less than lag
   seconds ago: whatever was done lag seconds ago or earlier is visible.
   */
  ghost predicate ViewOk(log: seq<Event>, worlds: seq<World>, lag: int, k: nat, j: nat)
    requires |worlds| == |log| + 1 && k < |log|
  {
    && log[k].request.DescribeByTags? && log[k].response.Instances?
    && j <= k && (j == k || log[j].at > log[k].at - lag)
    && Sees(log[k].response.records, worlds[j], log[k].request.filter)
  }

  ghost predicate Admissible(log: seq<Event>, worlds: seq<World>, lag: int, filter: seq<Tag>) {
    && |worlds| == |log| + 1
    && Chronological(log)
    && (forall id :: !Carries(worlds[0], id, filter))
    && (forall k: nat :: k < |log| ==> Evolves(log, k, worlds[k], worlds[k + 1], filter))
    && (forall k: nat :: k < |log| && log[k].request.DescribeByTags? && log[k].response.Instances? ==>
          exists j: nat :: ViewOk(log, worlds, lag, k, j))
  }

  // --- Histories in which the calls are disciplined ---

  /**
   What the actuator must keep to: it creates an instance with the lookup tags only when none of its
   instances is left, and it corrects the tags of its own instances only.
   */
  ghost predicate Disciplined(log: seq<Event>, worlds: seq<World>, cluster: string, name: string, k: nat)
    requires |worlds| == |log| + 1 && k < |log|
  {
    var e := log[k];
    && (e.request.RunInstances? ==>
          Matches(e.request.run.tags, LookupTags(cluster, name)) && forall id :: id in worlds[k] ==> !Ours(log, k, id))
    && (e.request.TagResources? ==> e.request.tags == ManagedTags(cluster, name) && Ours(log, k, e.request.id))
  }

  ghost predicate DisciplinedUpTo(log: seq<Event>, worlds: seq<World>, cluster: string, name: string, k: nat)
    requires |worlds| == |log| + 1 && k <= |log|
  {
    forall i: nat :: i < k ==> Disciplined(log, worlds, cluster, name, i)
  }

  /** The live instances of this machine are the ones it created, and there is at most one. */
  ghost predicate OnlyOurs(log: seq<Event>, k: nat, w: World, filter: seq<Tag>) {
    && (forall id :: id in w ==> (Carries(w, id, filter) <==> Ours(log, k, id)))
    && (forall a, b :: a in w && b in w && Ours(log, k, a) && Ours(log, k, b) ==> a == b)
  }

  lemma OursGrows(log: seq<Event>, k: nat)
    requires k < |log|
    ensures forall id :: Ours(log, k + 1, id) <==> Ours(log, k, id) || Creates(log[k], id)
  {
    forall id
      ensures Ours(log, k + 1, id) <==> Ours(log, k, id) || Creates(log[k], id)
    {
      if Ours(log, k, id) {
        var c :| 0 <= c < k && Creates(log[c], id);
      }
    }
  }

  lemma OneStep(log: seq<Event>, worlds: seq<World>, cluster: string, name: string, k: nat)
    requires |worlds| == |log| + 1 && k < |log|
    requires Evolves(log, k, worlds[k], worlds[k + 1], LookupTags(cluster, name))
    requires Disciplined(log, worlds, cluster, name, k)
    requires OnlyOurs(log, k, worlds[k], LookupTags(cluster, name))
    ensures OnlyOurs(log, k + 1, worlds[k + 1], LookupTags(cluster, name))
  {
    hide LookupTags, ManagedTags, Retagged, Matches, Live;
    var filter := LookupTags(cluster, name);
    var e, w, after := log[k], worlds[k], worlds[k + 1];
    OursGrows(log, k);
    forall id | id in after
      ensures Carries(after, id, filter) <==> Ours(log, k + 1, id)
      ensures Ours(log, k + 1, id) ==> Creates(e, id) || id in w
    {
      if id in w && Corrects(e, id) {
        CorrectionConverges(w[id].tags, cluster, name);
      }
    }
  }

  /** As long as every call so far was disciplined, at most one instance is live, and it is ours. */
  lemma {:induction false} DisciplineKeepsOne(
    log: seq<Event>, worlds: seq<World>, lag: int, cluster: string, name: string, k: nat
  )
    requires Admissible(log, worlds, lag, LookupTags(cluster, name)) && k <= |log|
    requires DisciplinedUpTo(log, worlds, cluster, name, k)
    ensures OnlyOurs(log, k, worlds[k], LookupTags(cluster, name))
  {
    hide LookupTags, Evolves, Disciplined, OnlyOurs;
    if k == 0 {
      NoneAtFirst(log, worlds[0], LookupTags(cluster, name));
    } else {
      DisciplineKeepsOne(log, worlds, lag, cluster, name, k - 1);
      OneStep(log, worlds, cluster, name, k - 1);
    }
  }

  lemma NoneAtFirst(log: seq<Event>, w: World, filter: seq<Tag>)
    requires forall id :: !Carries(w, id, filter)
    ensures OnlyOurs(log, 0, w, filter)
  {
  }

  /** An instance that is live now was live at every moment since its creation. */
  lemma {:induction false} LiveSinceCreation(
    log: seq<Event>, worlds: seq<World>, lag: int, cluster: string, name: string, j: nat, k: nat, id: string
  )
    requires Admissible(log, worlds, lag, LookupTags(cluster, name)) && j <= k <= |log|
    requires Ours(log, j, id) && id in worlds[k]
    ensures id in worlds[j]
    decreases k - j
  {
    if j < k {
      OursGrows(log, j);
      LiveSinceCreation(log, worlds, lag, cluster, name, j + 1, k, id);
      assert Evolves(log, j, worlds[j], worlds[j + 1], LookupTags(cluster, name));
    }
  }

  // --- The actuator is disciplined ---

  /** The outer controller creates only right after the machine was found absent. */
  ghost predicate Controlled(run: seq<Step>) {
    forall n :: 0 <= n < |run| && run[n].op.Create? ==>
      n > 0 && run[n - 1].op.Exists? && run[n - 1].op.present == Success(false)
  }

  /** Every creation in the first k calls lies at least the settling pause before the last of them. */
  ghost predicate Settled(log: seq<Event>, k: nat) {
    k <= |log| && forall c, id :: 0 <= c < k && Creates(log[c], id) ==> c < k - 1 && log[c].at + SETTLE_SECONDS <= log[k - 1].at
  }

  /** The object records no instance but one of ours. */
  ghost predicate RecordsOurs(log: seq<Event>, k: nat, o: Object) {
    Recorded(o.status) ==> Ours(log, k, o.status.instanceID.value)
  }

  /** The calls of a step that neither create nor tag keep the discipline, and the creations stay settled. */
  lemma QuietCalls(log: seq<Event>, worlds: seq<World>, cluster: string, name: string, p: nat, q: nat)
    requires |worlds| == |log| + 1 && Chronological(log) && p <= q <= |log|
    requires forall k :: p <= k < q ==> !log[k].request.RunInstances? && !log[k].request.TagResources?
    requires DisciplinedUpTo(log, worlds, cluster, name, p)
    ensures DisciplinedUpTo(log, worlds, cluster, name, q)
    ensures Settled(log, p) ==> Settled(log, q)
    ensures forall id :: Ours(log, q, id) <==> Ours(log, p, id)
  {
    forall id | Ours(log, q, id)
      ensures Ours(log, p, id)
    {
      var c :| 0 <= c < q && Creates(log[c], id);
    }
  }

  /**
   A tag lookup that shows no live instance, made when every creation has settled and with a lag of
   at most the settling pause, proves that no instance of ours is left.
   */
  lemma AbsenceIsReal(log: seq<Event>, worlds: seq<World>, lag: int, cluster: string, name: string, q: nat)
    requires lag <= SETTLE_SECONDS
    requires Admissible(log, worlds, lag, LookupTags(cluster, name)) && q < |log|
    requires DisciplinedUpTo(log, worlds, cluster, name, q) && Settled(log, q)
    requires log[q].request.DescribeByTags? && log[q].request.filter == LookupTags(cluster, name)
    requires log[q].response.Instances? && forall r <- log[q].response.records :: !Live(r)
    ensures forall id :: id in worlds[q] ==> !Ours(log, q, id)
  {
    hide LookupTags, OnlyOurs, Matches, Live, Settled, Sees;
    var j: nat :| ViewOk(log, worlds, lag, q, j);
    forall id | id in worlds[q]
      ensures !Ours(log, q, id)
    {
      if Ours(log, q, id) {
        LiveIsSeen(log, worlds, lag, cluster, name, q, j, id);
      }
    }
  }

  /** In such a lookup, an instance of ours that is left shows up. */
  lemma LiveIsSeen(
    log: seq<Event>, worlds: seq<World>, lag: int, cluster: string, name: string, q: nat, j: nat, id: string
  )
    requires lag <= SETTLE_SECONDS
    requires Admissible(log, worlds, lag, LookupTags(cluster, name)) && q < |log|
    requires DisciplinedUpTo(log, worlds, cluster, name, q) && Settled(log, q)
    requires ViewOk(log, worlds, lag, q, j) && log[q].request.filter == LookupTags(cluster, name)
    requires Ours(log, q, id) && id in worlds[q]
    ensures exists r <- log[q].response.records :: Live(r)
  {
    hide LookupTags, OnlyOurs, Matches, Live, Settled, Sees;
    var c :| 0 <= c < q && Creates(log[c], id);
    SettledBefore(log, q, c, id);
    if j < q {
      assert log[q - 1].at <= log[q].at;
      assert log[c].at < log[j].at;
    }
    assert c < j && Ours(log, j, id);
    LiveSinceCreation(log, worlds, lag, cluster, name, j, q, id);
    DisciplineKeepsOne(log, worlds, lag, cluster, name, j);
    OursIsSeen(log, worlds, cluster, name, j, id, log[q].response.records);
    assert Evolves(log, j - 1, worlds[j - 1], worlds[j], LookupTags(cluster, name));
  }

  lemma SettledBefore(log: seq<Event>, q: nat, c: nat, id: string)
    requires Settled(log, q) && c < q && Creates(log[c], id)
    ensures c < q - 1 && log[c].at + SETTLE_SECONDS <= log[q - 1].at
  {
  }

  lemma OursIsSeen(
    log: seq<Event>, worlds: seq<World>, cluster: string, name: string, j: nat, id: string, records: seq<Instance>
  )
    requires |worlds| == |log| + 1 && j <= |log| && id in worlds[j] && Ours(log, j, id)
    requires OnlyOurs(log, j, worlds[j], LookupTags(cluster, name))
    requires Sees(records, worlds[j], LookupTags(cluster, name))
    ensures worlds[j][id] in records
  {
  }

  // --- The steps of a run, one kind at a time ---

  /** The instance an update picks is one of ours: recorded, or seen by its tags. */
  lemma PickedIsOurs(
    s: Spec, o: Object, look: seq<Event>, at: int, i: Instance,
    log: seq<Event>, worlds: seq<World>, lag: int, cluster: string, name: string, p: nat
  )
    requires Admissible(log, worlds, lag, LookupTags(cluster, name)) && p + |look| <= |log|
    requires DisciplinedUpTo(log, worlds, cluster, name, p) && RecordsOurs(log, p, o)
    requires ClusterID(o.machine) == Some(cluster) && o.machine.name == name
    requires LookupCalls(o, s.region, look) && forall k :: 0 <= k < |look| ==> log[p + k] == look[k]
    requires UpdateMachineResult(o.machine, LookupOutcome(o, look), at) == Success(i)
    ensures Ours(log, p + |look|, i.id)
  {
    hide LookupTags, OnlyOurs, Matches, Live, Sees, Evolves, Disciplined;
    if Recorded(o.status) && ByIdResult(look[0].response).Success? {
      ByIdIsRequested(s.region, o.status.instanceID.value, look[0].response);
      var c :| 0 <= c < p && Creates(log[c], i.id);
    } else {
      var q := p + |look| - 1;
      var d := if Recorded(o.status) then look[1..] else look;
      assert d[0] == log[q];
      QuietCalls(log, worlds, cluster, name, p, q) by {
        LookupIsReadOnly(s.region, o, look);
        assert forall k :: p <= k < q ==> log[k] == look[k - p];
      }
      var j: nat :| ViewOk(log, worlds, lag, q, j);
      DisciplinePrefix(log, worlds, cluster, name, j, q);
      DisciplineKeepsOne(log, worlds, lag, cluster, name, j);
      SeenIsOurs(log, worlds, cluster, name, j, i, log[q].response.records);
      var c :| 0 <= c < j && Creates(log[c], i.id);
    }
  }

  lemma DisciplinePrefix(log: seq<Event>, worlds: seq<World>, cluster: string, name: string, j: nat, q: nat)
    requires |worlds| == |log| + 1 && j <= q <= |log| && DisciplinedUpTo(log, worlds, cluster, name, q)
    ensures DisciplinedUpTo(log, worlds, cluster, name, j)
  {
  }

  lemma ByIdIsRequested(region: string, id: string, response: Response)
    requires Answers(DescribeByIds(region, [id]), response) && ByIdResult(response).Success?
    ensures ByIdResult(response).value.id == id
  {
    assert response.records[0].id in [id];
  }

  lemma SeenIsOurs(
    log: seq<Event>, worlds: seq<World>, cluster: string, name: string, j: nat, i: Instance, records: seq<Instance>
  )
    requires |worlds| == |log| + 1 && j <= |log| && i in records
    requires OnlyOurs(log, j, worlds[j], LookupTags(cluster, name))
    requires Sees(records, worlds[j], LookupTags(cluster, name))
    ensures Ours(log, j, i.id)
  {
  }

  /** What every step of a run keeps: discipline, settled creations, and a record of our own instance only. */
  ghost predicate Sound(log: seq<Event>, worlds: seq<World>, cluster: string, name: string, k: nat, o: Object) {
    && |worlds| == |log| + 1 && k <= |log|
    && DisciplinedUpTo(log, worlds, cluster, name, k)
    && Settled(log, k)
    && RecordsOurs(log, k, o)
  }

  /** The calls of a step, at their place in the log. */
  predicate At(log: seq<Event>, p: nat, calls: seq<Event>) {
    p + |calls| <= |log| && forall k :: 0 <= k < |calls| ==> log[p + k] == calls[k]
  }

  lemma AtSplits(log: seq<Event>, p: nat, a: seq<Event>, b: seq<Event>)
    requires At(log, p, a + b)
    ensures At(log, p, a) && At(log, p + |a|, b)
  {
    assert forall k :: 0 <= k < |a| ==> (a + b)[k] == a[k];
    assert forall k :: 0 <= k < |b| ==> (a + b)[|a| + k] == b[k];
  }

  lemma QuietStep(
    log: seq<Event>, worlds: seq<World>, cluster: string, name: string, p: nat, calls: seq<Event>,
    before: Object, after: Object
  )
    requires Sound(log, worlds, cluster, name, p, before) && Chronological(log) && At(log, p, calls)
    requires forall k :: 0 <= k < |calls| ==> !calls[k].request.RunInstances? && !calls[k].request.TagResources?
    requires after.status.instanceID == before.status.instanceID || !Recorded(after.status)
    ensures Sound(log, worlds, cluster, name, p + |calls|, after)
    ensures forall id :: Ours(log, p + |calls|, id) <==> Ours(log, p, id)
  {
    hide Disciplined;
    assert forall k :: p <= k < p + |calls| ==> log[k] == calls[k - p];
    QuietCalls(log, worlds, cluster, name, p, p + |calls|);
  }

  lemma UpdateKeeps(
    s: Spec, parse: ParseIP, o: Object, look: seq<Event>, tag: seq<Event>, at: int, after: Object, r: Result<(), Error>,
    log: seq<Event>, worlds: seq<World>, lag: int, cluster: string, name: string, p: nat
  )
    requires Admissible(log, worlds, lag, LookupTags(cluster, name)) && Sound(log, worlds, cluster, name, p, o)
    requires UpdateCalls(s, parse, o, look, tag, at, after, r) && At(log, p, look + tag)
    requires ClusterID(o.machine) == Some(cluster) && o.machine.name == name
    ensures Sound(log, worlds, cluster, name, p + |look + tag|, after)
  {
    hide LookupCalls, LookupOutcome, ClusterID, LookupTags, Sound, At, UpdateInstance, AfterUpdateMachine, Admissible;
    AtSplits(log, p, look, tag);
    IsOrdered(log, worlds, lag, LookupTags(cluster, name));
    if !ValidMachine(o.machine) {
      assert look + tag == [] && p + |look + tag| == p;
    } else {
      LookupIsReadOnly(s.region, o, look);
      match UpdateMachineResult(o.machine, LookupOutcome(o, look), at)
      case Failure(e) =>
        assert look + tag == look;
        UpdateForgets(s, parse, o, look, at);
        QuietStep(log, worlds, cluster, name, p, look, o, after);
      case Success(i) =>
        QuietStep(log, worlds, cluster, name, p, look, o, o);
        UpdatePicksOurs(s, o, look, at, i, log, worlds, lag, cluster, name, p);
        TagKeeps(s, parse, o, i, tag, at, after, r, log, worlds, cluster, name, p + |look|);
    }
  }

  lemma UpdateForgets(s: Spec, parse: ParseIP, o: Object, look: seq<Event>, at: int)
    ensures var after := AfterUpdateMachine(parse, o, LookupOutcome(o, look), at);
            after.status.instanceID == o.status.instanceID || !Recorded(after.status)
  {
  }

  lemma UpdatePicksOurs(
    s: Spec, o: Object, look: seq<Event>, at: int, i: Instance,
    log: seq<Event>, worlds: seq<World>, lag: int, cluster: string, name: string, p: nat
  )
    requires Admissible(log, worlds, lag, LookupTags(cluster, name)) && Sound(log, worlds, cluster, name, p, o)
    requires LookupCalls(o, s.region, look) && At(log, p, look)
    requires ClusterID(o.machine) == Some(cluster) && o.machine.name == name
    requires UpdateMachineResult(o.machine, LookupOutcome(o, look), at) == Success(i)
    ensures Ours(log, p + |look|, i.id)
  {
    hide LookupCalls, LookupOutcome, ClusterID, LookupTags, Admissible, DisciplinedUpTo, Settled, Ours;
    PickedIsOurs(s, o, look, at, i, log, worlds, lag, cluster, name, p);
  }

  lemma TagKeeps(
    s: Spec, parse: ParseIP, o: Object, i: Instance, tag: seq<Event>, at: int, after: Object, r: Result<(), Error>,
    log: seq<Event>, worlds: seq<World>, cluster: string, name: string, q: nat
  )
    requires UpdateInstance(s, parse, o, i, tag, at, after, r) && At(log, q, tag)
    requires Sound(log, worlds, cluster, name, q, o) && Chronological(log) && Ours(log, q, i.id)
    requires ClusterID(o.machine) == Some(cluster) && o.machine.name == name
    ensures Sound(log, worlds, cluster, name, q + |tag|, after)
  {
    hide WithStatus, NodeAddresses, NeedsRetag, ClusterID, ManagedTags, LookupTags, WithSpecifics, WithProviderID;
    WrittenRecords(parse, o, i, at);
    if tag != [] {
      assert log[q] == tag[0];
      OursGrows(log, q);
    }
  }

  lemma WrittenRecords(parse: ParseIP, o: Object, i: Instance, at: int)
    ensures WithStatus(parse, Written(o, i), Some(i), ConditionSuccess(), at).status.instanceID == Some(i.id)
    ensures Written(o, i).status == o.status
  {
    hide WithCondition, NodeAddresses;
  }

  lemma CreateKeeps(
    s: Spec, parse: ParseIP, o: Object, config: seq<Event>, run: seq<Event>, made: Result<Instance, Error>, at: int,
    after: Object, r: Result<(), Error>,
    log: seq<Event>, worlds: seq<World>, lag: int, cluster: string, name: string, p: nat
  )
    requires Admissible(log, worlds, lag, LookupTags(cluster, name)) && Sound(log, worlds, cluster, name, p, o)
    requires CreateCalls(s, parse, o, config, run, made, at, after, r) && At(log, p, config + run)
    requires ClusterID(o.machine) == Some(cluster) && o.machine.name == name
    requires p > 0 && AbsentAt(log, worlds, p - 1)
    ensures Sound(log, worlds, cluster, name, p + |config + run|, after)
  {
    hide ClusterID, LookupTags, RunCalls, WithStatus, Sound, At, Admissible, Ours, AllConfig, AfterRun, Justified, Written,
         CreateCalls;
    AtSplits(log, p, config, run);
    IsOrdered(log, worlds, lag, LookupTags(cluster, name));
    if !ValidMachine(o.machine) || s.userData.Failure? {
      CreateIsRefused(s, parse, o, config, run, made, at, after, r);
      assert config + run == [] && p + |config + run| == p;
    } else {
      CreateRuns(s, parse, o, config, run, made, at, after, r);
      RunCallsConfig(s, o.machine, config, run, at, made);
      ConfigIsQuiet(config);
      CreateRecords(s, parse, o, config, run, made, at, after, r);
      if run == [] {
        assert config + run == config;
        QuietStep(log, worlds, cluster, name, p, config, o, after);
      } else {
        QuietStep(log, worlds, cluster, name, p, config, o, o);
        NoneLeft(log, worlds, lag, cluster, name, p - 1, p + |config|);
        LaunchKeeps(s, o.machine, config, run, at, made, log, worlds, lag, cluster, name, p + |config|, o, after);
      }
    }
  }

  lemma CreateIsRefused(
    s: Spec, parse: ParseIP, o: Object, config: seq<Event>, run: seq<Event>, made: Result<Instance, Error>, at: int,
    after: Object, r: Result<(), Error>
  )
    requires CreateCalls(s, parse, o, config, run, made, at, after, r)
    requires !ValidMachine(o.machine) || s.userData.Failure?
    ensures config == [] && run == [] && after == o
  {
  }

  lemma CreateRuns(
    s: Spec, parse: ParseIP, o: Object, config: seq<Event>, run: seq<Event>, made: Result<Instance, Error>, at: int,
    after: Object, r: Result<(), Error>
  )
    requires CreateCalls(s, parse, o, config, run, made, at, after, r)
    requires ValidMachine(o.machine) && s.userData.Success?
    ensures RunCalls(s, o.machine, config, run, at, made)
  {
    hide RunCalls, WithStatus;
  }

  lemma IsOrdered(log: seq<Event>, worlds: seq<World>, lag: int, filter: seq<Tag>)
    requires Admissible(log, worlds, lag, filter)
    ensures Chronological(log) && |worlds| == |log| + 1
  {
  }

  lemma NoneLeft(log: seq<Event>, worlds: seq<World>, lag: int, cluster: string, name: string, q: nat, k: nat)
    requires Admissible(log, worlds, lag, LookupTags(cluster, name)) && q <= k <= |log|
    requires forall id :: id in worlds[q] ==> !Ours(log, q, id)
    requires forall id :: Ours(log, k, id) <==> Ours(log, q, id)
    ensures forall id :: id in worlds[k] ==> !Ours(log, k, id)
  {
    hide LookupTags, Ours, Evolves;
    forall id | id in worlds[k]
      ensures !Ours(log, k, id)
    {
      if Ours(log, q, id) {
        LiveSinceCreation(log, worlds, lag, cluster, name, q, k, id);
      }
    }
  }

  lemma LaunchKeeps(
    s: Spec, m: Machine, config: seq<Event>, run: seq<Event>, at: int, made: Result<Instance, Error>,
    log: seq<Event>, worlds: seq<World>, lag: int, cluster: string, name: string, k: nat, o: Object, after: Object
  )
    requires RunCalls(s, m, config, run, at, made) && run != [] && At(log, k, run)
    requires Admissible(log, worlds, lag, LookupTags(cluster, name)) && Sound(log, worlds, cluster, name, k, o)
    requires ClusterID(m) == Some(cluster) && m.name == name
    requires forall id :: id in worlds[k] ==> !Ours(log, k, id)
    requires if made.Success? then after.status.instanceID == Some(made.value.id) else !Recorded(after.status)
    ensures Sound(log, worlds, cluster, name, k + |run|, after)
  {
    hide Evolves, Matches, ClusterID, LookupTags, Disciplined, RunCalls, AfterRun, Justified, Settled, BuiltTags;
    CreateIsGated(s, m, config, run, at, made);
    RunCallsConfig(s, m, config, run, at, made);
    LookupAgreesWithBuild(name, cluster, s.tags, name, cluster);
    OneCreated(log, worlds, lag, LookupTags(cluster, name), k);
    LaunchIsDisciplined(s, m, config, run, at, made, log, worlds, cluster, name, k);
    if made.Success? {
      assert log[k] == run[0] && Creates(log[k], made.value.id);
    }
  }

  lemma ConfigIsQuiet(config: seq<Event>)
    requires AllConfig(config)
    ensures forall k :: 0 <= k < |config| ==> !config[k].request.RunInstances? && !config[k].request.TagResources?
  {
  }

  lemma OneCreated(log: seq<Event>, worlds: seq<World>, lag: int, filter: seq<Tag>, k: nat)
    requires Admissible(log, worlds, lag, filter) && k < |log|
    ensures log[k].request.RunInstances? && log[k].response.Created? ==> |log[k].response.ids| == 1
  {
    assert Evolves(log, k, worlds[k], worlds[k + 1], filter);
  }

  lemma RunCallsConfig(s: Spec, m: Machine, config: seq<Event>, run: seq<Event>, at: int, made: Result<Instance, Error>)
    requires RunCalls(s, m, config, run, at, made)
    ensures AllConfig(config) && (run != [] ==> AfterRun(s.region, run, at, made))
    ensures run == [] ==> made.Failure?
    ensures run != [] ==> Justified(s, m, config, run[0].request.run)
  {
    hide Justified, AllGood, WellFormed;
  }

  lemma CreateRecords(
    s: Spec, parse: ParseIP, o: Object, config: seq<Event>, run: seq<Event>, made: Result<Instance, Error>, at: int,
    after: Object, r: Result<(), Error>
  )
    requires CreateCalls(s, parse, o, config, run, made, at, after, r)
    requires ValidMachine(o.machine) && s.userData.Success?
    ensures if made.Success? then after.status.instanceID == Some(made.value.id) else !Recorded(after.status)
  {
    hide RunCalls, WithCondition, NodeAddresses;
  }

  /** The RunInstances call and what follows it: disciplined, and settled by the first poll. */
  lemma LaunchIsDisciplined(
    s: Spec, m: Machine, config: seq<Event>, run: seq<Event>, at: int, made: Result<Instance, Error>,
    log: seq<Event>, worlds: seq<World>, cluster: string, name: string, k: nat
  )
    requires run != [] && AfterRun(s.region, run, at, made) && Justified(s, m, config, run[0].request.run) && At(log, k, run)
    requires |worlds| == |log| + 1 && Chronological(log)
    requires DisciplinedUpTo(log, worlds, cluster, name, k) && Settled(log, k)
    requires ClusterID(m) == Some(cluster) && m.name == name
    requires Matches(BuiltTags(name, cluster, s.tags), LookupTags(cluster, name))
    requires forall id :: id in worlds[k] ==> !Ours(log, k, id)
    requires log[k].request.RunInstances? && log[k].response.Created? ==> |log[k].response.ids| == 1
    ensures DisciplinedUpTo(log, worlds, cluster, name, k + |run|) && Settled(log, k + |run|)
    ensures forall id :: Ours(log, k, id) ==> Ours(log, k + |run|, id)
  {
    hide Matches, LookupTags, BuiltTags, ManagedTags, ClusterID, SelectorsResolved, VSwitchResolved, GroupResolved,
         ImageResolved, WaitOutcome;
    assert log[k] == run[0];
    assert Disciplined(log, worlds, cluster, name, k);
    AfterRunCalls(s.region, run, at, made);
    var n := k + |run|;
    assert forall i :: k < i < n ==> log[i] == run[i - k];
    forall c, id | 0 <= c < n && Creates(log[c], id)
      ensures c < n - 1 && log[c].at + SETTLE_SECONDS <= log[n - 1].at
    {
      if c < k {
        assert log[k - 1].at <= log[n - 1].at;
      } else {
        assert c == k && |run| > 1;
        assert log[k + 1] == run[1] && log[k + 1].at <= log[n - 1].at;
      }
    }
  }

  // --- Whole runs ---

  /** A run on one machine against one admissible history of the cloud. */
  ghost predicate RunOn(
    s: Spec, parse: ParseIP, run: seq<Step>, worlds: seq<World>, lag: int, cluster: string, name: string
  ) {
    && RunOk(s, parse, run) && Controlled(run)
    && Admissible(Log(run), worlds, lag, LookupTags(cluster, name))
    && (run != [] ==>
          Fresh(run[0].before) && run[0].before.machine.name == name && ClusterID(run[0].before.machine) == Some(cluster))
  }

  /** Any step but a create. */
  lemma OtherStepKeeps(
    s: Spec, parse: ParseIP, step: Step, log: seq<Event>, worlds: seq<World>, lag: int, cluster: string, name: string, p: nat
  )
    requires Admissible(log, worlds, lag, LookupTags(cluster, name)) && Sound(log, worlds, cluster, name, p, step.before)
    requires !step.op.Create? && StepOk(s, parse, step) && At(log, p, CallsOf(step.op))
    requires ClusterID(step.before.machine) == Some(cluster) && step.before.machine.name == name
    ensures Sound(log, worlds, cluster, name, p + |CallsOf(step.op)|, step.after)
  {
    hide LookupCalls, LookupOutcome, ClusterID, LookupTags, Sound, UpdateCalls, DeleteCalls, Admissible, At;
    IsOrdered(log, worlds, lag, LookupTags(cluster, name));
    match step.op
    case Exists(look, at, present) =>
      LookupIsReadOnly(s.region, step.before, look);
      QuietStep(log, worlds, cluster, name, p, look, step.before, step.after);
    case Delete(look, rest, at, r) =>
      DeleteIsQuiet(s, step.before, look, rest, at, step.after, r);
      QuietStep(log, worlds, cluster, name, p, look + rest, step.before, step.after);
    case Update(look, tag, at, r) =>
      UpdateKeeps(s, parse, step.before, look, tag, at, step.after, r, log, worlds, lag, cluster, name, p);
  }

  lemma CreateStepKeeps(
    s: Spec, parse: ParseIP, step: Step, log: seq<Event>, worlds: seq<World>, lag: int, cluster: string, name: string, p: nat
  )
    requires Admissible(log, worlds, lag, LookupTags(cluster, name)) && Sound(log, worlds, cluster, name, p, step.before)
    requires step.op.Create? && StepOk(s, parse, step) && At(log, p, CallsOf(step.op))
    requires ClusterID(step.before.machine) == Some(cluster) && step.before.machine.name == name
    requires p > 0 && AbsentAt(log, worlds, p - 1)
    ensures Sound(log, worlds, cluster, name, p + |CallsOf(step.op)|, step.after)
  {
    hide ClusterID, LookupTags, Sound, CreateCalls, Admissible, At, AbsentAt;
    match step.op
    case Create(config, run, made, at, r) =>
      CreateKeeps(s, parse, step.before, config, run, made, at, step.after, r, log, worlds, lag, cluster, name, p);
  }

  lemma StepKeeps(
    s: Spec, parse: ParseIP, run: seq<Step>, worlds: seq<World>, lag: int, cluster: string, name: string, n: nat
  )
    requires RunOn(s, parse, run, worlds, lag, cluster, name) && n < |run| && lag <= SETTLE_SECONDS
    requires Sound(Log(run), worlds, cluster, name, Position(run, n), run[n].before)
    requires n > 0 ==> Sound(Log(run), worlds, cluster, name, Position(run, n - 1), run[n - 1].before)
    ensures Sound(Log(run), worlds, cluster, name, Position(run, n + 1), run[n].after)
  {
    hide ClusterID, LookupTags, Sound, Admissible, StepOk, RunOk, Handover, Log, At, CallsOf, Fresh, AbsentAt;
    var log, p := Log(run), Position(run, n);
    PlacedStep(s, parse, run, worlds, lag, cluster, name, n);
    if run[n].op.Create? {
      var previous := run[n - 1];
      PlacedStep(s, parse, run, worlds, lag, cluster, name, n - 1);
      AbsentAfterExists(s, parse, previous, log, worlds, lag, cluster, name, Position(run, n - 1));
      CreateStepKeeps(s, parse, run[n], log, worlds, lag, cluster, name, p);
    } else {
      OtherStepKeeps(s, parse, run[n], log, worlds, lag, cluster, name, p);
    }
  }

  /** Operation n in its place: its calls in the log, and the machine it works on. */
  lemma PlacedStep(
    s: Spec, parse: ParseIP, run: seq<Step>, worlds: seq<World>, lag: int, cluster: string, name: string, n: nat
  )
    requires RunOn(s, parse, run, worlds, lag, cluster, name) && n < |run|
    ensures StepOk(s, parse, run[n]) && At(Log(run), Position(run, n), CallsOf(run[n].op))
    ensures Position(run, n + 1) == Position(run, n) + |CallsOf(run[n].op)|
    ensures ClusterID(run[n].before.machine) == Some(cluster) && run[n].before.machine.name == name
  {
    hide ClusterID, LookupTags, StepOk, CallsOf, Log, Admissible;
    RunInvariants(s, parse, run, n);
    CallsInLog(run, n);
  }

  /** No instance of ours is live before call q, and call q creates none. */
  ghost predicate AbsentAt(log: seq<Event>, worlds: seq<World>, q: nat) {
    && |worlds| == |log| + 1 && q < |log|
    && (forall id :: id in worlds[q] ==> !Ours(log, q, id))
    && (forall id :: Ours(log, q + 1, id) <==> Ours(log, q, id))
  }

  lemma AbsentAfterExists(
    s: Spec, parse: ParseIP, step: Step, log: seq<Event>, worlds: seq<World>, lag: int, cluster: string, name: string, p: nat
  )
    requires Admissible(log, worlds, lag, LookupTags(cluster, name)) && lag <= SETTLE_SECONDS
    requires Sound(log, worlds, cluster, name, p, step.before) && At(log, p, CallsOf(step.op))
    requires StepOk(s, parse, step) && step.op.Exists? && step.op.present == Success(false)
    requires ClusterID(step.before.machine) == Some(cluster) && step.before.machine.name == name
    ensures CallsOf(step.op) != []
    ensures AbsentAt(log, worlds, p + |CallsOf(step.op)| - 1)
  {
    hide ClusterID, LookupTags, Admissible, Sound, Ours;
    AbsentAfter(s, step.before, step.op.look, step.op.at, log, worlds, lag, cluster, name, p);
  }

  lemma DeleteIsQuiet(
    s: Spec, o: Object, look: seq<Event>, rest: seq<Event>, at: int, after: Object, r: Result<(), Error>
  )
    requires DeleteCalls(s, o, look, rest, at, after, r)
    ensures forall k :: 0 <= k < |look + rest| ==>
              !(look + rest)[k].request.RunInstances? && !(look + rest)[k].request.TagResources?
    ensures after.status == o.status
  {
    hide LookupOutcome, LookupCalls, DeleteCalls;
    DeleteIsSafe(s, o, look, rest, at, after, r);
    DeleteEffect(s, o, look, rest, at, after, r);
  }

  /** After an Exists that said no, no instance of ours is live, and none was created since its last call. */
  lemma AbsentAfter(
    s: Spec, o: Object, look: seq<Event>, at: int,
    log: seq<Event>, worlds: seq<World>, lag: int, cluster: string, name: string, p: nat
  )
    requires Admissible(log, worlds, lag, LookupTags(cluster, name)) && lag <= SETTLE_SECONDS
    requires Sound(log, worlds, cluster, name, p, o) && At(log, p, look)
    requires ExistsCalls(s, o, look, at, Success(false))
    requires ClusterID(o.machine) == Some(cluster) && o.machine.name == name
    ensures look != []
    ensures AbsentAt(log, worlds, p + |look| - 1)
  {
    hide ClusterID, LookupTags, Disciplined, LookupOutcome, LookupCalls, Evolves, Live, ByIdResult;
    PresenceIsRight(s, o, look, at, Success(false));
    LookupIsReadOnly(s.region, o, look);
    var q := p + |look| - 1;
    assert log[q] == look[|look| - 1];
    var early := look[..|look| - 1];
    QuietStep(log, worlds, cluster, name, p, early, o, o);
    AbsenceIsReal(log, worlds, lag, cluster, name, q);
    OursGrows(log, q);
  }

  lemma HandoverKeeps(log: seq<Event>, worlds: seq<World>, cluster: string, name: string, p: nat, q: nat, step: Step, next: Object)
    requires Handover(step, next) && p <= q
    requires Sound(log, worlds, cluster, name, p, step.before) && Sound(log, worlds, cluster, name, q, step.after)
    ensures Sound(log, worlds, cluster, name, q, next)
  {
    hide Disciplined, Settled, DisciplinedUpTo;
    assert forall id :: Ours(log, p, id) ==> Ours(log, q, id);
  }

  lemma {:induction false} RunKeeps(
    s: Spec, parse: ParseIP, run: seq<Step>, worlds: seq<World>, lag: int, cluster: string, name: string, n: nat
  )
    requires RunOn(s, parse, run, worlds, lag, cluster, name) && n < |run| && lag <= SETTLE_SECONDS
    ensures Sound(Log(run), worlds, cluster, name, Position(run, n), run[n].before)
    ensures n > 0 ==> Sound(Log(run), worlds, cluster, name, Position(run, n - 1), run[n - 1].before)
  {
    hide StepOk, LookupTags, ClusterID, Disciplined;
    if n > 0 {
      RunKeeps(s, parse, run, worlds, lag, cluster, name, n - 1);
      StepKeeps(s, parse, run, worlds, lag, cluster, name, n - 1);
      CallsInLog(run, n - 1);
      HandoverKeeps(Log(run), worlds, cluster, name, Position(run, n - 1), Position(run, n), run[n - 1], run[n].before);
    }
  }

  /** Two instances carry the machine's lookup tags at once. */
  ghost predicate TwoAtOnce(worlds: seq<World>, filter: seq<Tag>) {
    exists k, a, b :: 0 <= k < |worlds| && a != b && Carries(worlds[k], a, filter) && Carries(worlds[k], b, filter)
  }

  /**
   At most one live instance per machine: in every run, against every admissible history whose tag
   lookups lag by at most the settling pause, no moment has two instances with the machine's tags.
   */
  lemma AtMostOneInstance(
    s: Spec, parse: ParseIP, run: seq<Step>, worlds: seq<World>, lag: int, cluster: string, name: string
  )
    requires RunOn(s, parse, run, worlds, lag, cluster, name) && lag <= 5
    ensures !TwoAtOnce(worlds, LookupTags(cluster, name))
  {
    hide LookupTags, StepOk, Evolves, Disciplined;
    var log := Log(run);
    if run != [] {
      var n := |run| - 1;
      RunKeeps(s, parse, run, worlds, lag, cluster, name, n);
      StepKeeps(s, parse, run, worlds, lag, cluster, name, n);
      assert run[..n + 1] == run;
    }
    forall k: nat, a, b |
      k < |worlds| && Carries(worlds[k], a, LookupTags(cluster, name)) && Carries(worlds[k], b, LookupTags(cluster, name))
      ensures a == b
    {
      DisciplinePrefix(log, worlds, cluster, name, k, |log|);
      DisciplineKeepsOne(log, worlds, lag, cluster, name, k);
    }
  }
}
