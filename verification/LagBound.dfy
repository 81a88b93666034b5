/**
 The settling pause is exactly what keeps a machine from getting two instances: with lookups that lag by
 more than the pause, a run of Exists, Create, Exists, Create ends with two live instances. Both creates
 succeed; storing the object after the first one fails, so the second lookup has to rely on the tags.
 */
module LagBound {
  import opened Wrappers
  import opened Tags
  import opened Ecs
  import opened Lookup
  import opened Newest
  import opened Polling
  import opened Conditions
  import opened Machines
  import opened Creation
  import opened Protocol
  import opened Operations
  import opened Runs
  import opened SingleInstance

  const CLUSTER := "c"
  const NAME := "m"

  function Named(kind: RefKind, id: string): ResourceRef { ResourceRef(kind, Some(id), None, None) }

  function PlainSpec(): Spec {
    Spec("r", "img", "v", Named(ByID, "g"), [Named(ByID, "sg")], Named(ByID, "vs"), [], "", Success(""))
  }

  function NewObject(): Object {
    Object(Machine(NAME, Some(map[CLUSTER_ID_LABEL := CLUSTER]), None, None, None, None, []), ProviderStatus(None, None, []))
  }

  function Request(): RunRequest {
    RunRequest("r", "img", ["sg"], "vs", "g", BuiltTags(NAME, CLUSTER, []), DEFAULT_TENANCY, 1)
  }

  function LookupEvent(at: int): Event {
    Event(at, DescribeByTags("r", LookupTags(CLUSTER, NAME)), Instances([]))
  }

  function ImageEvent(at: int): Event { Event(at, DescribeImages("r", "img"), Images([Image("img", AVAILABLE)])) }

  function LaunchEvent(at: int, id: string): Event { Event(at, RunInstances(Request()), Created([id])) }

  function PollEvent(at: int, id: string): Event { Event(at, DescribeByIds("r", [id]), Instances([Launched(id)])) }

  function Launched(id: string): Instance {
    Instance(id, "r", "z", "", RUNNING, "", BuiltTags(NAME, CLUSTER, []), [], [])
  }

  /** A lookup that sees nothing. */
  function LookStep(at: int): Step {
    Step(NewObject(), Op.Exists([LookupEvent(at)], at, Success(false)), NewObject())
  }

  /** The object that a create of this instance leaves. */
  function CreatedObject(parse: ParseIP, id: string, at: int): Object {
    WithStatus(parse, Written(NewObject(), Launched(id)), Some(Launched(id)), ConditionSuccess(), at)
  }

  /** A create whose first poll, after the pause, sees the instance running. */
  function LaunchStep(parse: ParseIP, at: int, id: string): Step {
    Step(NewObject(),
         Op.Create([ImageEvent(at)], [LaunchEvent(at, id), PollEvent(at + SETTLE_SECONDS, id)],
                   Success(Launched(id)), at + SETTLE_SECONDS, Success(())),
         CreatedObject(parse, id, at + SETTLE_SECONDS))
  }

  lemma ClusterOfNew()
    ensures ClusterID(NewObject().machine) == Some(CLUSTER) && ValidMachine(NewObject().machine)
  {
  }

  lemma LookStepOk(parse: ParseIP, at: int)
    ensures StepOk(PlainSpec(), parse, LookStep(at))
  {
    ClusterOfNew();
    AliasedEmptiness([], Supported);
  }

  lemma LaunchStepOk(parse: ParseIP, at: int, id: string)
    ensures StepOk(PlainSpec(), parse, LaunchStep(parse, at, id))
  {
    hide Justified, AfterRun, ClusterID, WellFormed, ValidMachine, BuiltTags;
    var s, m := PlainSpec(), NewObject().machine;
    ClusterOfNew();
    LaunchCalls(at, id);
  }

  /** The calls of such a create: a good image answer, then the launch and one empty poll. */
  lemma LaunchCalls(at: int, id: string)
    ensures RunCalls(PlainSpec(), NewObject().machine, [ImageEvent(at)],
                     [LaunchEvent(at, id), PollEvent(at + SETTLE_SECONDS, id)],
                     at + SETTLE_SECONDS, Success(Launched(id)))
  {
    hide Justified, AfterRun, ClusterID, BuiltTags;
    assert Good(ImageEvent(at));
    ClusterOfNew();
    PlainIsWellFormed();
    PlainIsJustified(at);
    RunningPollEndsWait(at, id);
  }

  lemma PlainIsWellFormed()
    ensures WellFormed(PlainSpec(), NewObject().machine)
  {
    ClusterOfNew();
  }

  lemma RunningPollEndsWait(at: int, id: string)
    ensures AfterRun("r", [LaunchEvent(at, id), PollEvent(at + SETTLE_SECONDS, id)], at + SETTLE_SECONDS,
                     Success(Launched(id)))
  {
    hide BuiltTags;
    var run, i := [LaunchEvent(at, id), PollEvent(at + SETTLE_SECONDS, id)], Launched(id);
    assert run[1..] == [PollEvent(at + SETTLE_SECONDS, id)];
    assert HasStatus(RUNNING)(i) && [i][..0] == [];
    assert Kept([i], HasStatus(RUNNING)) == [i];
    assert Aliased([i], HasStatus(RUNNING)) == [i];
  }

  lemma PlainIsJustified(at: int)
    ensures Justified(PlainSpec(), NewObject().machine, [ImageEvent(at)], Request())
  {
    hide BuiltTags;
    var s, config := PlainSpec(), [ImageEvent(at)];
    ClusterOfNew();
    assert SelectorsResolved(s, config, s.securityGroups, ["sg"]) by {
      assert s.securityGroups[..0] == [] && ["sg"][..0] == [] && ["sg"][0..] == ["sg"];
      assert SelectorsResolved(s, config, [], []);
      assert SelectorResolved(s, config, s.securityGroups[0], ["sg"]);
    }
    assert ImageResolved(s, config, "img") by {
      assert config[0].response.images[0] == Image("img", AVAILABLE);
    }
  }

  function TwoLaunches(parse: ParseIP): seq<Step> {
    [LookStep(0), LaunchStep(parse, 0, "i-1"), LookStep(SETTLE_SECONDS), LaunchStep(parse, SETTLE_SECONDS, "i-2")]
  }

  function EightCalls(): seq<Event> {
    [LookupEvent(0), ImageEvent(0), LaunchEvent(0, "i-1"), PollEvent(5, "i-1"),
     LookupEvent(5), ImageEvent(5), LaunchEvent(5, "i-2"), PollEvent(10, "i-2")]
  }

  lemma LogSnoc(run: seq<Step>, step: Step)
    ensures Log(run + [step]) == Log(run) + CallsOf(step.op)
  {
    assert (run + [step])[..|run|] == run;
  }

  lemma LogOfTwoLaunches(parse: ParseIP)
    ensures Log(TwoLaunches(parse)) == EightCalls()
  {
    hide Log, LookupEvent, ImageEvent, LaunchEvent, PollEvent;
    var a, b := LookStep(0), LaunchStep(parse, 0, "i-1");
    var c, d := LookStep(SETTLE_SECONDS), LaunchStep(parse, SETTLE_SECONDS, "i-2");
    EmptyLog();
    LogSnoc([], a);
    LogSnoc([a], b);
    LogSnoc([a, b], c);
    LogSnoc([a, b, c], d);
    assert [] + [a] == [a] && [a] + [b] == [a, b] && [a, b] + [c] == [a, b, c] && [a, b, c] + [d] == TwoLaunches(parse);
  }

  lemma EmptyLog()
    ensures Log([]) == []
  {
  }

  /** Nothing, then the first instance, then both. */
  function WorldAt(k: nat): World {
    if k <= 2 then map[]
    else if k <= 6 then map["i-1" := Launched("i-1")]
    else map["i-1" := Launched("i-1"), "i-2" := Launched("i-2")]
  }

  function History(): seq<World> {
    seq(9, k requires 0 <= k < 9 => WorldAt(k))
  }

  lemma HistoryEvolves(k: nat)
    requires k < 8
    ensures Evolves(EightCalls(), k, WorldAt(k), WorldAt(k + 1), LookupTags(CLUSTER, NAME))
  {
    hide BuiltTags, LookupTags, Matches, EightCalls, Ours, Creates;
    CallKinds(k);
    TwoCreations(k);
  }

  lemma CallKinds(k: nat)
    requires k < 8
    ensures |EightCalls()| == 8 && !EightCalls()[k].request.TagResources?
    ensures EightCalls()[k].request.RunInstances? ==>
              EightCalls()[k].request.run == Request() && EightCalls()[k].response.Created?
              && |EightCalls()[k].response.ids| == 1
  {
    hide BuiltTags, LookupTags;
  }

  lemma TwoCreations(k: nat)
    requires k < 8
    ensures "i-1" != "i-2"
    ensures forall id :: Creates(EightCalls()[k], id) ==>
                           EightCalls()[k].request.RunInstances? && ((k == 2 && id == "i-1") || (k == 6 && id == "i-2"))
    ensures forall id :: Ours(EightCalls(), k, id) ==> (k > 2 && id == "i-1") || (k > 6 && id == "i-2")
    ensures k == 2 ==> Creates(EightCalls()[k], "i-1")
    ensures k == 6 ==> Creates(EightCalls()[k], "i-2")
  {
    hide BuiltTags, LookupTags;
    assert "i-1"[2] != "i-2"[2];
    forall c: nat, id | c < 8 && Creates(EightCalls()[c], id)
      ensures (c == 2 && id == "i-1") || (c == 6 && id == "i-2")
    {
      assert EightCalls()[c].response.ids[0] == id;
    }
  }

  lemma HistoryIsAdmissible(lag: int)
    requires lag > SETTLE_SECONDS
    ensures Admissible(EightCalls(), History(), lag, LookupTags(CLUSTER, NAME))
  {
    hide BuiltTags, LookupTags, Matches, Evolves;
    var log, worlds, filter := EightCalls(), History(), LookupTags(CLUSTER, NAME);
    forall k: nat | k < |log|
      ensures Evolves(log, k, worlds[k], worlds[k + 1], filter)
    {
      HistoryEvolves(k);
    }
    assert ViewOk(log, worlds, lag, 0, 0);
    assert ViewOk(log, worlds, lag, 4, 2);
  }

  /** With a lag beyond the pause, a controlled run reaches two live instances of one machine. */
  lemma LagBeyondPause(parse: ParseIP, lag: int)
    requires lag > 5
    ensures RunOn(PlainSpec(), parse, TwoLaunches(parse), History(), lag, CLUSTER, NAME)
    ensures TwoAtOnce(History(), LookupTags(CLUSTER, NAME))
  {
    hide BuiltTags, LookupTags, Admissible, StepOk, Matches, ClusterID;
    LookStepOk(parse, 0);
    LaunchStepOk(parse, 0, "i-1");
    LookStepOk(parse, SETTLE_SECONDS);
    LaunchStepOk(parse, SETTLE_SECONDS, "i-2");
    LogOfTwoLaunches(parse);
    HistoryIsAdmissible(lag);
    ClusterOfNew();
    LookupAgreesWithBuild(NAME, CLUSTER, [], NAME, CLUSTER);
    assert "i-1"[2] != "i-2"[2];
    assert Carries(History()[8], "i-1", LookupTags(CLUSTER, NAME)) && Carries(History()[8], "i-2", LookupTags(CLUSTER, NAME));
  }

  lemma FirstHalfEvolves(k: nat)
    requires k < 4
    ensures Evolves(EightCalls()[..4], k, WorldAt(k), WorldAt(k + 1), LookupTags(CLUSTER, NAME))
  {
    hide BuiltTags, LookupTags, Matches, EightCalls, Creates, WorldAt;
    HistoryEvolves(k);
    CallKinds(k);
    var log := EightCalls();
    forall id
      ensures Ours(log[..4], k, id) <==> Ours(log, k, id)
    {
      if c :| 0 <= c < k && Creates(log[c], id) {
        assert Creates(log[..4][c], id);
      }
    }
  }

  lemma LogOfOneLaunch(parse: ParseIP)
    ensures Log(TwoLaunches(parse)[..2]) == EightCalls()[..4]
  {
    hide LookupEvent, ImageEvent, LaunchEvent, PollEvent;
    var a, b := LookStep(0), LaunchStep(parse, 0, "i-1");
    EmptyLog();
    LogSnoc([], a);
    LogSnoc([a], b);
    assert [] + [a] == [a] && [a] + [b] == TwoLaunches(parse)[..2];
  }

  /** Whatever the lag, there are controlled runs that launch an instance: the guarantee is not an empty one. */
  lemma LaunchIsPossible(parse: ParseIP, lag: int)
    ensures RunOn(PlainSpec(), parse, TwoLaunches(parse)[..2], History()[..5], lag, CLUSTER, NAME)
    ensures Carries(History()[4], "i-1", LookupTags(CLUSTER, NAME))
  {
    hide BuiltTags, LookupTags, Matches, ClusterID, Evolves, StepOk;
    var run, log, worlds := TwoLaunches(parse)[..2], EightCalls()[..4], History()[..5];
    LookStepOk(parse, 0);
    LaunchStepOk(parse, 0, "i-1");
    LogOfOneLaunch(parse);
    ClusterOfNew();
    LookupAgreesWithBuild(NAME, CLUSTER, [], NAME, CLUSTER);
    forall k: nat | k < 4
      ensures Evolves(log, k, worlds[k], worlds[k + 1], LookupTags(CLUSTER, NAME))
    {
      FirstHalfEvolves(k);
    }
    assert ViewOk(log, worlds, lag, 0, 0);
  }

  /** Some machine can get two live instances when lookups lag by this much. */
  ghost predicate CanDouble(parse: ParseIP, lag: int) {
    exists s, run, worlds, cluster, name ::
      RunOn(s, parse, run, worlds, lag, cluster, name) && TwoAtOnce(worlds, LookupTags(cluster, name))
  }

  /** The guarantee of one instance per machine holds exactly up to a lag of the settling pause. */
  lemma OneInstanceIffLagWithinPause(parse: ParseIP, lag: int)
    ensures CanDouble(parse, lag) <==> lag > 5
  {
    hide RunOn, TwoAtOnce, LookupTags;
    if lag > SETTLE_SECONDS {
      LagBeyondPause(parse, lag);
      assert RunOn(PlainSpec(), parse, TwoLaunches(parse), History(), lag, CLUSTER, NAME);
    } else {
      forall s, run, worlds, cluster, name | RunOn(s, parse, run, worlds, lag, cluster, name)
        ensures !TwoAtOnce(worlds, LookupTags(cluster, name))
      {
        AtMostOneInstance(s, parse, run, worlds, lag, cluster, name);
      }
    }
  }
}
