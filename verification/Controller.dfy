/**
 The outer machine controller, as far as the actuator depends on it: it asks whether the instance exists
 and then updates or creates, or deletes the machine, and stores the object in two patches that may each
 fail. Driving the reconciler this way yields exactly the controlled runs that the theorems are about.
 */
module Controller {
  import opened Wrappers
  import opened Ecs
  import opened Newest
  import opened Machines
  import opened Creation
  import opened Protocol
  import opened Reconciler
  import opened Runs
  import opened SingleInstance

  /** What is stored after an operation, given which of the two patches went through. */
  function Stored(before: Object, after: Object, mainPatched: bool, statusPatched: bool): Object {
    var main := if mainPatched then after.machine else before.machine;
    var status := if statusPatched then after else before;
    Object(main.(addresses := status.machine.addresses), status.status)
  }

  lemma StoredIsHandover(step: Step, mainPatched: bool, statusPatched: bool, lastUpdated: Option<int>)
    ensures var next := Stored(step.before, step.after, mainPatched, statusPatched);
            Handover(step, next) && Handover(step, next.(machine := next.machine.(lastUpdated := lastUpdated)))
  {
  }

  /** A controlled run, so far: its calls are the whole log, and o is what the next operation starts from. */
  ghost predicate Driven(spec: Spec, parse: ParseIP, run: seq<Step>, log: seq<Event>, start: Object, o: Object) {
    && RunOk(spec, parse, run) && Controlled(run) && log == Log(run)
    && if run == [] then o == start else run[0].before == start && Handover(run[|run| - 1], o)
  }

  lemma DrivenSnoc(
    spec: Spec, parse: ParseIP, run: seq<Step>, log: seq<Event>, start: Object, step: Step, next: Object
  )
    requires Driven(spec, parse, run, log, start, step.before) && StepOk(spec, parse, step) && Handover(step, next)
    requires step.op.Create? ==> run != [] && run[|run| - 1].op.Exists? && run[|run| - 1].op.present == Success(false)
    ensures Driven(spec, parse, run + [step], log + CallsOf(step.op), start, next)
  {
    hide StepOk, Handover;
    assert (run + [step])[..|run|] == run;
  }

  /** Storing the object; the update time is kept by others. */
  method Store(before: Object, after: Object, ghost step: Step) returns (o: Object)
    requires step.before == before && step.after == after
    ensures Handover(step, o)
  {
    var mainPatched: bool := *;
    var statusPatched: bool := *;
    var lastUpdated: Option<int> := *;
    o := Stored(before, after, mainPatched, statusPatched);
    o := o.(machine := o.machine.(lastUpdated := lastUpdated));
    StoredIsHandover(step, mainPatched, statusPatched, lastUpdated);
  }

  method DeleteOnce(
    client: Client, spec: Spec, parseTime: ParseTime, parse: ParseIP, o: Object, ghost run: seq<Step>, ghost start: Object
  )
    returns (next: Object, ghost after: seq<Step>)
    requires client.Valid() && o.machine.annotations.Some? && Driven(spec, parse, run, client.log, start, o)
    modifies client
    ensures client.Valid() && Driven(spec, parse, after, client.log, start, next)
    ensures exists step: Step :: after == run + [step] && step.before == o && step.op.Delete?
  {
    hide Driven, Handover, DeleteCalls;
    var reconciler := new Reconciler(client, spec, parseTime, parse, o);
    ghost var log := client.log;
    var r, look, rest, at := reconciler.Delete();
    ghost var step := Step(o, Op.Delete(look, rest, at, r), reconciler.State());
    next := Store(o, reconciler.State(), step);
    DrivenSnoc(spec, parse, run, log, start, step, next);
    after := run + [step];
  }

  /** What one reconcile does: it asks, and goes on to update what exists or to create what does not. */
  ghost predicate Reconciled(run: seq<Step>, after: seq<Step>, o: Object, goOn: bool) {
    && |run| < |after| <= |run| + 2 && after[..|run|] == run
    && var asked := after[|run|];
       && asked.op.Exists? && asked.before == o
       && (|after| == |run| + 2 <==> goOn && asked.op.present.Success?)
       && (|after| == |run| + 2 ==>
             if asked.op.present.value then after[|run| + 1].op.Update? else after[|run| + 1].op.Create?)
  }

  /**
   One reconcile: Exists, then Update or Create. The phase of the machine, or its deletion, may end it
   after the question; goOn says that they do not.
   */
  method ReconcileOnce(
    client: Client, spec: Spec, parseTime: ParseTime, parse: ParseIP, o: Object, goOn: bool,
    ghost run: seq<Step>, ghost start: Object
  )
    returns (next: Object, ghost after: seq<Step>)
    requires client.Valid() && Driven(spec, parse, run, client.log, start, o)
    modifies client
    ensures client.Valid() && Driven(spec, parse, after, client.log, start, next)
    ensures Reconciled(run, after, o, goOn)
  {
    hide Driven, CreateCalls, UpdateCalls, ExistsCalls, Log;
    var reconciler := new Reconciler(client, spec, parseTime, parse, o);
    ghost var log := client.log;
    var present, look, at := reconciler.Exists();
    ghost var asked := Step(o, Op.Exists(look, at, present), o);
    DrivenSnoc(spec, parse, run, log, start, asked, o);
    after, log, next := run + [asked], client.log, o;
    assert after[..|run|] == run && after[|run|] == asked;
    if goOn && present.Success? && present.value {
      var r, found, tag, updatedAt := reconciler.Update();
      ghost var step := Step(o, Op.Update(found, tag, updatedAt, r), reconciler.State());
      next := Store(o, reconciler.State(), step);
      DrivenSnoc(spec, parse, after, log, start, step, next);
      after := after + [step];
      assert after[..|run|] == run && after[|run|] == asked;
    } else if goOn && present.Success? {
      var r, config, calls, made, createdAt := reconciler.Create();
      ghost var step := Step(o, Op.Create(config, calls, made, createdAt, r), reconciler.State());
      next := Store(o, reconciler.State(), step);
      DrivenSnoc(spec, parse, after, log, start, step, next);
      after := after + [step];
      assert after[..|run|] == run && after[|run|] == asked;
    }
  }

  /** One round of the controller. */
  datatype Round = Deleting | Reconciling(goOn: bool)

  /**
   Any number of rounds, in any order; every one adds its operations to the run. A deleting round needs
   annotations to write to.
   */
  method Drive(client: Client, spec: Spec, parseTime: ParseTime, parse: ParseIP, start: Object, rounds: seq<Round>)
    returns (o: Object, ghost run: seq<Step>)
    requires client.Valid() && client.log == []
    modifies client
    ensures client.Valid() && Driven(spec, parse, run, client.log, start, o)
    ensures |rounds| <= |run| <= 2 * |rounds|
  {
    hide Driven;
    assert Driven(spec, parse, [], client.log, start, start) by { NothingDriven(spec, parse, start); }
    o, run := start, [];
    for i := 0 to |rounds|
      invariant client.Valid() && Driven(spec, parse, run, client.log, start, o)
      invariant i <= |run| <= 2 * i
    {
      match rounds[i] {
        case Deleting =>
          if o.machine.annotations.Some? {
            o, run := DeleteOnce(client, spec, parseTime, parse, o, run, start);
          } else {
            o, run := ReconcileOnce(client, spec, parseTime, parse, o, false, run, start);
          }
        case Reconciling(goOn) =>
          o, run := ReconcileOnce(client, spec, parseTime, parse, o, goOn, run, start);
      }
    }
  }

  lemma NothingDriven(spec: Spec, parse: ParseIP, start: Object)
    ensures Driven(spec, parse, [], [], start, start)
  {
  }
}
