/** The status conditions of a machine: how one is set, and what a whole history of sets leaves behind. */
module Conditions {
  import opened Wrappers

  datatype Condition = Condition(
    kind: string, status: string, reason: string, message: string, lastTransitionTime: int
  )

  const MACHINE_CREATION := "MachineCreation"
  const SUCCEEDED := "MachineCreationSucceeded"
  const CREATION_FAILED := "MachineCreationFailed"

  function ConditionSuccess(): Condition {
    Condition(MACHINE_CREATION, "True", SUCCEEDED, "Machine successfully created", 0)
  }

  function ConditionFailed(message: string): Condition {
    Condition(MACHINE_CREATION, "False", CREATION_FAILED, message, 0)
  }

  /** The position of the first condition of a kind. */
  function Find(conditions: seq<Condition>, kind: string): (at: Option<nat>)
    ensures at.Some? ==> at.value < |conditions| && conditions[at.value].kind == kind
    ensures forall i :: 0 <= i < (if at.Some? then at.value else |conditions|) ==> conditions[i].kind != kind
  {
    if conditions == [] then None
    else
      match Find(conditions[..|conditions| - 1], kind)
      case Some(i) => Some(i)
      case None => if conditions[|conditions| - 1].kind == kind then Some(|conditions| - 1) else None
  }

  predicate ShouldUpdate(wanted: Condition, existing: Condition) {
    wanted.reason != existing.reason || wanted.message != existing.message
  }

  function Updated(wanted: Condition, existing: Condition, now: int): Condition {
    if !ShouldUpdate(wanted, existing) then existing
    else existing.(
      lastTransitionTime := if existing.status != wanted.status then now else existing.lastTransitionTime,
      status := wanted.status, reason := wanted.reason, message := wanted.message)
  }

  /** The list after one set. */
  function WithCondition(conditions: seq<Condition>, c: Condition, now: int): seq<Condition> {
    match Find(conditions, c.kind)
    case None => conditions + [c.(lastTransitionTime := now)]
    case Some(i) => conditions[i := Updated(c, conditions[i], now)]
  }

  method SetMachineProviderCondition(c: Condition, conditions: seq<Condition>, now: int)
    returns (result: seq<Condition>)
    ensures result == WithCondition(conditions, c, now)
  {
    result := conditions;
    for i := 0 to |conditions|
      invariant result == conditions && Find(conditions[..i], c.kind) == None
    {
      assert conditions[..i + 1][..i] == conditions[..i];
      if conditions[i].kind == c.kind {
        FindPrefix(conditions, i + 1, c.kind);
        var existing := conditions[i];
        if c.reason != existing.reason || c.message != existing.message {
          if existing.status != c.status {
            existing := existing.(lastTransitionTime := now);
          }
          existing := existing.(status := c.status, reason := c.reason, message := c.message);
        }
        result := conditions[i := existing];
        return;
      }
    }
    assert conditions[..|conditions|] == conditions;
    result := conditions + [c.(lastTransitionTime := now)];
  }

  lemma FindPrefix(conditions: seq<Condition>, n: nat, kind: string)
    requires n <= |conditions| && Find(conditions[..n], kind).Some?
    ensures Find(conditions, kind) == Find(conditions[..n], kind)
  {
    assert conditions[..n][Find(conditions[..n], kind).value] == conditions[Find(conditions[..n], kind).value];
  }

  predicate UniqueKinds(conditions: seq<Condition>) {
    forall i, j :: 0 <= i < j < |conditions| ==> conditions[i].kind != conditions[j].kind
  }

  /** One set keeps at most one entry per kind, leaves every other entry in its place, and adds at most one. */
  lemma SetKeepsOthers(conditions: seq<Condition>, c: Condition, now: int)
    requires UniqueKinds(conditions)
    ensures var after := WithCondition(conditions, c, now);
            && UniqueKinds(after)
            && |after| == |conditions| + (if Find(conditions, c.kind).None? then 1 else 0)
            && (forall i :: 0 <= i < |conditions| ==> after[i].kind == conditions[i].kind)
            && (forall i :: 0 <= i < |conditions| && conditions[i].kind != c.kind ==> after[i] == conditions[i])
            && (exists i :: 0 <= i < |after| && after[i].kind == c.kind)
  {
    var after := WithCondition(conditions, c, now);
    if Find(conditions, c.kind).Some? {
      assert after[Find(conditions, c.kind).value].kind == c.kind;
    } else {
      assert after[|conditions|].kind == c.kind;
    }
  }

  /** The entry of a kind, if any. */
  function Entry(conditions: seq<Condition>, kind: string): Option<Condition> {
    match Find(conditions, kind)
    case None => None
    case Some(i) => Some(conditions[i])
  }

  /**
   The stored entry says what was set exactly unless an entry with the same reason and message but
   another status was there: that set is skipped.
   */
  lemma SetIsStoredIff(conditions: seq<Condition>, c: Condition, now: int)
    ensures var stored := Entry(WithCondition(conditions, c, now), c.kind);
            && stored.Some? && stored.value.reason == c.reason && stored.value.message == c.message
            && (stored.value.status == c.status <==>
                !(exists previous: Condition :: Entry(conditions, c.kind) == Some(previous) && previous.status != c.status
                                         && previous.reason == c.reason && previous.message == c.message))
  {
    EntryAfterSet(conditions, c, c.kind, now);
  }

  /** How one set changes the entry of any kind. */
  lemma EntryAfterSet(conditions: seq<Condition>, c: Condition, kind: string, now: int)
    ensures Entry(WithCondition(conditions, c, now), kind) ==
            if kind != c.kind then Entry(conditions, kind)
            else match Entry(conditions, kind)
                 case None => Some(c.(lastTransitionTime := now))
                 case Some(existing) => Some(Updated(c, existing, now))
  {
    if Find(conditions, c.kind).Some? {
      SameKindsSameFind(conditions, WithCondition(conditions, c, now), kind);
    } else {
      assert WithCondition(conditions, c, now)[..|conditions|] == conditions;
    }
  }

  lemma SameKindsSameFind(a: seq<Condition>, b: seq<Condition>, kind: string)
    requires |a| == |b| && forall i :: 0 <= i < |a| ==> a[i].kind == b[i].kind
    ensures Find(a, kind) == Find(b, kind)
  {
    if Find(a, kind).Some? {
      assert b[Find(a, kind).value].kind == kind;
    }
    if Find(b, kind).Some? {
      assert a[Find(b, kind).value].kind == kind;
    }
  }

  // --- Histories ---

  /** One set of a condition at a clock reading. */
  datatype Set = Set(c: Condition, at: int)

  function AfterAll(conditions: seq<Condition>, history: seq<Set>): seq<Condition> {
    if history == [] then conditions
    else
      var last := history[|history| - 1];
      WithCondition(AfterAll(conditions, history[..|history| - 1]), last.c, last.at)
  }

  /** The sets of one kind, in order. */
  function OfKind(history: seq<Set>, kind: string): seq<Set> {
    if history == [] then []
    else
      var before, last := OfKind(history[..|history| - 1], kind), history[|history| - 1];
      if last.c.kind == kind then before + [last] else before
  }

  /** The time of the first set, or of the latest one whose status differs from the one before it. */
  function FlipTime(sets: seq<Set>): int
    requires sets != []
  {
    var n := |sets| - 1;
    if n == 0 then sets[0].at
    else if sets[n].c.status != sets[n - 1].c.status then sets[n].at
    else FlipTime(sets[..n])
  }

  /** Status follows reason, as it does for the two conditions of this actuator. */
  ghost predicate StatusFollowsReason(history: seq<Set>, statusOf: string -> string) {
    forall s <- history :: s.c.status == statusOf(s.c.reason)
  }

  lemma ConstructorsFollow(message: string)
    ensures var statusOf := (reason: string) => if reason == SUCCEEDED then "True" else "False";
            && ConditionSuccess().status == statusOf(ConditionSuccess().reason)
            && ConditionFailed(message).status == statusOf(ConditionFailed(message).reason)
    ensures ConditionSuccess().kind == "MachineCreation" == ConditionFailed(message).kind
    ensures ConditionSuccess().status == "True" && ConditionSuccess().reason == "MachineCreationSucceeded"
    ensures ConditionSuccess().message == "Machine successfully created"
    ensures ConditionFailed(message).status == "False" && ConditionFailed(message).reason == "MachineCreationFailed"
    ensures ConditionFailed(message).message == message
  {
    assert SUCCEEDED != CREATION_FAILED by { assert SUCCEEDED[15] != CREATION_FAILED[15]; }
  }

  /** The entry that the sets of one kind leave. */
  function LastSet(sets: seq<Set>): Option<Condition> {
    if sets == [] then None else Some(sets[|sets| - 1].c.(lastTransitionTime := FlipTime(sets)))
  }

  lemma {:induction false} OfKindMembers(history: seq<Set>, kind: string)
    ensures forall s <- OfKind(history, kind) :: s in history && s.c.kind == kind
  {
    if history != [] {
      OfKindMembers(history[..|history| - 1], kind);
    }
  }

  lemma OneMoreSet(before: seq<Set>, last: Set, statusOf: string -> string)
    requires StatusFollowsReason(before + [last], statusOf) && forall s <- before :: s.c.kind == last.c.kind
    ensures LastSet(before + [last]) ==
            match LastSet(before)
            case None => Some(last.c.(lastTransitionTime := last.at))
            case Some(existing) => Some(Updated(last.c, existing, last.at))
  {
    var sets := before + [last];
    assert last in sets;
    if before != [] {
      var previous := before[|before| - 1];
      assert previous in before && previous in sets;
      assert sets[..|before|] == before && sets[|before| - 1] == previous;
    }
  }

  /**
   Over any history of sets whose status follows their reason, the entry of a kind is the last set of
   that kind, stamped with the first set of the kind or its latest status flip. Other kinds and what
   was there before for them do not matter.
   */
  lemma {:induction false} HistoryEntry(
    conditions: seq<Condition>, history: seq<Set>, kind: string, statusOf: string -> string
  )
    requires StatusFollowsReason(history, statusOf) && Entry(conditions, kind).None?
    ensures Entry(AfterAll(conditions, history), kind) == LastSet(OfKind(history, kind))
  {
    if history != [] {
      var n := |history| - 1;
      var last := history[n];
      HistoryEntry(conditions, history[..n], kind, statusOf);
      EntryAfterSet(AfterAll(conditions, history[..n]), last.c, kind, last.at);
      OfKindMembers(history[..n], kind);
      if last.c.kind == kind {
        OneMoreSet(OfKind(history[..n], kind), last, statusOf);
      }
    }
  }

  /** Over any history, unique kinds stay unique, and kinds that are never set keep their entry. */
  lemma {:induction false} HistoryKeepsUnique(conditions: seq<Condition>, history: seq<Set>)
    requires UniqueKinds(conditions)
    ensures UniqueKinds(AfterAll(conditions, history))
    ensures |AfterAll(conditions, history)| >= |conditions|
    ensures forall i :: 0 <= i < |conditions| && OfKind(history, conditions[i].kind) == [] ==>
                          AfterAll(conditions, history)[i] == conditions[i]
    ensures forall i :: 0 <= i < |conditions| ==> AfterAll(conditions, history)[i].kind == conditions[i].kind
  {
    if history != [] {
      var n := |history| - 1;
      HistoryKeepsUnique(conditions, history[..n]);
      SetKeepsOthers(AfterAll(conditions, history[..n]), history[n].c, history[n].at);
    }
  }
}
