/**
 Choosing among several instances: the launch-time order, the sort, and the newest running instance.
 Parsing a timestamp is a parameter: any partial function from strings to instants.
 */
module Newest {
  import opened Wrappers
  import opened Ecs
  import opened Lookup

  type ParseTime = string -> Option<int>

  /** instanceList.Less on two start times: empty times first, then later times before earlier ones. */
  predicate Less(parse: ParseTime, a: string, b: string) {
    if a == "" && b == "" then false
    else if a != "" && b == "" then false
    else if a == "" && b != "" then true
    else parse(a).Some? && parse(b).Some? && parse(a).value > parse(b).value
  }

  predicate Malformed(parse: ParseTime, t: string) { t != "" && parse(t).None? }

  predicate Timed(parse: ParseTime, t: string) { t != "" && parse(t).Some? }

  /** Less is a strict partial order on all strings, whatever parses. */
  lemma LessIsStrictPartialOrder(parse: ParseTime, a: string, b: string, c: string)
    ensures !Less(parse, a, a)
    ensures Less(parse, a, b) ==> !Less(parse, b, a)
    ensures Less(parse, a, b) && Less(parse, b, c) ==> Less(parse, a, c)
  {
  }

  predicate Incomparable(parse: ParseTime, a: string, b: string) {
    !Less(parse, a, b) && !Less(parse, b, a)
  }

  ghost predicate WeaklyOrdered(parse: ParseTime, times: set<string>) {
    forall a, b, c | a in times && b in times && c in times ::
      Incomparable(parse, a, b) && Incomparable(parse, b, c) ==> Incomparable(parse, a, c)
  }

  /** A malformed time beside two different times. */
  ghost predicate Confused(parse: ParseTime, times: set<string>) {
    exists m, x, y | m in times && x in times && y in times ::
      Malformed(parse, m) && Timed(parse, x) && Timed(parse, y) && parse(x).value != parse(y).value
  }

  /** Less sorts a set of times consistently exactly when no malformed time sits beside two different ones. */
  lemma WeaklyOrderedIff(parse: ParseTime, times: set<string>)
    ensures WeaklyOrdered(parse, times) <==> !Confused(parse, times)
  {
    if Confused(parse, times) {
      var m, x, y :| m in times && x in times && y in times &&
                     Malformed(parse, m) && Timed(parse, x) && Timed(parse, y) && parse(x).value != parse(y).value;
      assert Incomparable(parse, x, m) && Incomparable(parse, m, y) && !Incomparable(parse, x, y);
    } else {
      forall a, b, c | a in times && b in times && c in times && Incomparable(parse, a, b) && Incomparable(parse, b, c)
        ensures Incomparable(parse, a, c)
      {
        if Malformed(parse, b) && Timed(parse, a) && Timed(parse, c) {
          assert parse(a).value == parse(c).value;
        }
      }
    }
  }

  ghost function Times(list: seq<Instance>): set<string> {
    set r | r in list :: r.startTime
  }

  /** The order the sort establishes: nothing stands before something that is Less. */
  predicate Sorted(parse: ParseTime, list: seq<Instance>) {
    forall i, j :: 0 <= i < j < |list| ==> !Less(parse, list[j].startTime, list[i].startTime)
  }

  predicate OutOfOrderOnlyAt(parse: ParseTime, list: seq<Instance>, j: int) {
    forall p, q :: 0 <= p < q < |list| && q != j ==> !Less(parse, list[q].startTime, list[p].startTime)
  }

  /** The insertion pass of the sort on the first i + 1 entries. */
  lemma InsertionDone(parse: ParseTime, list: seq<Instance>, j: int)
    requires 0 <= j < |list| && OutOfOrderOnlyAt(parse, list, j)
    requires WeaklyOrdered(parse, Times(list))
    requires j > 0 ==> !Less(parse, list[j].startTime, list[j - 1].startTime)
    ensures Sorted(parse, list)
  {
    forall p | 0 <= p < j
      ensures !Less(parse, list[j].startTime, list[p].startTime)
    {
      if p < j - 1 && Less(parse, list[j].startTime, list[p].startTime) {
        var a, b, c := list[j].startTime, list[j - 1].startTime, list[p].startTime;
        assert list[j] in list && list[j - 1] in list && list[p] in list;
        assert !Less(parse, a, b) && !Less(parse, b, c);
        LessIsStrictPartialOrder(parse, b, a, c);
        LessIsStrictPartialOrder(parse, a, c, b);
        LessIsStrictPartialOrder(parse, c, b, a);
        assert Incomparable(parse, a, b) && Incomparable(parse, b, c);
      }
    }
  }

  lemma InsertionStep(parse: ParseTime, before: seq<Instance>, after: seq<Instance>, j: int)
    requires 0 < j < |before| && OutOfOrderOnlyAt(parse, before, j)
    requires Less(parse, before[j].startTime, before[j - 1].startTime)
    requires after == before[j := before[j - 1]][j - 1 := before[j]]
    ensures OutOfOrderOnlyAt(parse, after, j - 1)
  {
    LessIsStrictPartialOrder(parse, before[j].startTime, before[j - 1].startTime, "");
  }

  lemma SameMembersSameTimes(a: seq<Instance>, b: seq<Instance>)
    requires multiset(a) == multiset(b)
    ensures forall r :: r in a <==> r in b
    ensures Times(a) == Times(b)
  {
    assert forall r :: r in a <==> r in multiset(a);
    assert forall r :: r in b <==> r in multiset(b);
  }

  lemma InsertionStart(parse: ParseTime, list: seq<Instance>, i: nat)
    requires i < |list| && Sorted(parse, list[..i])
    ensures OutOfOrderOnlyAt(parse, list[..i + 1], i)
  {
    assert forall k :: 0 <= k < i ==> list[..i + 1][k] == list[..i][k];
  }

  /** The insertion pass on the first i + 1 entries of a permutation of the list. */
  lemma PassDone(parse: ParseTime, was: seq<Instance>, list: seq<Instance>, i: nat, j: nat)
    requires !Confused(parse, Times(was)) && multiset(list) == multiset(was)
    requires j <= i < |list| && OutOfOrderOnlyAt(parse, list[..i + 1], j)
    requires j > 0 ==> !Less(parse, list[j].startTime, list[j - 1].startTime)
    ensures Sorted(parse, list[..i + 1])
  {
    hide Confused, Less, OutOfOrderOnlyAt;
    WeaklyOrderedIff(parse, Times(was));
    SameMembersSameTimes(list, was);
    assert Times(list[..i + 1]) <= Times(list);
    InsertionDone(parse, list[..i + 1], j);
  }

  /** sort.Sort's insertion sort, on Less and Swap alone. */
  method SortInstances(parse: ParseTime, a: array<Instance>)
    modifies a
    ensures multiset(a[..]) == multiset(old(a[..]))
    ensures !Confused(parse, Times(old(a[..]))) ==> Sorted(parse, a[..])
  {
    assert Sorted(parse, a[..0]);
    hide Confused, OutOfOrderOnlyAt, Times, Sorted, Less;
    ghost var was := a[..];
    ghost var good := !Confused(parse, Times(was));
    for i := 0 to a.Length
      invariant multiset(a[..]) == multiset(was)
      invariant good ==> Sorted(parse, a[..i])
    {
      var j := i;
      if good {
        InsertionStart(parse, a[..], i);
      }
      while j > 0 && Less(parse, a[j].startTime, a[j - 1].startTime)
        invariant 0 <= j <= i
        invariant multiset(a[..]) == multiset(was)
        invariant good ==> OutOfOrderOnlyAt(parse, a[..i + 1], j)
      {
        ghost var before := a[..i + 1];
        a[j], a[j - 1] := a[j - 1], a[j];
        if good {
          InsertionStep(parse, before, a[..i + 1], j);
        }
        j := j - 1;
      }
      if good {
        PassDone(parse, was, a[..], i, j);
      }
    }
    assert a[..a.Length] == a[..];
  }

  function HasStatus(status: string): Instance -> bool {
    (i: Instance) => i.status == status
  }

  /** getRunningFromInstances: here the loop variable already is a pointer, so nothing is aliased. */
  method GetRunning(list: seq<Instance>) returns (running: seq<Instance>)
    ensures running == Kept(list, HasStatus(RUNNING))
  {
    running := [];
    for i := 0 to |list|
      invariant running == Kept(list[..i], HasStatus(RUNNING))
    {
      assert list[..i + 1][..i] == list[..i];
      if list[i].status == RUNNING {
        running := running + [list[i]];
      }
    }
    assert list[..|list|] == list;
  }

  /** The class the choice is made from: the running instances if there are any, else all. */
  predicate Candidate(list: seq<Instance>, r: Instance) {
    r in list && ((exists s <- list :: s.status == "Running") ==> r.status == "Running")
  }

  /** A candidate with no strictly newer candidate. */
  predicate IsNewest(parse: ParseTime, list: seq<Instance>, chosen: Instance) {
    Candidate(list, chosen) &&
    forall r <- list :: Candidate(list, r) ==> !Less(parse, r.startTime, chosen.startTime)
  }

  lemma {:induction false} KeptKeepsOrder(parse: ParseTime, list: seq<Instance>, keep: Instance -> bool)
    requires Sorted(parse, list)
    ensures Sorted(parse, Kept(list, keep))
  {
    if list != [] {
      var n := |list| - 1;
      KeptKeepsOrder(parse, list[..n], keep);
      forall k <- Kept(list[..n], keep)
        ensures !Less(parse, list[n].startTime, k.startTime)
      {
        assert k in list[..n];
      }
    }
  }

  /** Any sorted rearrangement leads to a newest candidate, so the choice does not depend on the sort. */
  lemma FirstOfSortedIsNewest(parse: ParseTime, list: seq<Instance>, sorted: seq<Instance>)
    requires list != [] && multiset(sorted) == multiset(list) && Sorted(parse, sorted)
    ensures var running := Kept(sorted, HasStatus(RUNNING));
            sorted != [] && IsNewest(parse, list, if running != [] then running[0] else sorted[0])
  {
    SameMembersSameTimes(sorted, list);
    assert list[0] in sorted;
    var running := Kept(sorted, HasStatus(RUNNING));
    KeptKeepsOrder(parse, sorted, HasStatus(RUNNING));
    LessIsStrictPartialOrder(parse, sorted[0].startTime, "", "");
    if running != [] {
      var chosen := running[0];
      assert chosen in running;
      LessIsStrictPartialOrder(parse, chosen.startTime, "", "");
      forall r <- list | Candidate(list, r)
        ensures !Less(parse, r.startTime, chosen.startTime)
      {
        assert r.status == RUNNING && r in running;
        var i :| 0 <= i < |running| && running[i] == r;
      }
    } else {
      assert forall s <- list :: s.status == RUNNING ==> s in running;
      forall r <- list
        ensures !Less(parse, r.startTime, sorted[0].startTime)
      {
        var i :| 0 <= i < |sorted| && sorted[i] == r;
      }
    }
  }

  /** UpdateMachine's choice: sort, take the running ones, take the first. */
  method SelectNewest(parse: ParseTime, list: seq<Instance>) returns (chosen: Instance)
    requires list != []
    ensures Candidate(list, chosen)
    ensures !Confused(parse, Times(list)) ==> IsNewest(parse, list, chosen)
  {
    var a := new Instance[|list|](i requires 0 <= i < |list| => list[i]);
    assert a[..] == list;
    SortInstances(parse, a);
    var sorted := a[..];
    SameMembersSameTimes(sorted, list);
    var running := GetRunning(sorted);
    assert forall s <- list :: s.status == RUNNING ==> s in running;
    if |running| > 0 {
      chosen := running[0];
      assert chosen in running;
    } else {
      chosen := sorted[0];
      assert chosen in sorted;
    }
    if !Confused(parse, Times(list)) {
      FirstOfSortedIsNewest(parse, list, sorted);
    }
  }

  /**
   What "no newer candidate" means for well-formed times: either the choice has no start time yet, or
   every candidate has one and none is later. And a sorted list has the empty times in front.
   */
  lemma NewestMeaning(parse: ParseTime, list: seq<Instance>, chosen: Instance)
    requires forall r <- list :: !Malformed(parse, r.startTime)
    ensures !Confused(parse, Times(list))
    ensures IsNewest(parse, list, chosen) <==>
              Candidate(list, chosen) &&
              (chosen.startTime == "" ||
               forall r <- list | Candidate(list, r) ::
                 Timed(parse, r.startTime) && parse(r.startTime).value <= parse(chosen.startTime).value)
    ensures Sorted(parse, list) <==>
              forall i, j :: 0 <= i < j < |list| ==>
                list[i].startTime == "" ||
                (Timed(parse, list[j].startTime) && parse(list[j].startTime).value <= parse(list[i].startTime).value)
  {
    assert forall t <- Times(list) :: !Malformed(parse, t);
    assert forall i :: 0 <= i < |list| ==> list[i] in list;
    forall r, s | r in list && s in list
      ensures !Less(parse, r.startTime, s.startTime) <==>
              (s.startTime == "" ||
               (Timed(parse, r.startTime) && parse(r.startTime).value <= parse(s.startTime).value))
    {
    }
  }
}
