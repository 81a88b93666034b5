/**
 Clocked polling: the status poll as the closure it is in the source, the loop that calls it until it
 is satisfied or the deadline passes, and what the finished run of polls says about the result.
 */
module Polling {
  import opened Wrappers
  import opened Ecs
  import opened Lookup
  import opened Newest

  const DEFAULT_TIMEOUT := 900
  const POLL_INTERVAL := 5
  const MAX_POLLS := 181

  /** What one invocation of a poll reports: stop, the result (nil for None), an error. */
  datatype Poll = Poll(satisfied: bool, result: Option<seq<Instance>>, error: Option<Error>)

  /** The status poll on the answer to its describe call. */
  function PollOf(ids: seq<string>, status: string, response: Response): Poll {
    if response.Failed? then Poll(false, None, Some(CloudFailed(response.what)))
    else if !response.Instances? || |response.records| <= 0 then Poll(true, None, Some(NotFound))
    else
      var instances := Aliased(response.records, HasStatus(status));
      if |instances| == |ids| then Poll(true, Some(instances), None)
      else Poll(false, None, Some(UnsupportedState))
  }

  /** The closure that waitForInstancesStatus hands to WaitForResult, with its captured variables. */
  class StatusPoll {
    const client: Client
    const region: string
    const ids: seq<string>
    const status: string

    constructor (client: Client, region: string, ids: seq<string>, status: string)
      ensures this.client == client && this.region == region && this.ids == ids && this.status == status
    {
      this.client, this.region, this.ids, this.status := client, region, ids, status;
    }

    function Request(): Request { DescribeByIds(region, ids) }

    method Invoke() returns (poll: Poll, ghost e: Event)
      requires client.Valid()
      modifies client
      ensures client.Valid() && client.now >= old(client.now)
      ensures client.log == old(client.log) + [e] && client.pauses == old(client.pauses)
      ensures e.at == client.now && e.request == Request() && Answers(e.request, e.response)
      ensures poll == PollOf(ids, status, e.response)
    {
      var response := client.Call(Request());
      e := Event(client.now, Request(), response);
      match response
      case Failed(what) => poll := Poll(false, None, Some(CloudFailed(what)));
      case Instances(records) =>
        if |records| <= 0 {
          poll := Poll(true, None, Some(NotFound));
        } else {
          var pointers := Collect(records, HasStatus(status));
          if |pointers| == |ids| {
            poll := Poll(true, Some(Deref(pointers)), None);
          } else {
            poll := Poll(false, None, Some(UnsupportedState));
          }
        }
      case _ => assert false;
    }
  }

  /** Does WaitForResult return after this poll? */
  predicate Stops(poll: Poll, returnWhenError: bool) {
    poll.satisfied || (returnWhenError && poll.error.Some?)
  }

  /** What WaitForResult returns after a poll that stops it, and after the deadline. */
  function WaitResult(last: Poll, returnWhenError: bool): Result<Option<seq<Instance>>, Error> {
    if returnWhenError && last.error.Some? then Failure(last.error.value)
    else if last.satisfied then Success(last.result)
    else Failure(TimedOut)
  }

  /** The polls of one wait: all with the same request, a pause between any two, only the last one may stop. */
  predicate Polls(d: seq<Event>, request: Request, ids: seq<string>, status: string, returnWhenError: bool, delay: nat) {
    && d != []
    && (forall i :: 0 <= i < |d| ==> d[i].request == request && Answers(request, d[i].response))
    && (forall i :: 0 <= i < |d| - 1 ==> !Stops(PollOf(ids, status, d[i].response), returnWhenError))
    && (forall i, j :: 0 <= i < j < |d| ==> d[i].at + delay <= d[j].at)
  }

  /**
   WaitForResult: the result is that of the last poll; there are at most timeout / delay + 1 polls, and
   a timeout is reported only after the deadline.
   */
  method WaitForResult(poll: StatusPoll, returnWhenError: bool, delay: nat, timeout: nat)
    returns (result: Result<Option<seq<Instance>>, Error>, ghost d: seq<Event>)
    requires poll.client.Valid() && delay > 0
    modifies poll.client
    ensures poll.client.Valid() && poll.client.log == old(poll.client.log) + d
    ensures Within(d, old(poll.client.now), poll.client.now) && old(poll.client.now) <= poll.client.now
    ensures Polls(d, poll.Request(), poll.ids, poll.status, returnWhenError, delay)
    ensures |d| <= timeout / delay + 1
    ensures forall i :: 0 <= i < |d| - 1 ==>
              var p := PollOf(poll.ids, poll.status, d[i].response);
              !p.satisfied && (returnWhenError ==> p.error.None?)
    ensures var last := PollOf(poll.ids, poll.status, d[|d| - 1].response);
            var stops := last.satisfied || (returnWhenError && last.error.Some?);
            && result == WaitResult(last, returnWhenError)
            && (returnWhenError && last.error.Some? ==> result == Failure(last.error.value))
            && (stops && !(returnWhenError && last.error.Some?) ==> result == Success(last.result))
            && (!stops ==> result == Failure(TimedOut) && poll.client.now > old(poll.client.now) + timeout)
            && PausedTimes(old(poll.client.pauses), poll.client.pauses, if stops then |d| - 1 else |d|, delay)
  {
    hide PollOf, Polls, Chronological, Answered;
    var client := poll.client;
    var start := client.now;
    var endTime := start + timeout;
    d := [];
    while true
      invariant client.Valid() && client.log == old(client.log) + d
      invariant start + Pauses(|d|, delay) <= client.now
      invariant d != [] ==> client.now <= endTime
      invariant Within(d, start, client.now)
      invariant PausedTimes(old(client.pauses), client.pauses, |d|, delay)
      invariant Pending(d, poll.Request(), poll.ids, poll.status, returnWhenError, delay, client.now)
      decreases endTime - client.now
    {
      PollBound(|d|, delay, timeout, client.now - start);
      ghost var resumed := client.now;
      var p, e := poll.Invoke();
      PollsExtend(d, e, poll.Request(), poll.ids, poll.status, returnWhenError, delay, resumed);
      d := d + [e];
      EarlierGoOn(d, poll.Request(), poll.ids, poll.status, returnWhenError, delay);
      if p.error.Some? && returnWhenError {
        return Failure(p.error.value), d;
      }
      if p.satisfied {
        return Success(p.result), d;
      }
      client.Sleep(delay);
      if client.now > endTime {
        return Failure(TimedOut), d;
      }
      PendingExtend(d, poll.Request(), poll.ids, poll.status, returnWhenError, delay, client.now);
    }
  }

  /** Polls none of which stopped the wait, all of them a full pause before now. */
  predicate Pending(
    d: seq<Event>, request: Request, ids: seq<string>, status: string, returnWhenError: bool, delay: nat, now: int
  ) {
    && (d != [] ==> Polls(d, request, ids, status, returnWhenError, delay))
    && (d != [] ==> !Stops(PollOf(ids, status, d[|d| - 1].response), returnWhenError) && d[|d| - 1].at + delay <= now)
  }

  lemma PollsExtend(
    d: seq<Event>, e: Event, request: Request, ids: seq<string>, status: string, returnWhenError: bool,
    delay: nat, resumed: int
  )
    requires Pending(d, request, ids, status, returnWhenError, delay, resumed)
    requires e.request == request && Answers(request, e.response) && e.at >= resumed
    ensures Polls(d + [e], request, ids, status, returnWhenError, delay)
  {
  }

  lemma PendingExtend(
    d: seq<Event>, request: Request, ids: seq<string>, status: string, returnWhenError: bool, delay: nat, now: int
  )
    requires d != [] && Polls(d, request, ids, status, returnWhenError, delay)
    requires !Stops(PollOf(ids, status, d[|d| - 1].response), returnWhenError) && d[|d| - 1].at + delay <= now
    ensures Pending(d, request, ids, status, returnWhenError, delay, now)
  {
  }

  lemma EarlierGoOn(
    d: seq<Event>, request: Request, ids: seq<string>, status: string, returnWhenError: bool, delay: nat
  )
    requires Polls(d, request, ids, status, returnWhenError, delay)
    ensures forall i :: 0 <= i < |d| - 1 ==>
              var p := PollOf(ids, status, d[i].response);
              !p.satisfied && (returnWhenError ==> p.error.None?)
  {
    hide PollOf;
  }

  lemma MulSuccessor(n: int, delay: int)
    ensures n * delay + delay == (n + 1) * delay
  {
  }

  /** After n pauses that still end before the deadline there is room for one more poll. */
  lemma PollBound(n: nat, delay: nat, timeout: nat, elapsed: int)
    requires delay > 0 && elapsed >= Pauses(n, delay)
    requires n == 0 || elapsed <= timeout
    ensures n + 1 <= timeout / delay + 1
  {
    PausesAre(n, delay);
    MulSuccessor(timeout / delay, delay);
  }

  /** The time that n pauses take at the least. */
  function Pauses(n: nat, delay: nat): nat {
    if n == 0 then 0 else Pauses(n - 1, delay) + delay
  }

  lemma {:induction false} PausesAre(n: nat, delay: nat)
    ensures Pauses(n, delay) == n * delay
  {
    if n > 0 {
      PausesAre(n - 1, delay);
      MulSuccessor(n - 1, delay);
    }
  }

  /** A wait of waitForInstancesStatus. */
  predicate WaitCalls(d: seq<Event>, region: string, ids: seq<string>, status: string) {
    Polls(d, DescribeByIds(region, ids), ids, status, false, POLL_INTERVAL)
  }

  function WaitOutcome(d: seq<Event>, ids: seq<string>, status: string): Result<Option<seq<Instance>>, Error>
    requires d != []
  {
    WaitResult(PollOf(ids, status, d[|d| - 1].response), false)
  }

  method WaitForInstancesStatus(client: Client, region: string, ids: seq<string>, status: string, timeout: int)
    returns (result: Result<Option<seq<Instance>>, Error>, ghost d: seq<Event>)
    requires client.Valid()
    modifies client
    ensures client.Valid() && client.log == old(client.log) + d
    ensures Within(d, old(client.now), client.now) && old(client.now) <= client.now
    ensures WaitCalls(d, region, ids, status) && result == WaitOutcome(d, ids, status)
    ensures |d| <= (if timeout <= 0 then 900 else timeout) / 5 + 1
    ensures forall i, j :: 0 <= i < j < |d| ==> d[i].at + 5 <= d[j].at
    ensures result.Failure? ==> client.now > old(client.now) + if timeout <= 0 then 900 else timeout
    ensures PausedTimes(old(client.pauses), client.pauses, if result.Failure? then |d| else |d| - 1, 5)
  {
    var limit := if timeout <= 0 then DEFAULT_TIMEOUT else timeout;
    var poll := new StatusPoll(client, region, ids, status);
    result, d := WaitForResult(poll, false, POLL_INTERVAL, limit);
  }

  // --- What a finished wait means ---

  /** Every awaited instance was in the answer, with the awaited status. */
  ghost predicate AllSeen(ids: seq<string>, status: string, response: Response) {
    response.Instances? && forall id <- ids :: exists r <- response.records :: r.id == id && r.status == status
  }

  ghost predicate NothingSeen(response: Response) {
    response.Instances? && response.records == []
  }

  /**
   A poll is satisfied exactly when the answer names no instance at all, or when the IDs are distinct
   and it shows every one of them with the awaited status. Awaiting a repeated ID can only end on an
   empty answer.
   */
  lemma SatisfiedMeansSeen(region: string, ids: seq<string>, status: string, response: Response)
    requires Answers(DescribeByIds(region, ids), response) && ids != []
    ensures PollOf(ids, status, response).satisfied <==>
              NothingSeen(response) || (Distinct(ids) && AllSeen(ids, status, response))
    ensures PollOf(ids, status, response).satisfied ==>
              (PollOf(ids, status, response).result == None <==> NothingSeen(response))
    ensures PollOf(ids, status, response).error.None? <==>
              PollOf(ids, status, response).satisfied && !NothingSeen(response)
  {
    if response.Instances? && response.records != [] {
      var kept := Kept(response.records, HasStatus(status));
      var seen := Members(IdsOf(kept));
      KeptDistinct(response.records, HasStatus(status));
      SizeOfMembers(IdsOf(kept));
      SizeOfMembers(ids);
      SeenMembers(ids, status, response.records);
      if |kept| == |ids| {
        SubsetOfSameSize(seen, Members(ids));
      }
    } else if response.Instances? {
      assert ids[0] in ids;
    }
  }

  lemma SeenMembers(ids: seq<string>, status: string, records: seq<Instance>)
    requires OneRecordPerId(records, ids)
    ensures var seen := Members(IdsOf(Kept(records, HasStatus(status))));
            && seen <= Members(ids)
            && (seen == Members(ids) <==> AllSeen(ids, status, Instances(records)))
  {
    var kept := Kept(records, HasStatus(status));
    var seen := Members(IdsOf(kept));
    forall id
      ensures id in seen <==> exists r <- records :: r.id == id && r.status == status
    {
      if id in seen {
        var i :| 0 <= i < |kept| && IdsOf(kept)[i] == id;
        assert kept[i] in kept;
      }
      if r :| r in records && r.id == id && r.status == status {
        assert r in kept;
        var i :| 0 <= i < |kept| && kept[i] == r;
        assert IdsOf(kept)[i] == id;
      }
    }
    if seen == Members(ids) {
      forall id | id in ids
        ensures exists r <- records :: r.id == id && r.status == status
      {
        assert id in seen;
      }
    }
  }

  predicate Distinct(ids: seq<string>) {
    forall i, j :: 0 <= i < j < |ids| ==> ids[i] != ids[j]
  }

  function IdsOf(list: seq<Instance>): (ids: seq<string>)
    ensures |ids| == |list| && forall i :: 0 <= i < |ids| ==> ids[i] == list[i].id
  {
    seq(|list|, i requires 0 <= i < |list| => list[i].id)
  }

  lemma {:induction false} KeptDistinct(records: seq<Instance>, keep: Instance -> bool)
    requires forall i, j :: 0 <= i < j < |records| ==> records[i].id != records[j].id
    ensures Distinct(IdsOf(Kept(records, keep)))
  {
    if records != [] {
      var n := |records| - 1;
      KeptDistinct(records[..n], keep);
      forall k <- Kept(records[..n], keep)
        ensures k.id != records[n].id
      {
        assert k in records[..n];
      }
    }
  }

  function Members(ids: seq<string>): set<string> {
    set id | id in ids
  }

  lemma MembersSnoc(ids: seq<string>, id: string)
    ensures Members(ids + [id]) == Members(ids) + {id}
    ensures Distinct(ids + [id]) <==> Distinct(ids) && id !in ids
  {
    var all := ids + [id];
    assert forall i :: 0 <= i < |ids| ==> all[i] == ids[i];
    assert all[|ids|] == id;
    if id in ids {
      var i :| 0 <= i < |ids| && ids[i] == id;
      assert all[i] == all[|ids|];
    }
  }

  /** A list has at least as many entries as members, and as many exactly when it repeats none. */
  lemma {:induction false} SizeOfMembers(ids: seq<string>)
    ensures |Members(ids)| <= |ids|
    ensures |Members(ids)| == |ids| <==> Distinct(ids)
  {
    if ids != [] {
      var n := |ids| - 1;
      var before := ids[..n];
      assert ids == before + [ids[n]];
      SizeOfMembers(before);
      MembersSnoc(before, ids[n]);
      if ids[n] in before {
        assert Members(before) + {ids[n]} == Members(before);
      }
    }
  }

  lemma SubsetOfSameSize(a: set<string>, b: set<string>)
    requires a <= b && |a| >= |b|
    ensures a == b
  {
    assert b == a + (b - a);
    assert |b| == |a| + |b - a|;
  }

  /**
   A finished wait: it succeeds with nil exactly when its last poll saw no instance (whatever the
   comment on the source's function promises, an instance that is not found ends the wait), succeeds
   with instances exactly when every awaited ID was seen with the status, and otherwise timed out.
   */
  lemma WaitMeaning(d: seq<Event>, region: string, ids: seq<string>, status: string)
    requires WaitCalls(d, region, ids, status) && ids != []
    ensures var last := d[|d| - 1].response;
            && (WaitOutcome(d, ids, status) == Success(None) <==> NothingSeen(last))
            && (WaitOutcome(d, ids, status).Success? && WaitOutcome(d, ids, status).value.Some? <==>
                !NothingSeen(last) && Distinct(ids) && AllSeen(ids, status, last))
            && (WaitOutcome(d, ids, status).Failure? ==>
                forall e <- d :: !NothingSeen(e.response) && !(Distinct(ids) && AllSeen(ids, status, e.response)))
  {
    forall i | 0 <= i < |d|
      ensures PollOf(ids, status, d[i].response).satisfied <==>
                NothingSeen(d[i].response) || (Distinct(ids) && AllSeen(ids, status, d[i].response))
      ensures PollOf(ids, status, d[i].response).satisfied ==>
                (PollOf(ids, status, d[i].response).result == None <==> NothingSeen(d[i].response))
    {
      SatisfiedMeansSeen(region, ids, status, d[i].response);
    }
  }

  /** Waiting for one instance yields that instance, with the awaited status. */
  lemma WaitForOne(d: seq<Event>, region: string, id: string, status: string)
    requires WaitCalls(d, region, [id], status)
    requires WaitOutcome(d, [id], status).Success? && WaitOutcome(d, [id], status).value.Some?
    ensures var list := WaitOutcome(d, [id], status).value.value;
            |list| == 1 && list[0].id == id && list[0].status == status
  {
    var last := d[|d| - 1].response;
    var n := |d| - 1;
    assert d[n].request == DescribeByIds(region, [id]) && Answers(d[n].request, d[n].response);
    var poll := PollOf([id], status, last);
    assert poll.satisfied && poll.result.Some?;
    var records := last.records;
    assert poll.result.value == Aliased(records, HasStatus(status));
    assert OneRecordPerId(records, [id]);
    assert |records| > 0;
    assert records[0].id in [id] && records[|records| - 1].id in [id];
    assert records[0].id == records[|records| - 1].id;
    var kept := Kept(records, HasStatus(status));
    assert |kept| == |[id]| && kept[0] in kept;
  }
}
