/**
  The polling cadence of `useLatestDataRequest` and `useDataRequest`: while
  the request is PENDING the query refetches every `baseMs`, and every
  `slowMs` once more than `slowAfterMs` have passed since the first active
  poll; any other status stops polling and forgets that start time. The
  closure's captured `firstStartedAt` is a field; the two `Date.now()` reads
  of one call are the arguments `startClock` and `nowClock`.
 */
module Polling {
  import opened Wrappers
  import opened Status
  import DataRequestsModels

  const DefaultBaseMs: int := 2000
  const DefaultSlowAfterMs: int := 60000
  const DefaultSlowMs: int := 5000

  /** `isActive` */
  predicate IsActive(s: Option<RequestStatus>) {
    s == Some(Pending)
  }

  /** Every known status is either still polled or final, never both. */
  lemma FinalIffNotActive(s: RequestStatus)
    ensures DataRequestsModels.IsFinalStatus(s) <==> !IsActive(Some(s))
  {
  }

  /** `!!wid.value` on a numeric id (NaN is not modelled). */
  predicate IdTruthy(id: Option<int>) {
    id.Some? && id.value != 0
  }

  /** The `enabled` flag of the detail query: both ids are set and non-zero. */
  predicate DetailEnabled(workspaceId: Option<int>, requestId: Option<int>) {
    IdTruthy(workspaceId) && IdTruthy(requestId)
  }

  /** The detail query key: both ids when `wid.value && rid.value`, the `'none'` key (None) otherwise. */
  function DetailKey(workspaceId: Option<int>, requestId: Option<int>): Option<(int, int)> {
    if IdTruthy(workspaceId) && IdTruthy(requestId) then Some((workspaceId.value, requestId.value)) else None
  }

  /** The detail query runs exactly when its key names a request, and then with both ids set and non-zero. */
  lemma DetailEnabledIffKeyed(workspaceId: Option<int>, requestId: Option<int>)
    ensures DetailEnabled(workspaceId, requestId) <==> DetailKey(workspaceId, requestId).Some?
    ensures DetailEnabled(workspaceId, requestId) ==>
      DetailKey(workspaceId, requestId).value.0 != 0 && DetailKey(workspaceId, requestId).value.1 != 0
    ensures workspaceId == Some(0) || requestId == Some(0) || workspaceId.None? || requestId.None? ==>
      !DetailEnabled(workspaceId, requestId)
  {
  }

  /** `baseMs`, `slowAfterMs` and `slowMs` after the `??` defaults. */
  datatype Cadence = Cadence(baseMs: int, slowAfterMs: int, slowMs: int)

  function CadenceOf(baseMs: Option<int>, slowAfterMs: Option<int>, slowMs: Option<int>): (c: Cadence)
    ensures baseMs.None? && slowAfterMs.None? && slowMs.None? ==> c == Cadence(2000, 60000, 5000)
    ensures baseMs.Some? ==> c.baseMs == baseMs.value
    ensures slowAfterMs.Some? ==> c.slowAfterMs == slowAfterMs.value
    ensures slowMs.Some? ==> c.slowMs == slowMs.value
  {
    Cadence(baseMs.GetOr(DefaultBaseMs), slowAfterMs.GetOr(DefaultSlowAfterMs), slowMs.GetOr(DefaultSlowMs))
  }

  /** What one call of the closure sees: the status of the cached data and the two clock reads. */
  datatype PollInput = PollInput(status: Option<RequestStatus>, startClock: int, nowClock: int)

  /** The start time after one call. */
  function NextStart(firstStartedAt: int, p: PollInput): int {
    if !IsActive(p.status) then 0
    else if firstStartedAt == 0 then p.startClock
    else firstStartedAt
  }

  /** The interval one call returns; `None` is `false`, which stops polling. */
  function Interval(c: Cadence, firstStartedAt: int, p: PollInput): (r: Option<int>)
    ensures r.None? <==> !IsActive(p.status)
    ensures r.Some? ==> r.value == c.baseMs || r.value == c.slowMs
  {
    if !IsActive(p.status) then None
    else if p.nowClock - NextStart(firstStartedAt, p) > c.slowAfterMs then Some(c.slowMs)
    else Some(c.baseMs)
  }

  /** The closure's captured state. */
  class Poller {
    const cadence: Cadence
    var firstStartedAt: int

    constructor(baseMs: Option<int>, slowAfterMs: Option<int>, slowMs: Option<int>)
      ensures cadence == CadenceOf(baseMs, slowAfterMs, slowMs) && firstStartedAt == 0
    {
      cadence := CadenceOf(baseMs, slowAfterMs, slowMs);
      firstStartedAt := 0;
    }

    /** The `refetchInterval` closure. */
    method RefetchInterval(status: Option<RequestStatus>, startClock: int, nowClock: int) returns (interval: Option<int>)
      modifies this
      ensures firstStartedAt == NextStart(old(firstStartedAt), PollInput(status, startClock, nowClock))
      ensures interval == Interval(cadence, old(firstStartedAt), PollInput(status, startClock, nowClock))
    {
      if status.None? || !IsActive(status) {
        firstStartedAt := 0;
        return None;
      }
      if firstStartedAt == 0 {
        firstStartedAt := startClock;
      }
      var elapsed := nowClock - firstStartedAt;
      interval := if elapsed > cadence.slowAfterMs then Some(cadence.slowMs) else Some(cadence.baseMs);
    }
  }

  /** The start time after a run of calls. */
  function Replay(firstStartedAt: int, polls: seq<PollInput>): int
    decreases |polls|
  {
    if polls == [] then firstStartedAt else Replay(NextStart(firstStartedAt, polls[0]), polls[1..])
  }

  lemma {:induction false} ReplayAppend(firstStartedAt: int, a: seq<PollInput>, b: seq<PollInput>)
    ensures Replay(firstStartedAt, a + b) == Replay(Replay(firstStartedAt, a), b)
    decreases |a|
  {
    if a == [] {
      assert a + b == b;
    } else {
      assert (a + b)[0] == a[0] && (a + b)[1..] == a[1..] + b;
      ReplayAppend(NextStart(firstStartedAt, a[0]), a[1..], b);
    }
  }

  predicate AllActive(polls: seq<PollInput>) {
    forall i :: 0 <= i < |polls| ==> IsActive(polls[i].status)
  }

  /** While the request stays PENDING a recorded start time is kept. */
  lemma {:induction false} ActiveRunKeepsStart(firstStartedAt: int, polls: seq<PollInput>)
    requires firstStartedAt != 0 && AllActive(polls)
    ensures Replay(firstStartedAt, polls) == firstStartedAt
    decreases |polls|
  {
    if polls != [] {
      assert AllActive(polls[1..]) by {
        forall i | 0 <= i < |polls| - 1
          ensures IsActive(polls[1..][i].status)
        {
          assert polls[1..][i] == polls[i + 1];
        }
      }
      ActiveRunKeepsStart(firstStartedAt, polls[1..]);
    }
  }

  /**
    A run of PENDING polls measures its elapsed time from the first of them:
    the start time is that poll's clock reading, whatever came before the
    last poll that saw another status.
   */
  lemma ActiveRunStartsAtFirstPoll(firstStartedAt: int, before: seq<PollInput>, stop: PollInput, run: seq<PollInput>)
    requires !IsActive(stop.status)
    requires run != [] && AllActive(run) && run[0].startClock != 0
    ensures Replay(firstStartedAt, before + [stop] + run) == run[0].startClock
  {
    ReplayAppend(firstStartedAt, before + [stop], run);
    ReplayAppend(firstStartedAt, before, [stop]);
    assert Replay(Replay(firstStartedAt, before), [stop]) == 0;
    var s := NextStart(0, run[0]);
    assert Replay(0, run) == Replay(s, run[1..]);
    assert AllActive(run[1..]) by {
      forall i | 0 <= i < |run| - 1
        ensures IsActive(run[1..][i].status)
      {
        assert run[1..][i] == run[i + 1];
      }
    }
    ActiveRunKeepsStart(s, run[1..]);
  }

  /**
    The interval a PENDING poll returns after a run of PENDING polls is the
    slow one exactly when more than `slowAfterMs` have passed since the first
    poll of the run.
   */
  lemma IntervalAfterActiveRun(
    c: Cadence, firstStartedAt: int, before: seq<PollInput>, stop: PollInput, run: seq<PollInput>, p: PollInput)
    requires !IsActive(stop.status)
    requires run != [] && AllActive(run) && run[0].startClock != 0
    requires IsActive(p.status)
    ensures Interval(c, Replay(firstStartedAt, before + [stop] + run), p) ==
      Some(if p.nowClock - run[0].startClock > c.slowAfterMs then c.slowMs else c.baseMs)
  {
    ActiveRunStartsAtFirstPoll(firstStartedAt, before, stop, run);
  }

  /** The first PENDING poll after another status measures from its own clock reading. */
  lemma IntervalOfFirstActivePoll(c: Cadence, firstStartedAt: int, before: seq<PollInput>, stop: PollInput, p: PollInput)
    requires !IsActive(stop.status) && IsActive(p.status)
    ensures Interval(c, Replay(firstStartedAt, before + [stop]), p) ==
      Some(if p.nowClock - p.startClock > c.slowAfterMs then c.slowMs else c.baseMs)
  {
    StopResets(firstStartedAt, before, stop);
  }

  /** Any status other than PENDING resets the start time, whatever happened before. */
  lemma StopResets(firstStartedAt: int, before: seq<PollInput>, stop: PollInput)
    requires !IsActive(stop.status)
    ensures Replay(firstStartedAt, before + [stop]) == 0
  {
    ReplayAppend(firstStartedAt, before, [stop]);
  }
}
