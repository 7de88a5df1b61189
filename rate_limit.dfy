/**
  `WorkspaceRateLimitInterceptor`: a fixed-window request counter per
  workspace. The clock (`Date.now()`) is the `now` argument; the workspace id
  is the result of `Number(...)` on the route parameter.
 */
module RateLimit {
  import opened Wrappers
  import opened Js

  /** The limit and window the data-requests controller installs. */
  const DefaultLimit: int := 30
  const DefaultWindowMs: int := 60000

  const RateLimitMessage: string := "Rate limit exceeded for this workspace"

  /** A `state` entry. */
  datatype Window = Window(count: nat, windowStart: int)

  datatype Outcome = Handled | RateLimitExceeded

  /** The entry after one request: fetched or started at `now`, restarted if expired, then counted. */
  function Count(entry: Option<Window>, now: int, windowMs: int): (w: Window)
    ensures w.count >= 1
    ensures (entry.None? || now - entry.value.windowStart >= windowMs) ==> w == Window(1, now)
    ensures entry.Some? && now - entry.value.windowStart < windowMs ==>
      w.windowStart == entry.value.windowStart && w.count == entry.value.count + 1
  {
    var e := if entry.Some? then entry.value else Window(0, now);
    var e' := if now - e.windowStart >= windowMs then Window(0, now) else e;
    Window(e'.count + 1, e'.windowStart)
  }

  function Lookup(state: map<Number, Window>, id: Number): Option<Window> {
    if id in state then Some(state[id]) else None
  }

  /** How many requests of a window were let through, given how many were counted. */
  function Admitted(count: nat, limit: int): (n: nat)
    ensures n <= count
    ensures limit >= 0 ==> n <= limit
  {
    if limit <= 0 then 0 else if count <= limit then count else limit
  }

  /** Counting one more request lets it through exactly when the new count is within the limit. */
  lemma AdmittedStep(count: nat, limit: int)
    ensures Admitted(count + 1, limit) == if count + 1 <= limit then Admitted(count, limit) + 1 else Admitted(count, limit)
  {
  }

  class WorkspaceRateLimiter {
    const limit: int
    const windowMs: int
    var state: map<Number, Window>
    /** Per workspace, the requests let through in its current window. */
    ghost var admitted: map<Number, nat>

    ghost predicate Valid()
      reads this
    {
      && state.Keys == admitted.Keys
      && (forall id :: id in state ==> id.IsFinite())
      && (forall id :: id in state ==> admitted[id] == Admitted(state[id].count, limit))
    }

    constructor(limit: int := DefaultLimit, windowMs: int := DefaultWindowMs)
      ensures this.limit == limit && this.windowMs == windowMs
      ensures state == map[] && Valid()
    {
      this.limit := limit;
      this.windowMs := windowMs;
      state := map[];
      admitted := map[];
    }

    /** `intercept` */
    method Intercept(wsId: Number, now: int) returns (r: Outcome)
      requires Valid()
      modifies this
      ensures Valid()
      ensures !wsId.IsFinite() ==> r == Handled && state == old(state) && admitted == old(admitted)
      ensures wsId.IsFinite() ==>
        && state == old(state)[wsId := Count(Lookup(old(state), wsId), now, windowMs)]
        && (r == RateLimitExceeded <==> state[wsId].count > limit)
      ensures wsId.IsFinite() ==>
        var restarted := wsId !in old(state) || now - old(state)[wsId].windowStart >= windowMs;
        var before := if restarted then 0 else old(admitted)[wsId];
        admitted == old(admitted)[wsId := if r == Handled then before + 1 else before]
      ensures forall id :: id in admitted ==> limit >= 0 ==> admitted[id] <= limit
    {
      if !wsId.IsFinite() {
        return Handled;
      }
      ghost var restarted := wsId !in state || now - state[wsId].windowStart >= windowMs;
      ghost var prev := if restarted then 0 else admitted[wsId];
      var entry := if wsId in state then state[wsId] else Window(0, now);
      if now - entry.windowStart >= windowMs {
        entry := Window(0, now);
      }
      AdmittedStep(entry.count, limit);
      assert Admitted(entry.count, limit) == prev;
      entry := entry.(count := entry.count + 1);
      assert entry == Count(Lookup(state, wsId), now, windowMs);
      state := state[wsId := entry];
      admitted := admitted[wsId := Admitted(entry.count, limit)];
      r := if entry.count > limit then RateLimitExceeded else Handled;
      assert admitted == old(admitted)[wsId := if r == Handled then prev + 1 else prev];
    }
  }

  /**
    Within one window every request is counted, let through or not, so once
    a workspace is over the limit every later request of that window is
    rejected too.
   */
  lemma {:induction false} CountsWithinWindow(w: Window, times: seq<int>, windowMs: int)
    requires forall i :: 0 <= i < |times| ==> times[i] - w.windowStart < windowMs
    ensures Replay(w, times, windowMs).count == w.count + |times|
    ensures Replay(w, times, windowMs).windowStart == w.windowStart
  {
    if times != [] {
      CountsWithinWindow(w, times[..|times| - 1], windowMs);
    }
  }

  /** The entry after a run of requests of one workspace at the given times. */
  function Replay(w: Window, times: seq<int>, windowMs: int): Window {
    if times == [] then w else Count(Some(Replay(w, times[..|times| - 1], windowMs)), times[|times| - 1], windowMs)
  }
}
