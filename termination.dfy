/** The per-instance termination sequence (`terminateInst`,
    `checkInstStopped`). The network is replaced by a script: the replies
    the provider gives to the describe calls and to the action calls, in
    the order they are made, each either a value or an exception. Every
    call the sequence makes is recorded as an event. A run that reaches the
    end of its script before finishing is `Incomplete`: the properties are
    stated for the runs that finish. */
module Termination {
  import opened PyDict
  import opened Api

  /** What the network gives back for one call: a value, or an exception. */
  datatype Reply<T> = Returned(value: T) | Raised

  /** The provider's replies, in call order: parsed describe responses and
      HTTP statuses of action calls. */
  datatype Script = Script(queries: seq<Reply<DescribeResponse>>, actions: seq<Reply<int>>)

  /** One API call of the sequence and what came of it. */
  datatype Event =
    | Queried(filter: string, found: seq<string>)
    | QueryRaised(filter: string)
    | Requested(action: string, result: int)
    | RequestRaised(action: string)

  /** Proceed: carry on; Aborted: an exception was raised; Exhausted: the
      script has no reply left for the next call. */
  datatype Status = Proceed | Aborted | Exhausted

  datatype Stage = Stage(events: seq<Event>, status: Status, script: Script)

  datatype Outcome = Done(result: int) | Incomplete

  datatype RunResult = RunResult(events: seq<Event>, outcome: Outcome, script: Script)

  /** A poll that found the instance still in the state polled for. */
  predicate Busy(e: Event, filter: string)
  {
    e.Queried? && e.filter == filter && e.found != []
  }

  predicate Issued(e: Event, action: string)
  {
    (e.Requested? || e.RequestRaised?) && e.action == action
  }

  predicate IsRaise(e: Event)
  {
    e.QueryRaised? || e.RequestRaised?
  }

  /** A describe call (`getInstId`), whatever came of it. */
  predicate IsQuery(e: Event)
  {
    e.Queried? || e.QueryRaised?
  }

  /** The events one poll loop adds: busy polls, then the poll that ends
      the loop (an empty result, or an exception); no end when the script
      runs out. */
  predicate PollSegment(seg: seq<Event>, filter: string, status: Status)
  {
    match status
    case Proceed =>
      |seg| > 0 && seg[|seg| - 1] == Queried(filter, [])
      && forall i :: 0 <= i < |seg| - 1 ==> Busy(seg[i], filter)
    case Aborted =>
      |seg| > 0 && seg[|seg| - 1] == QueryRaised(filter)
      && forall i :: 0 <= i < |seg| - 1 ==> Busy(seg[i], filter)
    case Exhausted =>
      forall i :: 0 <= i < |seg| ==> Busy(seg[i], filter)
  }

  /** One `getInstId(instId, filter, ...)` call inside the sequence. */
  function Ask(filter: string, p: Stage): (r: (Stage, seq<string>))
    requires p.status == Proceed
    ensures r.0.script.actions == p.script.actions
    ensures r.0.status == Proceed ==> |r.0.script.queries| < |p.script.queries|
    ensures r.0.status != Proceed ==> r.1 == []
    ensures r.0.status == Proceed ==> r.0.events == p.events + [Queried(filter, r.1)]
    ensures r.0.status == Aborted ==> r.0.events == p.events + [QueryRaised(filter)]
    ensures r.0.status == Exhausted ==> r.0.events == p.events && r.0.script == p.script && p.script.queries == []
  {
    var qs := p.script.queries;
    if qs == [] then (p.(status := Exhausted), [])
    else
      var rest := p.script.(queries := qs[1..]);
      match qs[0]
      case Raised => (Stage(p.events + [QueryRaised(filter)], Aborted, rest), [])
      case Returned(resp) =>
        var found := DescribeResult(resp, Some(filter));
        (Stage(p.events + [Queried(filter, found)], Proceed, rest), found)
  }

  /** One `callApi(instId, action, ...)` call inside the sequence. */
  function Act(action: string, p: Stage): (r: (Stage, int))
    requires p.status == Proceed
    ensures r.0.script.queries == p.script.queries
    ensures r.1 == 0 || r.1 == 1
    ensures r.0.status == Proceed ==> r.0.events == p.events + [Requested(action, r.1)]
    ensures r.0.status == Aborted ==> r.0.events == p.events + [RequestRaised(action)] && r.1 == 0
    ensures r.0.status == Exhausted ==> r.0.events == p.events && r.0.script == p.script && p.script.actions == []
  {
    var acts := p.script.actions;
    if acts == [] then (p.(status := Exhausted), 0)
    else
      var rest := p.script.(actions := acts[1..]);
      match acts[0]
      case Raised => (Stage(p.events + [RequestRaised(action)], Aborted, rest), 0)
      case Returned(status) =>
        var res := ActionResult(status);
        (Stage(p.events + [Requested(action, res)], Proceed, rest), res)
  }

  /** One `while True` poll loop of `checkInstStopped`: ask until the
      filtered list comes back empty. */
  function Poll(filter: string, p: Stage): Stage
    requires p.status == Proceed
    decreases |p.script.queries|
  {
    var (q, found) := Ask(filter, p);
    if q.status == Proceed && found != [] then Poll(filter, q) else q
  }

  /** A poll loop only appends events: busy polls and then the poll that
      ended it; it makes no action call. */
  lemma {:induction false} PollShape(filter: string, p: Stage)
    requires p.status == Proceed
    decreases |p.script.queries|
    ensures var r := Poll(filter, p);
      && |p.events| <= |r.events| && r.events[..|p.events|] == p.events
      && PollSegment(r.events[|p.events|..], filter, r.status)
      && r.script.actions == p.script.actions
  {
    var (q, found) := Ask(filter, p);
    if q.status == Proceed && found != [] {
      PollShape(filter, q);
      var r := Poll(filter, q);
      assert r.events[..|p.events|] == q.events[..|p.events|];
      assert r.events[|p.events|..] == [Queried(filter, found)] + r.events[|q.events|..];
    } else {
      assert q.events[|p.events|..] == q.events[|p.events|..|q.events|];
    }
  }

  lemma SegmentHoldsQueries(seg: seq<Event>, filter: string, status: Status)
    requires PollSegment(seg, filter, status)
    ensures forall i :: 0 <= i < |seg| ==> (seg[i].Queried? || seg[i].QueryRaised?) && seg[i].filter == filter
  {
  }

  /** `checkInstStopped`: poll for "running", then for "pending". */
  function StoppedCheck(p: Stage): (r: Stage)
    requires p.status == Proceed
  {
    var afterRunning := Poll(StateRunning, p);
    if afterRunning.status != Proceed then afterRunning else Poll(StatePending, afterRunning)
  }

  /** `except Exception: return 0`; a script that ran out gives no result. */
  function Finish(status: Status): Outcome
  {
    if status == Aborted then Done(0) else Incomplete
  }

  /** The sequence stops early at stage `p` (an exception, or no reply left). */
  function Halted(p: Stage): RunResult
  {
    RunResult(p.events, Finish(p.status), p.script)
  }

  /** The first half of `terminateInst`: ask for the instance as
      "running" and, when it is, request that it be stopped (the result of
      that request is not looked at). */
  function StopIfRunning(p0: Stage): Stage
    requires p0.status == Proceed
  {
    var (p1, running) := Ask(StateRunning, p0);
    if p1.status == Proceed && running != [] then Act(ActionStop, p1).0 else p1
  }

  /** `terminateInst(instId)` from a given stage. */
  function RunFrom(p0: Stage): RunResult
    requires p0.status == Proceed
  {
    var p2 := StopIfRunning(p0);
    if p2.status != Proceed then Halted(p2) else TerminateWhenStopped(p2)
  }

  /** The second half of `terminateInst`: `checkInstStopped`, then the
      terminate request, whose result is the result of the sequence. */
  function TerminateWhenStopped(p2: Stage): RunResult
    requires p2.status == Proceed
  {
    var p3 := StoppedCheck(p2);
    if p3.status != Proceed then Halted(p3)
    else
      var (p4, result) := Act(ActionTerminate, p3);
      if p4.status != Proceed then Halted(p4) else RunResult(p4.events, Done(result), p4.script)
  }

  /** `terminateInst(instId)` for one instance, against the script `s`. */
  function TerminateRun(s: Script): RunResult
  {
    RunFrom(Stage([], Proceed, s))
  }

  /** The provider as `terminateInst` talks to it: the credentials the
      requests are signed with, the replies still to come and the calls
      made so far. */
  class Provider {
    const hmac: (string, string) -> string
    const cred: Credentials
    var queries: seq<Reply<DescribeResponse>>
    var actions: seq<Reply<int>>
    var trace: seq<Event>

    constructor (hmac: (string, string) -> string, cred: Credentials, script: Script)
      ensures this.hmac == hmac && this.cred == cred
      ensures queries == script.queries && actions == script.actions && trace == []
    {
      this.hmac := hmac;
      this.cred := cred;
      queries := script.queries;
      actions := script.actions;
      trace := [];
    }

    /** The provider seen as a stage of the functional model. */
    function State(): Stage
      reads this
    {
      Stage(trace, Proceed, Script(queries, actions))
    }

    /** The instance ids `getInstId` extracts from a describe reply; the
        signed request it sends is the one `Api.GetInstId` builds. */
    method Describe(instId: string, filter: string, resp: DescribeResponse) returns (ids: seq<string>)
      ensures ids == DescribeResult(resp, Some(filter))
    {
      var _, found := Api.GetInstId(hmac, cred, Some(instId), Some(filter), resp);
      ids := found;
    }

    /** The result `callApi` derives from an HTTP status; the signed
        request it sends is the one `Api.CallApi` builds. */
    method Request(instId: string, action: string, status: int) returns (result: int)
      ensures result == ActionResult(status)
    {
      var _, r := Api.CallApi(hmac, cred, instId, action, status);
      result := r;
    }

    /** `getInstId(instId, filter, ...)` against the next describe reply:
        an exception ends the call; otherwise the ids are extracted. */
    method GetInstId(instId: string, filter: string) returns (status: Status, found: seq<string>)
      modifies this
      ensures (Stage(trace, status, Script(queries, actions)), found) == Ask(filter, old(State()))
    {
      if queries == [] {
        status, found := Exhausted, [];
        return;
      }
      var reply := queries[0];
      queries := queries[1..];
      match reply {
        case Raised =>
          trace := trace + [QueryRaised(filter)];
          status, found := Aborted, [];
        case Returned(resp) =>
          found := Describe(instId, filter, resp);
          trace := trace + [Queried(filter, found)];
          status := Proceed;
      }
    }

    /** `callApi(instId, action, ...)` against the next action reply. */
    method CallApi(instId: string, action: string) returns (status: Status, result: int)
      modifies this
      ensures (Stage(trace, status, Script(queries, actions)), result) == Act(action, old(State()))
    {
      if actions == [] {
        status, result := Exhausted, 0;
        return;
      }
      var reply := actions[0];
      actions := actions[1..];
      match reply {
        case Raised =>
          trace := trace + [RequestRaised(action)];
          status, result := Aborted, 0;
        case Returned(code) =>
          result := Request(instId, action, code);
          trace := trace + [Requested(action, result)];
          status := Proceed;
      }
    }

    /** `checkInstStopped(instId)`: poll until the instance is no longer
        "running", then until it is no longer "pending". */
    method CheckInstStopped(instId: string) returns (status: Status)
      modifies this
      ensures Stage(trace, status, Script(queries, actions)) == StoppedCheck(old(State()))
    {
      ghost var afterRunning := Poll(StateRunning, State());
      while true
        invariant Poll(StateRunning, State()) == afterRunning
        decreases |queries|
      {
        var found;
        status, found := GetInstId(instId, StateRunning);
        if status != Proceed || found == [] {
          break;
        }
      }
      if status != Proceed {
        return;
      }
      ghost var afterPending := Poll(StatePending, State());
      while true
        invariant Poll(StatePending, State()) == afterPending
        decreases |queries|
      {
        var found;
        status, found := GetInstId(instId, StatePending);
        if status != Proceed || found == [] {
          break;
        }
      }
    }

    /** `terminateInst(instId)`: stop the instance if it is running, wait
        until it is stopped, then terminate it; an exception gives 0. */
    method TerminateInst(instId: string) returns (outcome: Outcome)
      modifies this
      ensures var r := RunFrom(old(State()));
        trace == r.events && outcome == r.outcome && Script(queries, actions) == r.script
    {
      var status, running := GetInstId(instId, StateRunning);
      if status != Proceed {
        return Finish(status);
      }
      if running != [] {
        var stopped;
        status, stopped := CallApi(instId, ActionStop);
        if status != Proceed {
          return Finish(status);
        }
      }
      status := CheckInstStopped(instId);
      if status != Proceed {
        return Finish(status);
      }
      var result;
      status, result := CallApi(instId, ActionTerminate);
      if status != Proceed {
        return Finish(status);
      }
      outcome := Done(result);
    }
  }
}

module TerminationProperties {
  import opened Api
  import opened Termination

  /** A poll loop that ran out of replies used up every describe reply. */
  lemma {:induction false} PollExhausted(filter: string, p: Stage)
    requires p.status == Proceed
    decreases |p.script.queries|
    ensures Poll(filter, p).status == Exhausted ==> Poll(filter, p).script.queries == []
  {
    var (q, found) := Ask(filter, p);
    if q.status == Proceed && found != [] {
      PollExhausted(filter, q);
    }
  }

  /** A poll loop adds only describe events; an exception can only be the
      last of them, and it is what stops the loop as `Aborted`. */
  lemma PollEvents(filter: string, p: Stage)
    requires p.status == Proceed
    ensures var r := Poll(filter, p); var n := |r.events|;
      && |p.events| <= n && r.events[..|p.events|] == p.events
      && r.script.actions == p.script.actions
      && (forall i :: |p.events| <= i < n ==> IsQuery(r.events[i]))
      && (forall i :: |p.events| <= i < n && IsRaise(r.events[i]) ==> i == n - 1 && r.status == Aborted)
      && (r.status == Aborted ==> n > |p.events| && IsRaise(r.events[n - 1]))
      && (r.status == Exhausted ==> r.script.queries == [])
      && (r.status == Proceed ==>
            && n > |p.events| && r.events[n - 1] == Queried(filter, [])
            && forall i :: |p.events| <= i < n - 1 ==> Busy(r.events[i], filter))
  {
    var r := Poll(filter, p);
    PollShape(filter, p);
    PollExhausted(filter, p);
    SegmentHoldsQueries(r.events[|p.events|..], filter, r.status);
    assert forall i :: |p.events| <= i < |r.events| ==> r.events[i] == r.events[|p.events|..][i - |p.events|];
  }

  /** `checkInstStopped` only asks, and its events behave like one poll
      loop's; when it lets the sequence go on, its last "running" poll at
      `m - 1` was empty and the "pending" polls after it end with an empty
      one. */
  lemma StoppedCheckShape(p: Stage) returns (m: nat)
    requires p.status == Proceed
    ensures var r := StoppedCheck(p); var n := |r.events|;
      && |p.events| <= n && r.events[..|p.events|] == p.events
      && r.script.actions == p.script.actions
      && (forall i :: |p.events| <= i < n ==> IsQuery(r.events[i]))
      && (forall i :: |p.events| <= i < n && IsRaise(r.events[i]) ==> i == n - 1 && r.status == Aborted)
      && (r.status == Aborted ==> n > |p.events| && IsRaise(r.events[n - 1]))
      && (r.status == Exhausted ==> r.script.queries == [])
      && (r.status == Proceed ==>
            && |p.events| < m < n && r.events[m - 1] == Queried(StateRunning, [])
            && (forall i :: m <= i < n - 1 ==> Busy(r.events[i], StatePending))
            && r.events[n - 1] == Queried(StatePending, []))
  {
    var a := Poll(StateRunning, p);
    PollEvents(StateRunning, p);
    m := |a.events|;
    if a.status == Proceed {
      var b := Poll(StatePending, a);
      PollEvents(StatePending, a);
      assert b.events[..|p.events|] == a.events[..|p.events|];
      assert b.events[m - 1] == a.events[m - 1];
    }
  }

  /** The events of `TerminateWhenStopped`: describe calls, then possibly
      the terminate request as the very last event; that request follows
      an empty "running" poll (at `m - 1`) and the "pending" polls that
      ended with an empty one. */
  lemma TailShape(p: Stage) returns (m: nat)
    requires p.status == Proceed
    ensures var r := TerminateWhenStopped(p); var n := |r.events|;
      && |p.events| <= n && r.events[..|p.events|] == p.events
      && (forall i :: |p.events| <= i < n ==> IsQuery(r.events[i]) || (i == n - 1 && Issued(r.events[i], ActionTerminate)))
      && (forall i :: |p.events| <= i < n && IsRaise(r.events[i]) ==> i == n - 1 && r.outcome == Done(0))
      && (n > |p.events| && Issued(r.events[n - 1], ActionTerminate) ==>
            && |p.events| < m < n - 1 && r.events[m - 1] == Queried(StateRunning, [])
            && (forall i :: m <= i < n - 2 ==> Busy(r.events[i], StatePending))
            && r.events[n - 2] == Queried(StatePending, []))
  {
    var p3 := StoppedCheck(p);
    m := StoppedCheckShape(p);
    if p3.status == Proceed {
      var p4 := Act(ActionTerminate, p3).0;
      assert p4.events[..|p.events|] == p3.events[..|p.events|];
      assert forall i :: 0 <= i < |p3.events| ==> p4.events[i] == p3.events[i];
    }
  }

  /** How `TerminateWhenStopped` ends: with a result exactly when its last
      event is an exception or the terminate request; the result is 1
      exactly when that request succeeded; no result only when the script
      ran out. */
  lemma TailOutcome(p: Stage)
    requires p.status == Proceed
    ensures var r := TerminateWhenStopped(p); var n := |r.events|;
      && (r.outcome.Done? <==> n > |p.events| && (IsRaise(r.events[n - 1]) || Issued(r.events[n - 1], ActionTerminate)))
      && (r.outcome.Done? ==> (r.outcome.result == 1 <==> r.events[n - 1] == Requested(ActionTerminate, 1)))
      && (r.outcome.Done? ==> r.outcome.result == 0 || r.outcome.result == 1)
      && (r.outcome.Incomplete? ==> r.script.queries == [] || r.script.actions == [])
  {
    var p3 := StoppedCheck(p);
    var _ := StoppedCheckShape(p);
    if p3.status != Proceed {
      assert p3.status == Exhausted ==> |p3.events| == |p.events| || IsQuery(p3.events[|p3.events| - 1]);
    }
  }

  /** The events of the first half of `terminateInst`: the "running"
      query, then the stop request exactly when that query found the
      instance; an exception can only be the last of them. */
  lemma HeadShape(s: Script)
    ensures var p2 := StopIfRunning(Stage([], Proceed, s)); var ev := p2.events;
      && |ev| <= 2
      && (p2.status == Proceed ==> ev != [])
      && (ev != [] ==> IsQuery(ev[0]) && ev[0].filter == StateRunning)
      && (forall i :: 0 <= i < |ev| ==> !Issued(ev[i], ActionTerminate))
      && (forall i :: 0 <= i < |ev| && Issued(ev[i], ActionStop) ==> i == 1 && Busy(ev[0], StateRunning))
      && (ev != [] && Busy(ev[0], StateRunning) ==> (|ev| == 2 && Issued(ev[1], ActionStop)) || (|ev| == 1 && p2.status == Exhausted))
      && (forall i :: 0 <= i < |ev| && IsRaise(ev[i]) ==> i == |ev| - 1 && p2.status == Aborted)
      && (p2.status == Aborted ==> ev != [] && IsRaise(ev[|ev| - 1]))
      && (p2.status == Exhausted ==> p2.script.queries == [] || p2.script.actions == [])
  {
  }

  /** The first call of `terminateInst` asks for the instance as "running". */
  lemma RunStartsWithRunningQuery(s: Script)
    ensures var ev := TerminateRun(s).events;
      ev != [] ==> IsQuery(ev[0]) && ev[0].filter == StateRunning
  {
    var p2 := StopIfRunning(Stage([], Proceed, s));
    HeadShape(s);
    if p2.status == Proceed {
      var _ := TailShape(p2);
      assert TerminateWhenStopped(p2).events[0] == p2.events[..|p2.events|][0];
    }
  }

  /** A stop request is made at most once: as the second call, after the
      first describe call found the instance running. */
  lemma StopOnlyAfterRunningFound(s: Script)
    ensures var ev := TerminateRun(s).events;
      forall k :: 0 <= k < |ev| && Issued(ev[k], ActionStop) ==> k == 1 && Busy(ev[0], StateRunning)
  {
    var p2 := StopIfRunning(Stage([], Proceed, s));
    HeadShape(s);
    if p2.status == Proceed {
      var _ := TailShape(p2);
      var ev := TerminateWhenStopped(p2).events;
      assert forall k :: 0 <= k < |p2.events| ==> ev[k] == p2.events[k];
    }
  }

  /** Conversely, once the first describe call found the instance running,
      the next call is the stop request. */
  lemma StopFollowsRunningFound(s: Script)
    ensures var ev := TerminateRun(s).events;
      |ev| >= 2 && Busy(ev[0], StateRunning) ==> Issued(ev[1], ActionStop)
  {
    var p2 := StopIfRunning(Stage([], Proceed, s));
    HeadShape(s);
    if p2.status == Proceed {
      var _ := TailShape(p2);
      var ev := TerminateWhenStopped(p2).events;
      assert ev[0] == p2.events[0];
      if Busy(ev[0], StateRunning) {
        assert ev[1] == p2.events[1];
      }
    }
  }

  /** The terminate request, when made, is the last call of the sequence. */
  lemma TerminateIsLast(s: Script)
    ensures var ev := TerminateRun(s).events;
      forall k :: 0 <= k < |ev| && Issued(ev[k], ActionTerminate) ==> k == |ev| - 1
  {
    var p2 := StopIfRunning(Stage([], Proceed, s));
    HeadShape(s);
    if p2.status == Proceed {
      var _ := TailShape(p2);
    }
  }

  /** The terminate request is only made after `checkInstStopped` saw the
      instance neither running (the empty poll at `j`) nor pending (the
      busy "pending" polls after it ended with an empty one, just before
      the request). */
  lemma TerminateOnlyWhenStopped(s: Script) returns (j: nat)
    requires var ev := TerminateRun(s).events;
      ev != [] && Issued(ev[|ev| - 1], ActionTerminate)
    ensures var ev := TerminateRun(s).events;
      && j < |ev| - 2 && ev[j] == Queried(StateRunning, []) && ev[|ev| - 2] == Queried(StatePending, [])
      && forall i :: j < i < |ev| - 2 ==> Busy(ev[i], StatePending)
  {
    var p2 := StopIfRunning(Stage([], Proceed, s));
    HeadShape(s);
    var m := TailShape(p2);
    j := m - 1;
  }

  /** An exception ends the sequence at once, with the result 0. */
  lemma RaiseEndsRun(s: Script)
    ensures var r := TerminateRun(s);
      forall k :: 0 <= k < |r.events| && IsRaise(r.events[k]) ==> k == |r.events| - 1 && r.outcome == Done(0)
  {
    var p2 := StopIfRunning(Stage([], Proceed, s));
    HeadShape(s);
    if p2.status == Proceed {
      var _ := TailShape(p2);
      var ev := TerminateWhenStopped(p2).events;
      assert forall k :: 0 <= k < |p2.events| ==> ev[k] == p2.events[k];
    }
  }

  /** `terminateInst` returns a result exactly when its last call raised or
      was the terminate request; a run without a result used up the script. */
  lemma RunFinishes(s: Script)
    ensures var r := TerminateRun(s); var ev := r.events;
      && (r.outcome.Done? <==> ev != [] && (IsRaise(ev[|ev| - 1]) || Issued(ev[|ev| - 1], ActionTerminate)))
      && (r.outcome.Incomplete? ==> r.script.queries == [] || r.script.actions == [])
  {
    var p2 := StopIfRunning(Stage([], Proceed, s));
    HeadShape(s);
    if p2.status == Proceed {
      TailOutcome(p2);
      var _ := TailShape(p2);
    }
  }

  /** The result of `terminateInst` is 0 or 1, and it is 1 exactly when the
      terminate request was made and succeeded. */
  lemma RunResult01(s: Script)
    ensures var r := TerminateRun(s); var ev := r.events;
      && (r.outcome.Done? ==> r.outcome.result == 0 || r.outcome.result == 1)
      && (r.outcome == Done(1) <==> ev != [] && ev[|ev| - 1] == Requested(ActionTerminate, 1))
  {
    var p2 := StopIfRunning(Stage([], Proceed, s));
    HeadShape(s);
    if p2.status == Proceed {
      TailOutcome(p2);
      var _ := TailShape(p2);
    }
  }

  /** A describe reply listing one instance in the given state. */
  function OneInstance(id: string, state: string): Reply<DescribeResponse>
  {
    Returned(Items([InstanceItem(id, state)]))
  }

  /** An instance reported running is stopped, polled until it is neither
      running nor pending, then terminated; both requests succeed. */
  lemma RunningInstanceScenario()
    ensures var r := TerminateRun(Script([OneInstance("i-1", StateRunning), OneInstance("i-1", StateStopped),
                                          OneInstance("i-1", StateStopped)], [Returned(200), Returned(200)]));
      && r.events == [Queried(StateRunning, ["i-1"]), Requested(ActionStop, 1), Queried(StateRunning, []),
                      Queried(StatePending, []), Requested(ActionTerminate, 1)]
      && r.outcome == Done(1)
  {
    var running, stopped := OneInstance("i-1", StateRunning), OneInstance("i-1", StateStopped);
    var p0 := Stage([], Proceed, Script([running, stopped, stopped], [Returned(200), Returned(200)]));
    assert Select([InstanceItem("i-1", StateRunning)], Some(StateRunning)) == ["i-1"];
    var p2 := StopIfRunning(p0);
    assert p2 == Stage([Queried(StateRunning, ["i-1"]), Requested(ActionStop, 1)], Proceed,
                       Script([stopped, stopped], [Returned(200)]));
    var p3 := StoppedCheck(p2);
    assert p3.events == p2.events + [Queried(StateRunning, []), Queried(StatePending, [])];
  }

  /** For an instance already stopped the stop request is skipped. */
  lemma StoppedInstanceScenario(id: string)
    ensures var r := TerminateRun(Script([OneInstance(id, StateStopped), OneInstance(id, StateStopped),
                                          OneInstance(id, StateStopped)], [Returned(200)]));
      && r.events == [Queried(StateRunning, []), Queried(StateRunning, []), Queried(StatePending, []),
                      Requested(ActionTerminate, 1)]
      && r.outcome == Done(1)
  {
    assert Select([InstanceItem(id, StateStopped)], Some(StateRunning)) == [];
    assert Select([InstanceItem(id, StateStopped)], Some(StatePending)) == [];
  }
}
