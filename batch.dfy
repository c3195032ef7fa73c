/** The batch around `terminateInst`: one termination sequence per
    instance id, each against its own provider, with the per-instance
    results collected in the order of the id list (as `executor.map`
    yields them), and the final report of `dispSuccessCnt`. The worker
    pool itself is not modelled: the instances are run one after another,
    which gives the same results because the sequences share no state. */
module Batch {
  import opened Api
  import opened Termination
  import TerminationProperties

  /** `executor.map(terminateInst, instIdList)`: the result of each
      instance's sequence depends on that instance's replies only. */
  method TerminateAll(hmac: (string, string) -> string, cred: Credentials, ids: seq<string>, scripts: seq<Script>)
    returns (ret: seq<Outcome>)
    requires |scripts| == |ids|
    ensures |ret| == |ids|
    ensures forall i :: 0 <= i < |ids| ==> ret[i] == TerminateRun(scripts[i]).outcome
  {
    ret := [];
    var i := 0;
    while i < |ids|
      invariant 0 <= i <= |ids|
      invariant |ret| == i
      invariant forall k :: 0 <= k < i ==> ret[k] == TerminateRun(scripts[k]).outcome
    {
      var provider := new Provider(hmac, cred, scripts[i]);
      var outcome := provider.TerminateInst(ids[i]);
      ret := ret + [outcome];
      i := i + 1;
    }
  }

  /** The integers `terminateInst` returned, once every sequence finished. */
  function Values(outs: seq<Outcome>): (r: seq<int>)
    requires forall i :: 0 <= i < |outs| ==> outs[i].Done?
    ensures |r| == |outs| && forall i :: 0 <= i < |r| ==> r[i] == outs[i].result
  {
    if outs == [] then [] else [outs[0].result] + Values(outs[1..])
  }

  /** The sum of the per-instance results. */
  function SuccessCount(ret: seq<int>): int
  {
    if ret == [] then 0 else ret[0] + SuccessCount(ret[1..])
  }

  /** With results 0 or 1, the sum counts the instances whose terminate
      request succeeded, and is at most the number of instances. */
  lemma {:induction false} SuccessCountCountsOnes(ret: seq<int>)
    requires forall i :: 0 <= i < |ret| ==> ret[i] == 0 || ret[i] == 1
    ensures SuccessCount(ret) == multiset(ret)[1]
    ensures 0 <= SuccessCount(ret) <= |ret|
  {
    if ret != [] {
      SuccessCountCountsOnes(ret[1..]);
      assert ret == [ret[0]] + ret[1..];
    }
  }

  /** `dispSuccessCnt(allCnt, ret)` as written: the list comprehension
      computes `successCnt + i` for each result and discards the list, so
      the count reported is the initial 0. */
  function DispSuccessCntAsWritten(allCnt: int, ret: seq<int>): (r: (int, int))
    ensures r.0 == allCnt && r.1 == 0
  {
    var successCnt := 0;
    var _ := seq(|ret|, i requires 0 <= i < |ret| => successCnt + ret[i]);
    (allCnt, successCnt)
  }

  /** One successful instance is reported as none. */
  lemma AsWrittenUndercounts()
    ensures DispSuccessCntAsWritten(1, [1]) == (1, 0)
    ensures DispSuccessCnt(1, [1]) == (1, 1)
  {
  }

  /** `dispSuccessCnt` as intended: the number of instances and the sum of
      their results. */
  function DispSuccessCnt(allCnt: int, ret: seq<int>): (int, int)
  {
    (allCnt, SuccessCount(ret))
  }

  /** The report of a finished batch: the instances attempted, and those
      whose terminate request succeeded. */
  lemma BatchReport(scripts: seq<Script>)
    requires forall i :: 0 <= i < |scripts| ==> TerminateRun(scripts[i]).outcome.Done?
    ensures var outs := seq(|scripts|, i requires 0 <= i < |scripts| => TerminateRun(scripts[i]).outcome);
      var r := DispSuccessCnt(|scripts|, Values(outs));
      && r.0 == |scripts|
      && r.1 == multiset(Values(outs))[1]
      && 0 <= r.1 <= |scripts|
  {
    var outs := seq(|scripts|, i requires 0 <= i < |scripts| => TerminateRun(scripts[i]).outcome);
    forall i | 0 <= i < |scripts|
      ensures Values(outs)[i] == 0 || Values(outs)[i] == 1
    {
      TerminationProperties.RunResult01(scripts[i]);
    }
    SuccessCountCountsOnes(Values(outs));
  }

  /** Five instances, three whose terminate request succeeded and two whose
      first call raised: the corrected report gives (5, 3); the script as
      written logs (5, 0), see `DispSuccessCntAsWritten`. */
  lemma FiveInstancesThreeSucceed(ok: Script, failing: Script)
    requires TerminateRun(ok).outcome == Done(1)
    requires failing.queries != [] && failing.queries[0] == Raised
    ensures var outs := [TerminateRun(ok).outcome, TerminateRun(ok).outcome, TerminateRun(ok).outcome,
                         TerminateRun(failing).outcome, TerminateRun(failing).outcome];
      && (forall i :: 0 <= i < |outs| ==> outs[i].Done?)
      && DispSuccessCnt(|outs|, Values(outs)) == (5, 3)
      && DispSuccessCntAsWritten(|outs|, Values(outs)) == (5, 0)
  {
    assert TerminateRun(failing).outcome == Done(0);
    ThreeOfFive();
  }

  lemma ThreeOfFive()
    ensures Values([Done(1), Done(1), Done(1), Done(0), Done(0)]) == [1, 1, 1, 0, 0]
    ensures SuccessCount([1, 1, 1, 0, 0]) == 3
  {
    var ret := [1, 1, 1, 0, 0];
    assert ret[1..][1..][1..] == [0, 0];
    assert SuccessCount([0, 0]) == 0;
  }
}
