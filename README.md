# terminateBiglobeSrv in Dafny

A model of the script that stops and terminates cloud-hosting instances
through the provider's signed query API: it covers

- the request signer (`mk_signature`): the canonical query string, the
  string to sign, and the keyed hash over it;
- the request parameters built by `getInstId` and `callApi`;
- the filtering of describe responses (`getInstId`, `retErrInfo`,
  `getAllInstIds`) and the status mapping of `callApi`;
- the per-instance termination sequence (`terminateInst`,
  `checkInstStopped`) against a provider whose replies are given in
  advance;
- the cleaning of the instance-list file (`readInstList`);
- the batch report (`dispSuccessCnt`).

Files and modules:

| file | module | contents |
|---|---|---|
| `codepoint.dfy` | `CodePointOrder` | Python's string order (code point by code point), a strict total order |
| `pydict.dfy` | `PyDict` | a `dict[str, str]` as a sequence of items in insertion order; `d[k] = v` is `Put` |
| `signer.dfy` | `Signer` | `sorted(param.items())`, the `k=v&` loop, the string to sign, `MkSignature` |
| `api.dfy` | `Api` | `PARAM`, request parameters, describe filtering, `callApi`'s result |
| `termination.dfy` | `Termination`, `TerminationProperties` | the termination sequence as functions over a `Stage`, the `Provider` class running it, and the properties of a run |
| `instlist.dfy` | `InstList` | `readInstList` |
| `batch.dfy` | `Batch` | one sequence per instance, and the success count |

Modelling choices:

- HMAC-SHA1 followed by base64 is the function parameter
  `hmac(secret, stringToSign)`.
- The configuration file becomes a `Credentials` value (access key id and
  secret).
- Every HTTP call is replaced by a reply taken from a `Script`:
  - describe calls take a parsed response, `Error(code)` or
    `Items([(id, state), ...])`, or an exception;
  - action calls take an HTTP status or an exception.
- A run that needs a reply the script does not have is `Incomplete`. The
  poll loops have no timeout, and these are the runs that would never end
  or that the script does not cover. Every property of a run is stated for
  all scripts, so it covers exactly the runs that finish.
- `Termination` has two layers:
  - the functions `Ask`, `Act`, `Poll`, `StoppedCheck`, `StopIfRunning`,
    `TerminateWhenStopped` and `RunFrom` describe the sequence as values;
  - the class `Provider` runs it with `while true` poll loops and fields
    that it updates (the replies left and the trace of calls). Each of its
    methods is proved equal to the corresponding function.

Python's `qstring[:-1]` on an empty string gives the empty string. The
model does the same: the last character is removed only when there is one.

## Model

| member | source | states |
|---|---|---|
| CodePointOrder.LessTotal | terminateBiglobeSrv.py:71 | two different strings are ordered one way or the other, so `sorted` has a unique ascending order to produce |
| CodePointOrder.LessTransitive | terminateBiglobeSrv.py:71 | the string order used by `sorted` is transitive |
| PyDict.PutToMap | terminateBiglobeSrv.py:90 | after `d[k] = v` the keys are the old keys plus `k`, and the mapping is the old one updated at `k` |
| PyDict.PutInPlace | terminateBiglobeSrv.py:90 | assigning an existing key keeps every item in its position and changes only that key's value |
| PyDict.PutDistinct | terminateBiglobeSrv.py:90 | assignment never creates a second item with the same key |
| Signer.SortByKeyAscending | terminateBiglobeSrv.py:71 | `sorted(param.items())` lists the items in strictly ascending key order; with `Signer.SortByKey` it is a permutation of the items |
| Signer.AscendingUnique | terminateBiglobeSrv.py:71 | two ascending arrangements of the same items are equal, so the sorted order depends on the contents only |
| Signer.PiecesIsJoinAmpersand | terminateBiglobeSrv.py:71-74 | the loop's `k=v&` pieces are the `&`-joined fields followed by one `&`, which the slice removes |
| Signer.MkSignature | terminateBiglobeSrv.py:69-81 | the signature is the keyed hash, under the secret, of the string to sign made from the canonical query string of the parameters |
| Signer.CanonicalQueryIsAscendingJoin | terminateBiglobeSrv.py:70-74 | the canonical query string lists each parameter once as `key=value`, in ascending key order, joined by `&`, with no trailing `&` |
| Signer.CanonicalQueryOrderIndependent | terminateBiglobeSrv.py:70-74 | two parameter dicts with the same key-to-value contents give the same canonical query string, whatever their insertion order |
| Signer.StringToSignDeterminesQuery | terminateBiglobeSrv.py:78-79 | the string to sign is the literal `GET\napi.cloudhosting.biglobe.ne.jp\n/api/\n` followed by the query string, and the query string is everything after its first 41 characters |
| Signer.QueryStringNotInjective | terminateBiglobeSrv.py:72 | values are not escaped: `{"a": "1&b=2"}` and `{"b": "2", "a": "1"}` have different contents and the same canonical query string |
| Api.ParamKeys | terminateBiglobeSrv.py:33-37 | `PARAM` has four distinct keys, including the stray `Actions` |
| Api.BaseParamAppends | terminateBiglobeSrv.py:217 | setting `AccessKeyId` on `PARAM` appends it after the four fixed items |
| Api.RequestParamsShape | terminateBiglobeSrv.py:89-93 | the parameters signed are a copy of `PARAM` followed by `AccessKeyId`, `Action` and, only when an id is given, `InstanceId.1`, with no key twice |
| Api.RequestParamsKeys | terminateBiglobeSrv.py:89-95 | the signed parameters never contain `Signature`; their keys are exactly `PARAM`'s, `AccessKeyId`, `Action`, and `InstanceId.1` when an id is given |
| Api.RequestParamsValues | terminateBiglobeSrv.py:89-93 | the value each key of the signed parameters holds, including the given action and instance id |
| Api.SignedRequest | terminateBiglobeSrv.py:89-95 | the request is the signed parameters with `Signature` added last, computed over the parameters without it |
| Api.SignatureDeterministic | terminateBiglobeSrv.py:69-81 | parameter dicts with the same contents get the same signature |
| Api.SelectIsOrderedSelection | terminateBiglobeSrv.py:109-120 | the filtered ids are the response's ids at strictly increasing positions, and a position is kept exactly when its state equals the filter or there is no filter |
| Api.SelectNoFilter | terminateBiglobeSrv.py:84-85 | with no filter (`getAllInstIds`) every id of the response is returned, in order |
| Api.FilterItems | terminateBiglobeSrv.py:109-120 | the loop over the response items returns the ordered selection of the matching ids |
| Api.GetInstId | terminateBiglobeSrv.py:88-120 | sends the signed describe request; an error code gives `[]`, whatever the code and whether or not an id was given; otherwise it gives the ordered selection of matching ids |
| Api.GetAllInstIds | terminateBiglobeSrv.py:84-85 | the describe request without an instance id; all ids of the response, or `[]` on an error code |
| Api.ActionResult | terminateBiglobeSrv.py:181-187 | the result is 0 or 1, and it is 1 exactly when the HTTP status is 200 |
| Api.CallApi | terminateBiglobeSrv.py:172-187 | sends the signed action request for the instance; returns 1 exactly on status 200, otherwise 0 |
| Api.RetErrInfo | terminateBiglobeSrv.py:123-135 | whatever the error code and whether or not an id was given, the result is the empty list; the code only selects the log message |
| Termination.PollShape | terminateBiglobeSrv.py:157-162 | a poll loop only appends describe calls: busy polls, then the call that ended the loop (an empty result or an exception); it makes no action call |
| TerminationProperties.PollEvents | terminateBiglobeSrv.py:157-169 | in a poll loop an exception can only be the last call, and it ends the loop |
| TerminationProperties.StoppedCheckShape | terminateBiglobeSrv.py:155-169 | `checkInstStopped` only asks; when it returns, its last "running" poll was empty and the "pending" polls after it ended with an empty one |
| TerminationProperties.TailShape | terminateBiglobeSrv.py:147-148 | after the stop step only describe calls follow, then possibly the terminate request, as the very last call, right after both empty polls |
| TerminationProperties.TailOutcome | terminateBiglobeSrv.py:147-152 | after the stop step the result comes exactly from an exception or the terminate request; it is 1 exactly when that request succeeded |
| TerminationProperties.RunStartsWithRunningQuery | terminateBiglobeSrv.py:144 | the first call of `terminateInst` is the "running" describe call |
| TerminationProperties.StopOnlyAfterRunningFound | terminateBiglobeSrv.py:144-146 | the stop request is made at most once, as the second call, and only after the first describe call found the instance running |
| TerminationProperties.StopFollowsRunningFound | terminateBiglobeSrv.py:144-146 | when the first describe call found the instance running and the run went on, the next call is the stop request |
| TerminationProperties.TerminateIsLast | terminateBiglobeSrv.py:147-148 | the terminate request, when made, is the last call |
| TerminationProperties.TerminateOnlyWhenStopped | terminateBiglobeSrv.py:147-148 | the terminate request comes right after an empty "pending" poll, which follows an empty "running" poll with only busy "pending" polls in between |
| TerminationProperties.RaiseEndsRun | terminateBiglobeSrv.py:143-152 | an exception in any call is the last call, and the result is 0 |
| TerminationProperties.RunFinishes | terminateBiglobeSrv.py:143-152 | a run has a result exactly when its last call raised or was the terminate request; a run without a result used up the script |
| TerminationProperties.RunResult01 | terminateBiglobeSrv.py:148-152 | the result is 0 or 1, and it is 1 exactly when the last call is a successful terminate request |
| TerminationProperties.RunningInstanceScenario | terminateBiglobeSrv.py:142-169 | an instance reported running is asked for, stopped, polled as not running and not pending, then terminated, with result 1 |
| TerminationProperties.StoppedInstanceScenario | terminateBiglobeSrv.py:142-152 | for an instance already stopped the "running" query finds nothing, no stop request is sent, the two polls come back empty and the terminate request gives result 1 |
| Termination.Provider.Describe | terminateBiglobeSrv.py:88-121 | the ids the provider takes from a describe reply are `[]` on any error code and otherwise the instances in the reply whose state is the filter, in reply order |
| Termination.Provider.Request | terminateBiglobeSrv.py:172-187 | the result the provider takes from an action reply is 1 exactly on HTTP status 200, otherwise 0 |
| Termination.Provider.GetInstId | terminateBiglobeSrv.py:88-120 | one describe call against the next reply: the trace, the replies left and the ids found are those of `Termination.Ask` |
| Termination.Provider.CallApi | terminateBiglobeSrv.py:172-187 | one action call against the next reply: the trace, the replies left and the result are those of `Termination.Act` |
| Termination.Provider.CheckInstStopped | terminateBiglobeSrv.py:155-169 | the two `while True` loops leave the trace and the replies exactly as `Termination.StoppedCheck` describes |
| Termination.Provider.TerminateInst | terminateBiglobeSrv.py:142-152 | the calls made, the replies left and the result are those of `Termination.RunFrom`, so every property of `TerminateRun` holds for it |
| InstList.RemoveChar | terminateBiglobeSrv.py:193-194 | `replace(c, "")` leaves no occurrence of `c` and never lengthens the line |
| InstList.RemoveCharCounts | terminateBiglobeSrv.py:193-194 | `replace(c, "")` removes every `c` and keeps every other character as often as it was there |
| InstList.RemoveCharAppend | terminateBiglobeSrv.py:193-194 | removing a character distributes over concatenation, so the kept characters stay in order |
| InstList.CleanIdempotent | terminateBiglobeSrv.py:193-194 | cleaning an already cleaned line changes nothing |
| InstList.CleanLinesEntries | terminateBiglobeSrv.py:190-198 | every entry of the list is non-empty and holds no `\n` and no `\r` |
| InstList.CleanLinesIsOrderedSelection | terminateBiglobeSrv.py:190-198 | the entries are the cleaned lines at strictly increasing positions, and a line is dropped exactly when it is empty once cleaned |
| InstList.ReadInstList | terminateBiglobeSrv.py:190-198 | the loop builds exactly the cleaned, non-empty lines in file order |
| Batch.TerminateAll | terminateBiglobeSrv.py:231-232 | one result per instance, in list order, each the result of that instance's own sequence and of nothing else |
| Batch.SuccessCountCountsOnes | terminateBiglobeSrv.py:208-211 | with results 0 or 1 the sum is the number of 1s, at most the number of instances |
| Batch.BatchReport | terminateBiglobeSrv.py:208-211 | the corrected report of a finished batch gives the number of instances and the number whose terminate request succeeded |
| Batch.FiveInstancesThreeSucceed | terminateBiglobeSrv.py:208-211 | for five instances, three terminated and two whose first call raised, the corrected report gives (5, 3); the script as written logs (5, 0) |
| Batch.DispSuccessCntAsWritten | terminateBiglobeSrv.py:208-211 | as written, the report always gives 0 successes |

## Left out

- HTTP (`requests.get`): every reply is an input taken from a script.
- XML parsing and the positional indexing of the response tree: a describe
  reply is already `Error(code)` or the list of (id, state) pairs. This
  hides two things. `root[1][0][3]` (line 110) looks only at the fourth
  child of the first child of `root[1]`, so instances stored anywhere else
  in the tree are not seen. And a reply without an error code whose
  `root[1]` has too few children makes the source raise `IndexError`.
  `Termination` covers that case as a `Raised` reply. `Api.GetAllInstIds`
  has no error outcome for it.
- HMAC-SHA1 and base64: a function parameter. No collision property is
  claimed.
- The `Config` singleton and `configparser`: the access key id and the
  secret are parameters. `thread_num` is not used.
- The global mutation `PARAM[KEY_ACCESS_KEY_ID] = ...` in `main`: modelled
  as `Api.BaseParam`, the dict every request copies.
- Logging, including the two messages of `retErrInfo`: output only.
  `Api.RetErrInfo` returns `[]` for every code.
- `input()` in `confirmExecute` and `main`, the file opening in
  `readInstList`, and `time.sleep` in the poll loops: I/O and waiting.
- Splitting the file into lines: `InstList.ReadInstList` receives the
  lines. In Python's text mode `\r\n` would already arrive as `\n`; the
  model removes both characters from whatever it is given.
- `ThreadPoolExecutor`: the instances run one after another in
  `Batch.TerminateAll`. Their sequences share no state, so the results are
  the same.
- `main` itself: choosing between the file and `getAllInstIds`, the
  empty-list warning, and the catch-all `try`.
- `startInst`: an unused wrapper over `callApi`.
- Termination.Provider.GetInstId: the describe request is built by
  `Api.GetInstId` inside `Provider.Describe`, but the provider does not keep
  a record of the requests it was sent. The trace records the calls and
  what came of them.
- Termination.Provider.CallApi: the same holds for action requests, which
  `Api.CallApi` builds inside `Provider.Request`.
- Runs that never end (an instance that stays running forever): the model
  gives `Incomplete` when the script runs out, and no property is claimed
  about what such a run would do later.

## Findings

| source | as written | input that shows it | evidently intended | confidence | as-written member | corrected member |
|---|---|---|---|---|---|---|
| terminateBiglobeSrv.py:208-211 | `[successCnt + i for i in ret]` builds a list and discards it, so `successCnt` stays 0 and the log line always reports 0 successes | `dispSuccessCnt(1, [1])` reports 1 instance and 0 successes (`Batch.AsWrittenUndercounts`) | report the sum of the per-instance results, that is, the number of instances whose terminate request succeeded | not executed | Batch.DispSuccessCntAsWritten | Batch.DispSuccessCnt |
