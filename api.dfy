/** The API client: request parameter assembly (`getInstId`, `callApi`),
    the filtering of a describe response (`getInstId`, `retErrInfo`) and
    the status mapping of an action call (`callApi`). The HTTP exchange and
    the XML parsing are not modelled: a method receives the parsed response
    or the HTTP status that the network returned for the request it built. */
module Api {
  import opened PyDict
  import opened Signer

  datatype Option<T> = None | Some(value: T)

  const StateRunning := "running"
  const StatePending := "pending"
  const StateStopped := "stopped"

  const KeyAction := "Action"
  const KeyAccessKeyId := "AccessKeyId"
  const KeyInstId1 := "InstanceId.1"
  const KeySignature := "Signature"

  const ActionDescribe := "DescribeInstances"
  const ActionStop := "StopInstances"
  const ActionTerminate := "TerminateInstances"

  /** The module-level `PARAM`, including its stray "Actions" key. */
  const PARAM: Dict := [("Actions", "DescribeInstances"), ("SignatureMethod", "HmacSHA1"),
                        ("SignatureVersion", "2"), ("Version", "1.0")]

  /** The account's credentials, read from the configuration file. */
  datatype Credentials = Credentials(accessKeyId: string, secret: string)

  /** `PARAM`'s four fixed keys are distinct. */
  lemma ParamKeys()
    ensures DistinctKeys(PARAM)
    ensures Keys(PARAM) == {"Actions", "SignatureMethod", "SignatureVersion", "Version"}
  {
    KeysAppend([], PARAM[0]);
    assert PARAM[..2] == PARAM[..1] + [PARAM[1]];
    KeysAppend(PARAM[..1], PARAM[1]);
    assert PARAM[..3] == PARAM[..2] + [PARAM[2]];
    KeysAppend(PARAM[..2], PARAM[2]);
    assert PARAM == PARAM[..3] + [PARAM[3]];
    KeysAppend(PARAM[..3], PARAM[3]);
  }

  /** None of the keys the client adds is already in `PARAM`. */
  lemma ParamLacksAddedKeys()
    ensures KeyAccessKeyId !in Keys(PARAM) && KeyAction !in Keys(PARAM)
    ensures KeyInstId1 !in Keys(PARAM) && KeySignature !in Keys(PARAM)
  {
    ParamKeys();
  }

  /** `PARAM` as every request sees it: `main` stores the access key id in
      it before any call is made. */
  function BaseParam(accessKeyId: string): Dict
  {
    Put(PARAM, KeyAccessKeyId, accessKeyId)
  }

  /** Storing the access key id appends it after `PARAM`'s own items. */
  lemma BaseParamAppends(accessKeyId: string)
    ensures BaseParam(accessKeyId) == PARAM + [(KeyAccessKeyId, accessKeyId)]
  {
    ParamLacksAddedKeys();
  }

  /** The dict that gets signed: a copy of `PARAM` with `Action` and, when
      an instance id is given, `InstanceId.1`. */
  function RequestParams(accessKeyId: string, action: string, instId: Option<string>): Dict
  {
    var withAction := Put(BaseParam(accessKeyId), KeyAction, action);
    if instId.Some? then Put(withAction, KeyInstId1, instId.value) else withAction
  }

  /** The parameters are `PARAM` (with the access key id) followed by
      `Action` and the optional `InstanceId.1`, in that order, and no key
      occurs twice. */
  lemma RequestParamsShape(accessKeyId: string, action: string, instId: Option<string>)
    ensures var p := RequestParams(accessKeyId, action, instId);
      && DistinctKeys(p)
      && p == PARAM + [(KeyAccessKeyId, accessKeyId), (KeyAction, action)]
                + (if instId.Some? then [(KeyInstId1, instId.value)] else [])
  {
    ParamKeys();
    ParamLacksAddedKeys();
    BaseParamAppends(accessKeyId);
    var base := PARAM + [(KeyAccessKeyId, accessKeyId)];
    KeysAppend(PARAM, (KeyAccessKeyId, accessKeyId));
    DistinctAppend(PARAM, (KeyAccessKeyId, accessKeyId));
    var w := base + [(KeyAction, action)];
    KeysAppend(base, (KeyAction, action));
    DistinctAppend(base, (KeyAction, action));
    assert w == PARAM + [(KeyAccessKeyId, accessKeyId), (KeyAction, action)];
    if instId.Some? {
      DistinctAppend(w, (KeyInstId1, instId.value));
    }
  }

  /** The signed dict never holds `Signature`; its keys are `PARAM`'s
      (the stray "Actions" among them), `AccessKeyId`, `Action`, and
      `InstanceId.1` exactly when an instance id is given. */
  lemma RequestParamsKeys(accessKeyId: string, action: string, instId: Option<string>)
    ensures var p := RequestParams(accessKeyId, action, instId);
      && Keys(p) == {"Actions", "SignatureMethod", "SignatureVersion", "Version", KeyAccessKeyId, KeyAction}
                    + (if instId.Some? then {KeyInstId1} else {})
      && KeySignature !in Keys(p)
  {
    ParamKeys();
    RequestParamsShape(accessKeyId, action, instId);
    var base := PARAM + [(KeyAccessKeyId, accessKeyId)];
    KeysAppend(PARAM, (KeyAccessKeyId, accessKeyId));
    KeysAppend(base, (KeyAction, action));
    if instId.Some? {
      var w := base + [(KeyAction, action)];
      assert w + [(KeyInstId1, instId.value)] == RequestParams(accessKeyId, action, instId);
      KeysAppend(w, (KeyInstId1, instId.value));
    } else {
      assert base + [(KeyAction, action)] == RequestParams(accessKeyId, action, instId);
    }
  }

  /** The values the signed dict holds for each of its keys. */
  lemma RequestParamsValues(accessKeyId: string, action: string, instId: Option<string>)
    ensures var m := ToMap(RequestParams(accessKeyId, action, instId));
      && "Actions" in m && m["Actions"] == "DescribeInstances"
      && "SignatureMethod" in m && m["SignatureMethod"] == "HmacSHA1"
      && "SignatureVersion" in m && m["SignatureVersion"] == "2"
      && "Version" in m && m["Version"] == "1.0"
      && KeyAccessKeyId in m && m[KeyAccessKeyId] == accessKeyId
      && KeyAction in m && m[KeyAction] == action
      && (instId.Some? ==> KeyInstId1 in m && m[KeyInstId1] == instId.value)
  {
    var p := RequestParams(accessKeyId, action, instId);
    RequestParamsShape(accessKeyId, action, instId);
    ItemInToMap(p, ("Actions", "DescribeInstances"));
    ItemInToMap(p, ("SignatureMethod", "HmacSHA1"));
    ItemInToMap(p, ("SignatureVersion", "2"));
    ItemInToMap(p, ("Version", "1.0"));
    ItemInToMap(p, (KeyAccessKeyId, accessKeyId));
    ItemInToMap(p, (KeyAction, action));
    if instId.Some? {
      ItemInToMap(p, (KeyInstId1, instId.value));
    }
  }

  /** The signature of a parameter dict, as `mk_signature` computes it. */
  function Signature(hmac: (string, string) -> string, secret: string, p: Dict): string
  {
    hmac(secret, StringToSign(CanonicalQuery(p)))
  }

  /** Builds the parameters, signs them, and only then adds `Signature`. */
  method SignedRequest(hmac: (string, string) -> string, cred: Credentials, action: string, instId: Option<string>)
    returns (req: Dict)
    ensures var p := RequestParams(cred.accessKeyId, action, instId);
      && req == p + [(KeySignature, Signature(hmac, cred.secret, p))]
      && DistinctKeys(req)
      && ToMap(req) == ToMap(p)[KeySignature := Signature(hmac, cred.secret, p)]
  {
    var param := RequestParams(cred.accessKeyId, action, instId);
    RequestParamsShape(cred.accessKeyId, action, instId);
    RequestParamsKeys(cred.accessKeyId, action, instId);
    var sig := MkSignature(hmac, cred.secret, param);
    PutDistinct(param, KeySignature, sig);
    PutToMap(param, KeySignature, sig);
    req := Put(param, KeySignature, sig);
  }

  /** Two requests with the same contents carry the same signature. */
  lemma SignatureDeterministic(hmac: (string, string) -> string, secret: string, p1: Dict, p2: Dict)
    requires DistinctKeys(p1) && DistinctKeys(p2) && ToMap(p1) == ToMap(p2)
    ensures Signature(hmac, secret, p1) == Signature(hmac, secret, p2)
  {
    CanonicalQueryOrderIndependent(p1, p2);
  }

  /** One `item` of a describe response: its id (`item[0]`) and its state
      name (`item[2][1]`). */
  datatype InstanceItem = InstanceItem(id: string, state: string)

  /** A parsed describe response: the provider's error code, or the items. */
  datatype DescribeResponse = Error(code: string) | Items(items: seq<InstanceItem>)

  predicate Matches(it: InstanceItem, state: Option<string>)
  {
    state.None? || it.state == state.value
  }

  /** The ids of the items that match the filter, in document order. */
  function Select(items: seq<InstanceItem>, state: Option<string>): seq<string>
  {
    if items == [] then []
    else
      var init := Select(items[..|items| - 1], state);
      if Matches(items[|items| - 1], state) then init + [items[|items| - 1].id] else init
  }

  function Ids(items: seq<InstanceItem>): (r: seq<string>)
    ensures |r| == |items| && forall k :: 0 <= k < |items| ==> r[k] == items[k].id
  {
    seq(|items|, k requires 0 <= k < |items| => items[k].id)
  }

  /** Without a filter every id is kept. */
  lemma {:induction false} SelectNoFilter(items: seq<InstanceItem>)
    ensures Select(items, None) == Ids(items)
  {
    if items != [] {
      SelectNoFilter(items[..|items| - 1]);
    }
  }

  /** The result is an ordered selection of the response: there are
      strictly increasing positions `idx` with `r[k] == items[idx[k]].id`,
      and a position is selected exactly when its item matches. */
  lemma {:induction false} SelectIsOrderedSelection(items: seq<InstanceItem>, state: Option<string>)
    returns (idx: seq<nat>)
    ensures var r := Select(items, state);
      && |idx| == |r|
      && (forall k :: 0 <= k < |idx| ==> idx[k] < |items| && r[k] == items[idx[k]].id)
      && (forall k, l :: 0 <= k < l < |idx| ==> idx[k] < idx[l])
      && (forall i :: 0 <= i < |items| ==> (Matches(items[i], state) <==> i in idx))
  {
    if items == [] {
      idx := [];
    } else {
      var n := |items| - 1;
      var init := SelectIsOrderedSelection(items[..n], state);
      if Matches(items[n], state) {
        idx := init + [n];
      } else {
        idx := init;
      }
      forall i | 0 <= i < |items| ensures Matches(items[i], state) <==> i in idx {
        if i < n {
          assert items[..n][i] == items[i];
        }
      }
    }
  }

  /** What `getInstId` returns for a parsed response: `retErrInfo`'s empty
      list for any error code, otherwise the matching ids. */
  function DescribeResult(resp: DescribeResponse, state: Option<string>): seq<string>
  {
    match resp
    case Error(_) => []
    case Items(items) => Select(items, state)
  }

  /** `retErrInfo`: the code only chooses between a warning (instance not
      found) and an error in the log; the result is always empty. */
  function RetErrInfo(code: string, instId: Option<string>): (r: seq<string>)
    ensures r == []
  {
    []
  }

  /** The loop of `getInstId` over the response's items. */
  method FilterItems(items: seq<InstanceItem>, state: Option<string>) returns (ids: seq<string>)
    ensures ids == Select(items, state)
  {
    ids := [];
    var i := 0;
    while i < |items|
      invariant 0 <= i <= |items|
      invariant ids == Select(items[..i], state)
    {
      assert items[..i + 1][..i] == items[..i];
      var item := items[i];
      if state.None? || item.state == state.value {
        ids := ids + [item.id];
      }
      i := i + 1;
    }
    assert items[..i] == items;
  }

  /** `getInstId(instId, state, ...)`, given the response the provider
      returns for the request built here. */
  method GetInstId(hmac: (string, string) -> string, cred: Credentials, instId: Option<string>,
                   state: Option<string>, resp: DescribeResponse)
    returns (req: Dict, ids: seq<string>)
    ensures var p := RequestParams(cred.accessKeyId, ActionDescribe, instId);
      req == p + [(KeySignature, Signature(hmac, cred.secret, p))]
    ensures resp.Error? ==> ids == []
    ensures resp.Items? ==> ids == Select(resp.items, state)
  {
    req := SignedRequest(hmac, cred, ActionDescribe, instId);
    match resp {
      case Error(code) =>
        ids := RetErrInfo(code, instId);
      case Items(items) =>
        ids := FilterItems(items, state);
    }
  }

  /** `getAllInstIds()`: every instance, or none on an error response. */
  method GetAllInstIds(hmac: (string, string) -> string, cred: Credentials, resp: DescribeResponse)
    returns (req: Dict, ids: seq<string>)
    ensures var p := RequestParams(cred.accessKeyId, ActionDescribe, None);
      req == p + [(KeySignature, Signature(hmac, cred.secret, p))]
    ensures resp.Error? ==> ids == []
    ensures resp.Items? ==> ids == Ids(resp.items)
  {
    req, ids := GetInstId(hmac, cred, None, None, resp);
    if resp.Items? {
      SelectNoFilter(resp.items);
    }
  }

  /** The result of an action call: 1 for HTTP status 200, 0 otherwise. */
  function ActionResult(status: int): (r: int)
    ensures r == 0 || r == 1
    ensures r == 1 <==> status == 200
  {
    if status == 200 then 1 else 0
  }

  /** `callApi(instId, action, ...)`, given the HTTP status the provider
      answers with. */
  method CallApi(hmac: (string, string) -> string, cred: Credentials, instId: string, action: string, status: int)
    returns (req: Dict, r: int)
    ensures var p := RequestParams(cred.accessKeyId, action, Some(instId));
      req == p + [(KeySignature, Signature(hmac, cred.secret, p))]
    ensures r == 0 || r == 1
    ensures r == 1 <==> status == 200
  {
    req := SignedRequest(hmac, cred, action, Some(instId));
    r := ActionResult(status);
  }
}
