/** The request signer (`mk_signature`): the canonical query string, the
    string to sign, and the signature over it. The keyed hash itself
    (HMAC-SHA1 then base64) is a parameter `hmac(secret, stringToSign)`. */
module Signer {
  import opened PyDict
  import opened CodePointOrder

  const Host := "api.cloudhosting.biglobe.ne.jp"
  const Path := "/api/"
  /** Everything in the string to sign before the query string. */
  const SignPrefix := "GET\n" + Host + "\n" + Path + "\n"

  predicate KeysAscending(s: Dict)
  {
    forall i, j :: 0 <= i < j < |s| ==> Less(s[i].0, s[j].0)
  }

  function Insert(x: Item, s: Dict): (r: Dict)
    ensures multiset(r) == multiset(s) + multiset{x}
  {
    if s == [] then [x]
    else if Less(x.0, s[0].0) then [x] + s
    else
      assert s == [s[0]] + s[1..];
      [s[0]] + Insert(x, s[1..])
  }

  lemma {:induction false} InsertAscending(x: Item, s: Dict)
    requires KeysAscending(s) && x.0 !in Keys(s)
    ensures KeysAscending(Insert(x, s))
  {
    if s != [] && !Less(x.0, s[0].0) {
      assert s == [s[0]] + s[1..];
      assert Keys(s) == {s[0].0} + Keys(s[1..]);
      InsertAscending(x, s[1..]);
      var rest := Insert(x, s[1..]);
      LessTotal(x.0, s[0].0);
      HeadBelowInsert(x, s);
      var r := [s[0]] + rest;
      forall i, j | 0 <= i < j < |r| ensures Less(r[i].0, r[j].0) {
        if i > 0 {
          assert r[i] == rest[i - 1] && r[j] == rest[j - 1];
        } else {
          assert r[j] == rest[j - 1];
        }
      }
    } else if s != [] {
      var r := [x] + s;
      forall i, j | 0 <= i < j < |r| ensures Less(r[i].0, r[j].0) {
        if i > 0 {
          assert r[i] == s[i - 1] && r[j] == s[j - 1];
        } else if j > 1 {
          assert r[j] == s[j - 1];
          LessTransitive(x.0, s[0].0, s[j - 1].0);
        }
      }
    }
  }

  lemma HeadBelowInsert(x: Item, s: Dict)
    requires KeysAscending(s) && s != [] && Less(s[0].0, x.0)
    ensures forall j :: 0 <= j < |Insert(x, s[1..])| ==> Less(s[0].0, Insert(x, s[1..])[j].0)
  {
    var rest := Insert(x, s[1..]);
    forall j | 0 <= j < |rest| ensures Less(s[0].0, rest[j].0) {
      assert rest[j] in multiset(rest);
      if rest[j] != x {
        assert rest[j] in s[1..];
        var m :| 0 <= m < |s[1..]| && s[1..][m] == rest[j];
        assert s[m + 1] == rest[j];
      }
    }
  }

  /** `sorted(param.items())`: the items in ascending key order (Python
      compares the tuples, and on distinct keys that is the key order). */
  function SortByKey(d: Dict): (r: Dict)
    ensures multiset(r) == multiset(d)
  {
    if d == [] then [] else
      assert d == [d[0]] + d[1..];
      Insert(d[0], SortByKey(d[1..]))
  }

  lemma {:induction false} SortByKeyAscending(d: Dict)
    requires DistinctKeys(d)
    ensures KeysAscending(SortByKey(d))
  {
    if d != [] {
      assert d == [d[0]] + d[1..];
      SortByKeyAscending(d[1..]);
      var rest := SortByKey(d[1..]);
      forall i | 0 <= i < |rest| ensures rest[i].0 != d[0].0 {
        assert rest[i] in multiset(d[1..]);
        var m :| 0 <= m < |d[1..]| && d[1..][m] == rest[i];
        assert d[m + 1] == rest[i];
      }
      KeyAbsent(rest, d[0].0);
      InsertAscending(d[0], rest);
    }
  }

  /** Two key-ascending sequences holding the same items are the same
      sequence: the canonical order does not depend on the sort used. */
  lemma {:induction false} AscendingUnique(a: Dict, b: Dict)
    requires KeysAscending(a) && KeysAscending(b)
    requires |a| == |b| && forall p :: p in a <==> p in b
    ensures a == b
  {
    if a != [] {
      assert a[0] in b;
      assert b[0] in a;
      var i :| 0 <= i < |a| && a[i] == b[0];
      var j :| 0 <= j < |b| && b[j] == a[0];
      LessAsymmetric(a[0].0, b[0].0);
      LessIrreflexive(a[0].0);
      LessIrreflexive(b[0].0);
      assert a[0] == b[0];
      forall p ensures p in a[1..] <==> p in b[1..] {
        if p in a[1..] {
          var m :| 0 <= m < |a[1..]| && a[1..][m] == p;
          assert Less(a[0].0, a[m + 1].0);
          LessIrreflexive(p.0);
          assert p in b;
          var n :| 0 <= n < |b| && b[n] == p;
          assert n != 0;
          assert b[1..][n - 1] == p;
        }
        if p in b[1..] {
          var m :| 0 <= m < |b[1..]| && b[1..][m] == p;
          assert Less(b[0].0, b[m + 1].0);
          LessIrreflexive(p.0);
          assert p in a;
          var n :| 0 <= n < |a| && a[n] == p;
          assert n != 0;
          assert a[1..][n - 1] == p;
        }
      }
      AscendingUnique(a[1..], b[1..]);
      assert a == [a[0]] + a[1..] && b == [b[0]] + b[1..];
    }
  }

  /** `key=value` for one parameter. */
  function Field(p: Item): string
  {
    p.0 + "=" + p.1
  }

  /** The fields of `s` in order, separated by `&`, with no `&` at either end. */
  function Join(s: Dict): string
  {
    if |s| == 0 then ""
    else if |s| == 1 then Field(s[0])
    else Join(s[..|s| - 1]) + "&" + Field(s[|s| - 1])
  }

  /** What the loop of `mk_signature` has accumulated after the fields of
      `s`: each `key=value` followed by `&`. */
  function Pieces(s: Dict): string
  {
    if s == [] then "" else Pieces(s[..|s| - 1]) + Field(s[|s| - 1]) + "&"
  }

  lemma {:induction false} PiecesIsJoinAmpersand(s: Dict)
    requires s != []
    ensures Pieces(s) == Join(s) + "&"
  {
    if |s| == 1 {
      assert s[..0] == [];
    } else {
      PiecesIsJoinAmpersand(s[..|s| - 1]);
    }
  }

  /** The canonical query string of a parameter dict. */
  function CanonicalQuery(d: Dict): string
  {
    Join(SortByKey(d))
  }

  function StringToSign(q: string): (r: string)
  {
    SignPrefix + q
  }

  /** The string to sign is the method, host and path of the endpoint, each
      ending in a line feed, followed by the query string, which can be read
      back from it. */
  lemma StringToSignDeterminesQuery(q: string)
    ensures StringToSign(q) == "GET\napi.cloudhosting.biglobe.ne.jp\n/api/\n" + q
    ensures StringToSign(q)[41..] == q
  {
  }

  /** The canonical query string is the `&`-join of ANY key-ascending
      arrangement of the dict's items. */
  lemma CanonicalQueryIsAscendingJoin(d: Dict, s: Dict)
    requires DistinctKeys(d) && KeysAscending(s)
    requires |s| == |d| && forall p :: p in s <==> p in d
    ensures CanonicalQuery(d) == Join(s)
  {
    SortByKeyAscending(d);
    var r := SortByKey(d);
    assert |r| == |multiset(r)| == |multiset(d)| == |d|;
    forall p ensures p in r <==> p in s {
      assert p in r <==> p in multiset(r);
      assert p in d <==> p in multiset(d);
    }
    AscendingUnique(r, s);
  }

  /** The canonical query string depends only on the dict's contents, not
      on the order in which its keys were inserted. */
  lemma CanonicalQueryOrderIndependent(d1: Dict, d2: Dict)
    requires DistinctKeys(d1) && DistinctKeys(d2)
    requires ToMap(d1) == ToMap(d2)
    ensures CanonicalQuery(d1) == CanonicalQuery(d2)
  {
    SortByKeyAscending(d2);
    var s := SortByKey(d2);
    assert |s| == |multiset(s)| == |multiset(d2)| == |d2|;
    DistinctKeysCount(d1);
    DistinctKeysCount(d2);
    assert Keys(d1) == ToMap(d1).Keys == ToMap(d2).Keys == Keys(d2);
    forall p ensures p in s <==> p in d1 {
      assert p in s <==> p in multiset(s);
      ItemInToMap(d1, p);
      ItemInToMap(d2, p);
    }
    CanonicalQueryIsAscendingJoin(d1, s);
  }

  /** `mk_signature(param)`. */
  method MkSignature(hmac: (string, string) -> string, secret: string, param: Dict) returns (signature: string)
    ensures signature == hmac(secret, StringToSign(CanonicalQuery(param)))
  {
    var items := SortByKey(param);
    var qstring := "";
    var i := 0;
    while i < |items|
      invariant 0 <= i <= |items|
      invariant qstring == Pieces(items[..i])
    {
      assert items[..i + 1][..i] == items[..i];
      qstring := qstring + Field(items[i]) + "&";
      i := i + 1;
    }
    assert items[..i] == items;
    if items != [] {
      PiecesIsJoinAmpersand(items);
    }
    // qstring[:-1]; on the empty string Python's slice gives the empty string
    qstring := if |qstring| > 0 then qstring[..|qstring| - 1] else qstring;
    var string2sign := SignPrefix + qstring;
    signature := hmac(secret, string2sign);
  }

  /** Values are not escaped: a value holding `&` and `=` gives the same
      canonical query string as two separate parameters. */
  lemma QueryStringNotInjective()
    ensures var d1 := [("a", "1&b=2")];
            var d2 := [("b", "2"), ("a", "1")];
            ToMap(d1) != ToMap(d2) && CanonicalQuery(d1) == CanonicalQuery(d2)
  {
    var d1 := [("a", "1&b=2")];
    var d2 := [("b", "2"), ("a", "1")];
    assert "b" in Keys(d2) && "b" !in Keys(d1);
    assert "b" in ToMap(d2) && "b" !in ToMap(d1);
    TwoParamsQuery();
    OneParamQuery();
  }

  lemma OneParamQuery()
    ensures CanonicalQuery([("a", "1&b=2")]) == "a=1&b=2"
  {
    assert SortByKey([("a", "1&b=2")]) == [("a", "1&b=2")];
  }

  lemma TwoParamsQuery()
    ensures CanonicalQuery([("b", "2"), ("a", "1")]) == "a=1&b=2"
  {
    var d2 := [("b", "2"), ("a", "1")];
    assert !Less("b", "a");
    assert SortByKey(d2[1..]) == [("a", "1")];
    assert Insert(("b", "2"), [("a", "1")]) == [("a", "1"), ("b", "2")];
    var s := [("a", "1"), ("b", "2")];
    assert s[..1] == [("a", "1")];
    assert Join(s) == "a=1" + "&" + "b=2";
  }
}
