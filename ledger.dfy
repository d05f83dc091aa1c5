/**
 * What every chaincode of the repository shares: the outcome and error types
 * of the contract methods, the world-state value as the JSON document the
 * contracts write, and the order in which the ledger's open range scan
 * (GetStateByRange("", "")) enumerates a namespace.
 *
 * The world state of one chaincode is a map from key to stored document.
 * Store I/O errors of GetState/PutState/DelState are not modelled.
 */
module Ledger {

  /** The errors the contract methods return, by the message they carry. */
  datatype Error =
    | AlreadyExists(id: string)            // create of an ID that is already stored
    | DoesNotExist(id: string)             // read, update or delete of an ID that is not stored
    | IndexNotFound(hospitalID: string)    // the global index has no entry for the hospital
    | Unmarshal                            // a stored value did not decode
    | RegionalInvokeFailed(status: int)    // the cross-chaincode call returned a non-OK status
    | RegionalUnmarshal                    // the cross-chaincode payload did not decode
    | NoSuchKey                            // the query iterator was advanced past its end
    | QueryGlobalFailed(cause: Error)      // the global half of the policy query failed
    | QueryRegionalFailed(cause: Error)    // the regional half of the policy query failed
    | RoutingNotFound(hospitalID: string)  // the gateway table has no chaincode for the hospital

  /** A value or the error a Go function returns beside a nil value. */
  datatype Result<T> = Ok(value: T) | Err(error: Error)

  datatype Option<T> = None | Some(value: T)

  /** The outcome of a Go function that returns only an error. */
  datatype Outcome = Pass | Fail(error: Error)

  /**
   * A stored world-state value. Json(v) is the document json.Marshal(v)
   * produced; Malformed stands for bytes that do not unmarshal into the
   * expected struct. The contracts themselves only ever write Json values.
   */
  datatype Doc<T> = Json(value: T) | Malformed

  /** json.Unmarshal into the expected struct. */
  function Decode<T>(d: Doc<T>): (r: Result<T>)
    ensures r.Ok? <==> d.Json?
    ensures r.Ok? ==> d == Json(r.value)
    ensures r.Err? ==> r.error == Unmarshal
  {
    match d
    case Json(v) => Ok(v)
    case Malformed => Err(Unmarshal)
  }

  // ---------------------------------------------------------------------
  // Key order of the ledger's range scan: Go's byte-wise string order, which
  // for UTF-8 text coincides with the order of code points.

  /** a sorts strictly before b. */
  predicate Below(a: string, b: string)
  {
    if |a| == 0 then |b| > 0
    else if |b| == 0 then false
    else if a[0] != b[0] then a[0] < b[0]
    else Below(a[1..], b[1..])
  }

  lemma BelowIrreflexive(a: string)
    ensures !Below(a, a)
  {
    if |a| > 0 {
      BelowIrreflexive(a[1..]);
    }
  }

  lemma BelowTransitive(a: string, b: string, c: string)
    requires Below(a, b) && Below(b, c)
    ensures Below(a, c)
  {
    if |a| > 0 && |b| > 0 && |c| > 0 && a[0] == b[0] && b[0] == c[0] {
      BelowTransitive(a[1..], b[1..], c[1..]);
    }
  }

  lemma BelowTotal(a: string, b: string)
    requires a != b
    ensures Below(a, b) || Below(b, a)
  {
    if |a| > 0 && |b| > 0 && a[0] == b[0] {
      assert a == [a[0]] + a[1..] && b == [b[0]] + b[1..];
      BelowTotal(a[1..], b[1..]);
    }
  }

  /** k is the first key of s in scan order. */
  predicate IsLeast(k: string, s: set<string>)
  {
    k in s && forall j :: j in s && j != k ==> Below(k, j)
  }

  lemma {:induction false} LeastExists(s: set<string>)
    requires s != {}
    ensures exists k :: IsLeast(k, s)
    decreases |s|
  {
    var x :| x in s;
    if s == {x} {
      assert IsLeast(x, s);
    } else {
      var rest := s - {x};
      LeastExists(rest);
      var y :| IsLeast(y, rest);
      if Below(x, y) {
        forall j | j in s && j != x
          ensures Below(x, j)
        {
          if j != y { BelowTransitive(x, y, j); }
        }
        assert IsLeast(x, s);
      } else {
        BelowTotal(x, y);
        assert IsLeast(y, s);
      }
    }
  }

  lemma LeastUnique(s: set<string>, k: string, k': string)
    requires IsLeast(k, s) && IsLeast(k', s)
    ensures k == k'
  {
    if k != k' {
      BelowTransitive(k, k', k);
      BelowIrreflexive(k);
    }
  }

  /** Strictly increasing in scan order, hence without duplicates. */
  predicate StrictlyOrdered(keys: seq<string>)
  {
    forall i, j :: 0 <= i < j < |keys| ==> Below(keys[i], keys[j])
  }

  /**
   * The keys of a namespace in the order the open range scan yields them:
   * the least key first, then the rest.
   */
  ghost function KeyOrder(s: set<string>): (keys: seq<string>)
    ensures |keys| == |s|
    ensures forall k :: k in keys <==> k in s
    decreases |s|
  {
    if s == {} then []
    else
      LeastExists(s);
      var k :| IsLeast(k, s);
      [k] + KeyOrder(s - {k})
  }

  /**
   * The range scan enumerates each key of the namespace exactly once, in
   * strictly increasing order.
   */
  lemma {:induction false} KeyOrderOrdered(s: set<string>)
    ensures StrictlyOrdered(KeyOrder(s))
    decreases |s|
  {
    if s != {} {
      LeastExists(s);
      var k :| IsLeast(k, s) && KeyOrder(s) == [k] + KeyOrder(s - {k});
      var rest := KeyOrder(s - {k});
      KeyOrderOrdered(s - {k});
      forall j | 0 <= j < |rest|
        ensures Below(k, rest[j])
      {
        assert rest[j] in s - {k};
      }
      ConsOrdered(k, rest);
    }
  }

  /** A key below every key of an ordered list can be put in front of it. */
  lemma ConsOrdered(k: string, rest: seq<string>)
    requires StrictlyOrdered(rest)
    requires forall j :: 0 <= j < |rest| ==> Below(k, rest[j])
    ensures StrictlyOrdered([k] + rest)
  {
    forall i, j | 0 <= i < j < |[k] + rest|
      ensures Below(([k] + rest)[i], ([k] + rest)[j])
    {
      if i > 0 {
        assert ([k] + rest)[i] == rest[i - 1];
      }
      assert ([k] + rest)[j] == rest[j - 1];
    }
  }

  /** The scan starts with the least key of the set, whichever way it is found. */
  lemma KeyOrderStep(s: set<string>, k: string)
    requires IsLeast(k, s)
    ensures KeyOrder(s) == [k] + KeyOrder(s - {k})
  {
    var k' :| IsLeast(k', s) && KeyOrder(s) == [k'] + KeyOrder(s - {k'});
    LeastUnique(s, k, k');
  }

  /** Moving the least remaining key to the end of the scanned prefix keeps the whole order. */
  lemma ScanStep(prefix: seq<string>, remaining: set<string>, k: string)
    requires IsLeast(k, remaining)
    ensures (prefix + [k]) + KeyOrder(remaining - {k}) == prefix + KeyOrder(remaining)
  {
    KeyOrderStep(remaining, k);
    assert (prefix + [k]) + KeyOrder(remaining - {k}) == prefix + ([k] + KeyOrder(remaining - {k}));
  }

  /**
   * The keys of m in scan order. The ledger's iterator yields them one at a
   * time; the model takes the whole sequence at once.
   */
  method RangeScan<V>(m: map<string, V>) returns (keys: seq<string>)
    ensures keys == KeyOrder(m.Keys)
  {
    keys := [];
    var remaining := m.Keys;
    while remaining != {}
      invariant remaining <= m.Keys
      invariant keys + KeyOrder(remaining) == KeyOrder(m.Keys)
      decreases |remaining|
    {
      LeastExists(remaining);
      var k :| IsLeast(k, remaining);
      ScanStep(keys, remaining, k);
      keys := keys + [k];
      remaining := remaining - {k};
    }
    assert keys + KeyOrder(remaining) == keys;
  }

  /** Every stored document decodes. */
  ghost predicate AllDecodable<T>(m: map<string, Doc<T>>)
  {
    forall k :: k in m ==> m[k].Json?
  }

  /** vals holds the decoded document of each key of m, in scan order. */
  ghost predicate Enumerates<T>(m: map<string, Doc<T>>, vals: seq<T>)
  {
    var keys := KeyOrder(m.Keys);
    && |vals| == |keys|
    && forall i :: 0 <= i < |vals| ==> m[keys[i]] == Json(vals[i])
  }

  /**
   * Every GetAllAssets: walk the range scan and unmarshal each value; the
   * first value that does not unmarshal aborts the whole listing.
   */
  method ScanAll<T>(m: map<string, Doc<T>>) returns (r: Result<seq<T>>)
    ensures r.Ok? <==> AllDecodable(m)
    ensures r.Ok? ==> Enumerates(m, r.value)
    ensures r.Err? ==> r.error == Unmarshal
  {
    var keys := RangeScan(m);
    r := DecodeEach(m, keys);
  }

  /**
   * The loop of GetAllAssets over the keys the scan yields: unmarshal each
   * value and append it, or stop at the first that does not unmarshal.
   */
  method DecodeEach<T>(m: map<string, Doc<T>>, keys: seq<string>) returns (r: Result<seq<T>>)
    requires forall k :: k in keys <==> k in m
    ensures r.Ok? <==> AllDecodable(m)
    ensures r.Ok? ==> |r.value| == |keys| && forall j :: 0 <= j < |keys| ==> m[keys[j]] == Json(r.value[j])
    ensures r.Err? ==> r.error == Unmarshal
  {
    var assets: seq<T> := [];
    var i := 0;
    while i < |keys|
      invariant 0 <= i <= |keys|
      invariant |assets| == i
      invariant forall j :: 0 <= j < i ==> m[keys[j]] == Json(assets[j])
    {
      var d := m[keys[i]];
      match d {
        case Malformed =>
          NotAllDecodable(m, keys[i]);
          return Err(Unmarshal);
        case Json(v) =>
          assets := assets + [v];
      }
      i := i + 1;
    }
    ScannedAll(m, keys, assets);
    r := Ok(assets);
  }

  /** One stored value that does not decode spoils the whole listing. */
  lemma NotAllDecodable<T>(m: map<string, Doc<T>>, k: string)
    requires k in m && m[k].Malformed?
    ensures !AllDecodable(m)
  {
  }

  /** Values decoded for every scanned key mean every stored value decodes. */
  lemma ScannedAll<T>(m: map<string, Doc<T>>, keys: seq<string>, vals: seq<T>)
    requires forall k :: k in keys <==> k in m
    requires |vals| == |keys|
    requires forall j :: 0 <= j < |keys| ==> m[keys[j]] == Json(vals[j])
    ensures AllDecodable(m)
  {
    forall k | k in m
      ensures m[k].Json?
    {
      var j :| 0 <= j < |keys| && keys[j] == k;
    }
  }
}
