/**
 * The global directory chaincode: an index from hospital ID to the name of the
 * regional chaincode that holds that hospital's records, CRUD over the index,
 * and the two ways of resolving a policy record through it: a point lookup of
 * the index entry followed by a cross-chaincode ReadAsset on the named shard,
 * and a rich query over the index whose first result is used the same way.
 */
module GlobalCC {
  import opened Ledger
  import opened Assets
  import AssetCC

  /** GlobalAsset: hospitalID and regionalCCName, nothing else. */
  datatype GlobalAsset = GlobalAsset(hospitalID: string, regionalCCName: string)

  type IndexState = map<string, Doc<GlobalAsset>>

  /** The five index entries InitLedger writes. */
  const InitialEntries: seq<GlobalAsset> := [
    GlobalAsset("HP1", "regionalCC1"),
    GlobalAsset("HP2", "regionalCC2"),
    GlobalAsset("HP3", "regionalCC3"),
    GlobalAsset("HP4", "regionalCC4"),
    GlobalAsset("HP5", "regionalCC5")
  ]

  /** The index InitLedger puts in place, as a map. */
  const InitialIndex: IndexState := map[
    "HP1" := Json(GlobalAsset("HP1", "regionalCC1")),
    "HP2" := Json(GlobalAsset("HP2", "regionalCC2")),
    "HP3" := Json(GlobalAsset("HP3", "regionalCC3")),
    "HP4" := Json(GlobalAsset("HP4", "regionalCC4")),
    "HP5" := Json(GlobalAsset("HP5", "regionalCC5"))
  ]

  /** The index written by putting each entry under its hospital ID, in order. */
  function IndexOf(entries: seq<GlobalAsset>): IndexState
  {
    if entries == [] then map[]
    else
      var last := entries[|entries| - 1];
      IndexOf(entries[..|entries| - 1])[last.hospitalID := Json(last)]
  }

  /** One more put extends the index by the next entry. */
  lemma PutNext(base: IndexState, entries: seq<GlobalAsset>, i: nat)
    requires i < |entries|
    ensures (base + IndexOf(entries[..i]))[entries[i].hospitalID := Json(entries[i])]
      == base + IndexOf(entries[..i + 1])
  {
    assert entries[..i + 1][..i] == entries[..i];
  }

  lemma InitialIndexContents()
    ensures IndexOf(InitialEntries) == InitialIndex
  {
    var e := InitialEntries;
    var m0: IndexState := map[];
    var m1 := m0["HP1" := Json(e[0])];
    var m2 := m1["HP2" := Json(e[1])];
    var m3 := m2["HP3" := Json(e[2])];
    var m4 := m3["HP4" := Json(e[3])];
    var m5 := m4["HP5" := Json(e[4])];
    assert e[..1][..0] == [];
    assert IndexOf(e[..1]) == m1;
    assert e[..2][..1] == e[..1];
    assert IndexOf(e[..2]) == m2;
    assert e[..3][..2] == e[..2];
    assert IndexOf(e[..3]) == m3;
    assert e[..4][..3] == e[..3];
    assert IndexOf(e[..4]) == m4;
    assert e[..4] == e[..|e| - 1];
    assert IndexOf(e) == m5;
  }

  // ---------------------------------------------------------------------
  // Cross-chaincode invocation

  /** shim.OK and shim.ERROR. */
  const OK := 200
  const ERROR := 500

  /** What InvokeChaincode returns: a status and the payload bytes. */
  datatype Response = Response(status: int, payload: Doc<Asset>)

  /** The chaincodes installed on the channel, by chaincode name. */
  type Registry = map<string, AssetCC.SmartContract>

  /**
   * InvokeChaincode(name, args, channel) on the channel's chaincodes. Only the
   * call the directory makes, ReadAsset with one argument, is dispatched; a
   * name that is not installed, any other call, and a ReadAsset that fails all
   * come back with a non-OK status. A successful ReadAsset comes back with the
   * JSON of the record it returned.
   */
  function InvokeChaincode(registry: Registry, name: string, args: seq<string>): (resp: Response)
    reads registry.Values
    ensures resp.status == OK <==>
      name in registry && |args| == 2 && args[0] == "ReadAsset" && registry[name].ReadAsset(args[1]).Ok?
    ensures resp.status == OK ==> resp.payload == Json(registry[name].ReadAsset(args[1]).value)
  {
    if name !in registry || |args| != 2 || args[0] != "ReadAsset" then Response(ERROR, Malformed)
    else
      match registry[name].ReadAsset(args[1])
      case Ok(a) => Response(OK, Json(a))
      case Err(_) => Response(ERROR, Malformed)
  }

  /**
   * The half of retrieveFromRegionalBC after the call: a non-OK status fails,
   * a payload that does not unmarshal fails, anything else is the record.
   */
  function ReadResponse(resp: Response): (r: Result<Asset>)
    ensures r.Ok? <==> resp.status == OK && resp.payload.Json?
    ensures r.Ok? ==> resp.payload == Json(r.value)
    ensures resp.status != OK ==> r == Err(RegionalInvokeFailed(resp.status))
    ensures resp.status == OK && resp.payload.Malformed? ==> r == Err(RegionalUnmarshal)
  {
    if resp.status != OK then Err(RegionalInvokeFailed(resp.status))
    else
      match resp.payload
      case Json(a) => Ok(a)
      case Malformed => Err(RegionalUnmarshal)
  }

  /**
   * retrieveFromRegionalBC: invoke ReadAsset(policyID) on chaincode rccName
   * and read the response. Succeeding means exactly that the named shard is
   * installed and its ReadAsset succeeded; the shard's record then comes back
   * unchanged.
   */
  function RetrieveFromRegionalBC(registry: Registry, rccName: string, policyID: string): (r: Result<Asset>)
    reads registry.Values
    ensures r.Ok? <==> rccName in registry && registry[rccName].ReadAsset(policyID).Ok?
    ensures r.Ok? ==> r == registry[rccName].ReadAsset(policyID)
    ensures r.Err? ==> r == Err(RegionalInvokeFailed(ERROR))
  {
    ReadResponse(InvokeChaincode(registry, rccName, ["ReadAsset", policyID]))
  }

  // ---------------------------------------------------------------------
  // Rich queries over the index (a CouchDB selector of exact field matches)

  /** The string a stored index document holds under a JSON field name, if any. */
  function Field(d: Doc<GlobalAsset>, name: string): Option<string>
  {
    match d
    case Malformed => None
    case Json(g) =>
      if name == "hospitalID" then Some(g.hospitalID)
      else if name == "regionalCCName" then Some(g.regionalCCName)
      else None
  }

  /** A selector: field name / required value pairs, all of which must match. */
  type Selector = seq<(string, string)>

  predicate Matches(d: Doc<GlobalAsset>, sel: Selector)
  {
    forall i :: 0 <= i < |sel| ==> Field(d, sel[i].0) == Some(sel[i].1)
  }

  /** The selector QueryAssetsByPolicyAndHospital builds. */
  function PolicySelector(policyID: string, hospitalID: string): Selector
  {
    [("policyID", policyID), ("hospitalID", hospitalID)]
  }

  /** The documents under keys, in that order, that match the selector. */
  function MatchingDocs(ws: IndexState, keys: seq<string>, sel: Selector): (docs: seq<Doc<GlobalAsset>>)
    requires forall k :: k in keys ==> k in ws
    ensures forall d :: d in docs ==> Matches(d, sel)
    ensures forall i :: 0 <= i < |keys| && Matches(ws[keys[i]], sel) ==> ws[keys[i]] in docs
  {
    if keys == [] then []
    else
      var rest := MatchingDocs(ws, keys[1..], sel);
      assert forall i :: 1 <= i < |keys| ==> keys[i] == keys[1..][i - 1];
      if Matches(ws[keys[0]], sel) then [ws[keys[0]]] + rest else rest
  }

  /** What GetQueryResult(selector) iterates over: matching documents in key order. */
  ghost function QueryResults(ws: IndexState, sel: Selector): seq<Doc<GlobalAsset>>
  {
    MatchingDocs(ws, KeyOrder(ws.Keys), sel)
  }

  /**
   * constructQueryResponseFromIterator: a single Next() and an unmarshal.
   * Only the first result is looked at; an empty iterator fails with Next's
   * error.
   */
  function ConstructQueryResponseFromIterator(results: seq<Doc<GlobalAsset>>): (r: Result<GlobalAsset>)
    ensures |results| == 0 ==> r == Err(NoSuchKey)
    ensures |results| > 0 ==> r == Decode(results[0])
  {
    if |results| == 0 then Err(NoSuchKey) else Decode(results[0])
  }

  /** Results after the first never influence the response. */
  lemma OnlyFirstResultRead(first: Doc<GlobalAsset>, more: seq<Doc<GlobalAsset>>, other: seq<Doc<GlobalAsset>>)
    ensures ConstructQueryResponseFromIterator([first] + more) == ConstructQueryResponseFromIterator([first] + other)
    ensures ConstructQueryResponseFromIterator([first] + more) == Decode(first)
  {
    assert ([first] + more)[0] == first && ([first] + other)[0] == first;
  }

  /** The first match of a key list is the match with the smallest position. */
  lemma {:induction false} FirstMatchIsEarliest(ws: IndexState, keys: seq<string>, sel: Selector)
    requires forall k :: k in keys ==> k in ws
    requires |MatchingDocs(ws, keys, sel)| > 0
    ensures exists j ::
      && 0 <= j < |keys| && Matches(ws[keys[j]], sel)
      && MatchingDocs(ws, keys, sel)[0] == ws[keys[j]]
      && forall i :: 0 <= i < j ==> !Matches(ws[keys[i]], sel)
    decreases |keys|
  {
    if !Matches(ws[keys[0]], sel) {
      FirstMatchIsEarliest(ws, keys[1..], sel);
      var j :| 0 <= j < |keys[1..]| && Matches(ws[keys[1..][j]], sel)
        && MatchingDocs(ws, keys[1..], sel)[0] == ws[keys[1..][j]]
        && forall i :: 0 <= i < j ==> !Matches(ws[keys[1..][i]], sel);
      assert keys[1..][j] == keys[j + 1];
      forall i | 0 <= i < j + 1
        ensures !Matches(ws[keys[i]], sel)
      {
        if i > 0 { assert keys[i] == keys[1..][i - 1]; }
      }
    }
  }

  /**
   * A query that has matches resolves to the matching entry with the least
   * key; every other matching entry is ignored.
   */
  lemma QueryTakesLeastMatchingKey(ws: IndexState, sel: Selector)
    requires exists k :: k in ws && Matches(ws[k], sel)
    ensures exists k ::
      && k in ws && Matches(ws[k], sel)
      && (forall k' :: k' in ws && Matches(ws[k'], sel) && k' != k ==> Below(k, k'))
      && ConstructQueryResponseFromIterator(QueryResults(ws, sel)) == Decode(ws[k])
  {
    var keys := KeyOrder(ws.Keys);
    KeyOrderOrdered(ws.Keys);
    var k0 :| k0 in ws && Matches(ws[k0], sel);
    var k := FirstMatchOfOrdered(ws, keys, sel, k0);
    assert QueryResults(ws, sel) == MatchingDocs(ws, keys, sel);
  }

  /**
   * Over keys listed in scan order, a query with a match yields first the
   * document of the least matching key.
   */
  lemma FirstMatchOfOrdered(ws: IndexState, keys: seq<string>, sel: Selector, k0: string) returns (k: string)
    requires StrictlyOrdered(keys)
    requires forall k :: k in keys <==> k in ws
    requires k0 in ws && Matches(ws[k0], sel)
    ensures k in ws && Matches(ws[k], sel)
    ensures forall k' :: k' in ws && Matches(ws[k'], sel) && k' != k ==> Below(k, k')
    ensures ConstructQueryResponseFromIterator(MatchingDocs(ws, keys, sel)) == Decode(ws[k])
  {
    var docs := MatchingDocs(ws, keys, sel);
    assert k0 in keys;
    var p :| 0 <= p < |keys| && keys[p] == k0;
    assert ws[keys[p]] in docs;
    FirstMatchIsEarliest(ws, keys, sel);
    var j :| && 0 <= j < |keys| && Matches(ws[keys[j]], sel)
      && docs[0] == ws[keys[j]]
      && forall i :: 0 <= i < j ==> !Matches(ws[keys[i]], sel);
    LeastOfOrdered(ws, keys, sel, j);
    k := keys[j];
  }

  /** In a strictly ordered key list, the earliest match is below every other match. */
  lemma LeastOfOrdered(ws: IndexState, keys: seq<string>, sel: Selector, j: nat)
    requires StrictlyOrdered(keys)
    requires forall k :: k in keys <==> k in ws
    requires j < |keys| && forall i :: 0 <= i < j ==> !Matches(ws[keys[i]], sel)
    ensures forall k' :: k' in ws && Matches(ws[k'], sel) && k' != keys[j] ==> Below(keys[j], k')
  {
    forall k' | k' in ws && Matches(ws[k'], sel) && k' != keys[j]
      ensures Below(keys[j], k')
    {
      assert k' in keys;
      var q :| 0 <= q < |keys| && keys[q] == k';
      assert q >= j;
    }
  }

  /** With no matching document under any key, the match list is empty. */
  lemma {:induction false} NoMatchNoResults(ws: IndexState, keys: seq<string>, sel: Selector)
    requires forall k :: k in keys ==> k in ws && !Matches(ws[k], sel)
    ensures MatchingDocs(ws, keys, sel) == []
    decreases |keys|
  {
    if keys != [] {
      assert keys[0] in keys;
      assert forall k :: k in keys[1..] ==> k in keys;
      NoMatchNoResults(ws, keys[1..], sel);
    }
  }

  /**
   * The policy selector, taken as the two field matches it is meant to be,
   * names a field, policyID, that no index entry has: an entry holds only
   * hospitalID and regionalCCName. So no document this contract writes can
   * match, the query yields no result, and reading its first result fails
   * with the exhausted iterator's error. (The IDs are pasted into the
   * selector text unescaped; an ID holding a double quote can rewrite the
   * selector, which this structured selector does not capture.)
   */
  lemma PolicySelectorMatchesNothing(ws: IndexState, policyID: string, hospitalID: string)
    ensures QueryResults(ws, PolicySelector(policyID, hospitalID)) == []
    ensures ConstructQueryResponseFromIterator(QueryResults(ws, PolicySelector(policyID, hospitalID))) == Err(NoSuchKey)
  {
    var sel := PolicySelector(policyID, hospitalID);
    forall k | k in ws
      ensures !Matches(ws[k], sel)
    {
      assert Field(ws[k], sel[0].0) == None;
    }
    NoMatchNoResults(ws, KeyOrder(ws.Keys), sel);
  }

  class SmartContract {
    var worldState: IndexState

    /** A freshly deployed directory has an empty index. */
    constructor ()
      ensures worldState == map[]
    {
      worldState := map[];
    }

    /** InitLedger: put HP1..HP5 -> regionalCC1..regionalCC5; every other key keeps its value. */
    method InitLedger() returns (r: Outcome)
      modifies this
      ensures r == Pass
      ensures worldState == old(worldState) + InitialIndex
    {
      var i := 0;
      while i < |InitialEntries|
        invariant 0 <= i <= |InitialEntries|
        invariant worldState == old(worldState) + IndexOf(InitialEntries[..i])
      {
        var asset := InitialEntries[i];
        PutNext(old(worldState), InitialEntries, i);
        worldState := worldState[asset.hospitalID := Json(asset)];
        i := i + 1;
      }
      assert InitialEntries[..i] == InitialEntries;
      InitialIndexContents();
      r := Pass;
    }

    /** AssetExists: whether GetState(id) finds a value. */
    function AssetExists(id: string): (exists_: bool)
      reads this
      ensures exists_ <==> id in worldState
    {
      id in worldState
    }

    /** ReadAsset: "does not exist" for a missing key, the decode error for a bad value, else the entry. */
    function ReadAsset(id: string): (r: Result<GlobalAsset>)
      reads this
      ensures r.Ok? <==> id in worldState && worldState[id].Json?
      ensures r.Ok? ==> worldState[id] == Json(r.value)
      ensures id !in worldState ==> r == Err(DoesNotExist(id))
      ensures id in worldState && worldState[id].Malformed? ==> r == Err(Unmarshal)
    {
      if id !in worldState then Err(DoesNotExist(id))
      else Decode(worldState[id])
    }

    /** CreateAsset: refuses an existing hospital ID, otherwise stores {hospitalID, rccName}. */
    method CreateAsset(hospitalID: string, rccName: string) returns (r: Outcome)
      modifies this
      ensures r == if old(AssetExists(hospitalID)) then Fail(AlreadyExists(hospitalID)) else Pass
      ensures r.Fail? ==> worldState == old(worldState)
      ensures r.Pass? ==> worldState == old(worldState)[hospitalID := Json(GlobalAsset(hospitalID, rccName))]
      ensures r.Pass? ==> ReadAsset(hospitalID) == Ok(GlobalAsset(hospitalID, rccName))
    {
      if AssetExists(hospitalID) {
        return Fail(AlreadyExists(hospitalID));
      }
      worldState := worldState[hospitalID := Json(GlobalAsset(hospitalID, rccName))];
      r := Pass;
    }

    /** UpdateAsset: refuses a missing hospital ID, otherwise overwrites the whole entry. */
    method UpdateAsset(hospitalID: string, rccName: string) returns (r: Outcome)
      modifies this
      ensures r == if old(AssetExists(hospitalID)) then Pass else Fail(DoesNotExist(hospitalID))
      ensures r.Fail? ==> worldState == old(worldState)
      ensures r.Pass? ==> worldState == old(worldState)[hospitalID := Json(GlobalAsset(hospitalID, rccName))]
      ensures r.Pass? ==> ReadAsset(hospitalID) == Ok(GlobalAsset(hospitalID, rccName))
    {
      if !AssetExists(hospitalID) {
        return Fail(DoesNotExist(hospitalID));
      }
      worldState := worldState[hospitalID := Json(GlobalAsset(hospitalID, rccName))];
      r := Pass;
    }

    /** DeleteAsset: refuses a missing key, otherwise removes that key and no other. */
    method DeleteAsset(id: string) returns (r: Outcome)
      modifies this
      ensures r == if old(AssetExists(id)) then Pass else Fail(DoesNotExist(id))
      ensures r.Fail? ==> worldState == old(worldState)
      ensures r.Pass? ==> worldState == old(worldState) - {id}
      ensures !AssetExists(id) && ReadAsset(id) == Err(DoesNotExist(id))
    {
      if !AssetExists(id) {
        return Fail(DoesNotExist(id));
      }
      worldState := worldState - {id};
      r := Pass;
    }

    /**
     * TransferAsset: point an entry at another regional chaincode. Fails
     * exactly when ReadAsset fails, with its error; otherwise only
     * regionalCCName changes and the decoded hospitalID is written back.
     */
    method TransferAsset(id: string, newrccName: string) returns (r: Outcome)
      modifies this
      ensures old(ReadAsset(id)).Err? ==> r == Fail(old(ReadAsset(id)).error) && worldState == old(worldState)
      ensures old(ReadAsset(id)).Ok? ==>
        r == Pass && worldState == old(worldState)[id := Json(old(ReadAsset(id)).value.(regionalCCName := newrccName))]
      ensures r.Pass? ==>
        ReadAsset(id) == Ok(GlobalAsset(old(ReadAsset(id)).value.hospitalID, newrccName))
    {
      var read := ReadAsset(id);
      if read.Err? {
        return Fail(read.error);
      }
      worldState := worldState[id := Json(read.value.(regionalCCName := newrccName))];
      r := Pass;
    }

    /** GetAllAssets: every index entry exactly once, in key order, or the decode error. */
    method GetAllAssets() returns (r: Result<seq<GlobalAsset>>)
      ensures r.Ok? <==> AllDecodable(worldState)
      ensures r.Ok? ==> Enumerates(worldState, r.value) && |r.value| == |worldState|
      ensures r.Err? ==> r.error == Unmarshal
    {
      r := ScanAll(worldState);
    }

    /**
     * ReadRegionalAsset(policyID, hospitalID): look the hospital up in the
     * index, then read policyID from the regional chaincode the entry names.
     * It reads the index and never writes it.
     */
    function ReadRegionalAsset(policyID: string, hospitalID: string, registry: Registry): (r: Result<Asset>)
      reads this, registry.Values
      ensures hospitalID !in worldState ==> r == Err(IndexNotFound(hospitalID))
      ensures hospitalID in worldState && worldState[hospitalID].Malformed? ==> r == Err(Unmarshal)
      ensures hospitalID in worldState && worldState[hospitalID].Json? ==>
        r == RetrieveFromRegionalBC(registry, worldState[hospitalID].value.regionalCCName, policyID)
      ensures r.Ok? <==>
        && hospitalID in worldState && worldState[hospitalID].Json?
        && var rcc := worldState[hospitalID].value.regionalCCName;
        && rcc in registry && registry[rcc].ReadAsset(policyID).Ok?
      ensures r.Ok? ==> r == registry[worldState[hospitalID].value.regionalCCName].ReadAsset(policyID)
    {
      if hospitalID !in worldState then Err(IndexNotFound(hospitalID))
      else
        match worldState[hospitalID]
        case Malformed => Err(Unmarshal)
        case Json(indexAsset) => RetrieveFromRegionalBC(registry, indexAsset.regionalCCName, policyID)
    }

    /** getQueryResultForQueryString: the matching index documents, in key order. */
    method GetQueryResult(sel: Selector) returns (results: seq<Doc<GlobalAsset>>)
      ensures results == QueryResults(worldState, sel)
    {
      var keys := RangeScan(worldState);
      results := MatchingDocs(worldState, keys, sel);
    }

    /**
     * QueryAssetsByPolicyAndHospital: run the policy/hospital selector, take
     * the first result and read policyID from the regional chaincode it names.
     * Together with PolicySelectorMatchesNothing: for IDs that leave the
     * selector's structure intact, the query is empty and the call fails with
     * QueryGlobalFailed(NoSuchKey).
     */
    method QueryAssetsByPolicyAndHospital(policyID: string, hospitalID: string, registry: Registry)
      returns (r: Result<Asset>)
      ensures var first := ConstructQueryResponseFromIterator(QueryResults(worldState, PolicySelector(policyID, hospitalID)));
        && (first.Err? ==> r == Err(QueryGlobalFailed(first.error)))
        && (first.Ok? ==> var got := RetrieveFromRegionalBC(registry, first.value.regionalCCName, policyID);
             r == if got.Ok? then got else Err(QueryRegionalFailed(got.error)))
    {
      var results := GetQueryResult(PolicySelector(policyID, hospitalID));
      var globalAsset := ConstructQueryResponseFromIterator(results);
      if globalAsset.Err? {
        return Err(QueryGlobalFailed(globalAsset.error));
      }
      var actualAsset := RetrieveFromRegionalBC(registry, globalAsset.value.regionalCCName, policyID);
      if actualAsset.Err? {
        return Err(QueryRegionalFailed(actualAsset.error));
      }
      r := actualAsset;
    }
  }
}
