/**
 * The asset chaincode run on every regional shard (atcc's chaincode package
 * and regionalCC3 carry the same contract code, differing only in the name of
 * the record type and in their seed data). A SmartContract object stands for
 * the contract together with its chaincode namespace: the field worldState is
 * what GetState/PutState/DelState read and write, keyed by asset ID.
 */
module AssetCC {
  import opened Ledger
  import opened Assets

  type WorldState = map<string, Doc<Asset>>

  /** The world state written by a sequence of PutState(asset.ID, asset) calls, in order. */
  function StoreAll(ws: WorldState, assets: seq<Asset>): WorldState
    decreases |assets|
  {
    if |assets| == 0 then ws
    else StoreAll(ws[assets[0].id := Json(assets[0])], assets[1..])
  }

  /** After the puts, a key is present iff it was before or some asset carries it. */
  lemma {:induction false} StoreAllKeys(ws: WorldState, assets: seq<Asset>, k: string)
    ensures k in StoreAll(ws, assets) <==>
      k in ws || exists i :: 0 <= i < |assets| && assets[i].id == k
    decreases |assets|
  {
    if |assets| > 0 {
      StoreAllKeys(ws[assets[0].id := Json(assets[0])], assets[1..], k);
      if exists i :: 0 <= i < |assets[1..]| && assets[1..][i].id == k {
        var i :| 0 <= i < |assets[1..]| && assets[1..][i].id == k;
        assert assets[i + 1].id == k;
      }
      if exists i :: 0 <= i < |assets| && assets[i].id == k {
        var i :| 0 <= i < |assets| && assets[i].id == k;
        if i > 0 { assert assets[1..][i - 1].id == k; }
      }
    }
  }

  /** The last put to a key decides what is stored under it. */
  lemma {:induction false} StoreAllLastWins(ws: WorldState, assets: seq<Asset>, i: nat)
    requires i < |assets|
    requires forall j :: i < j < |assets| ==> assets[j].id != assets[i].id
    ensures assets[i].id in StoreAll(ws, assets)
    ensures StoreAll(ws, assets)[assets[i].id] == Json(assets[i])
    decreases |assets|
  {
    var ws' := ws[assets[0].id := Json(assets[0])];
    if i == 0 {
      StoreAllUntouched(ws', assets[1..], assets[0].id);
    } else {
      StoreAllLastWins(ws', assets[1..], i - 1);
    }
  }

  /** A key no asset carries keeps its old value. */
  lemma {:induction false} StoreAllUntouched(ws: WorldState, assets: seq<Asset>, k: string)
    requires forall j :: 0 <= j < |assets| ==> assets[j].id != k
    ensures k in StoreAll(ws, assets) <==> k in ws
    ensures k in ws ==> StoreAll(ws, assets)[k] == ws[k]
    decreases |assets|
  {
    if |assets| > 0 {
      StoreAllUntouched(ws[assets[0].id := Json(assets[0])], assets[1..], k);
    }
  }

  /**
   * Seeding an empty namespace with numAssets generated records leaves exactly
   * the keys pc1..pcN, each holding the record generated for it.
   */
  lemma SeededLedger(numAssets: int, t: Template)
    ensures var ws := StoreAll(map[], SeedAssets(numAssets, t));
      && |ws| == SeedCount(numAssets)
      && (forall k :: k in ws <==> exists i :: 1 <= i <= SeedCount(numAssets) && k == PcId(i))
      && (forall i :: 1 <= i <= SeedCount(numAssets) ==> PcId(i) in ws && ws[PcId(i)] == Json(SeedAsset(i, t)))
  {
    var seeds := SeedAssets(numAssets, t);
    var ws := StoreAll(map[], seeds);
    var n := SeedCount(numAssets);
    SeedIdsDistinct(numAssets, t);
    forall k
      ensures k in ws <==> exists i :: 1 <= i <= n && k == PcId(i)
    {
      StoreAllKeys(map[], seeds, k);
      if exists i :: 0 <= i < |seeds| && seeds[i].id == k {
        var i :| 0 <= i < |seeds| && seeds[i].id == k;
        assert k == PcId(i + 1);
      }
      if exists i :: 1 <= i <= n && k == PcId(i) {
        var i :| 1 <= i <= n && k == PcId(i);
        assert seeds[i - 1].id == k;
      }
    }
    forall i | 1 <= i <= n
      ensures PcId(i) in ws && ws[PcId(i)] == Json(SeedAsset(i, t))
    {
      StoreAllLastWins(map[], seeds, i - 1);
    }
    SeedKeysCount(ws, n);
  }

  /** The IDs pc1..pcN. */
  ghost function PcIds(n: nat): set<string>
  {
    if n == 0 then {} else PcIds(n - 1) + {PcId(n)}
  }

  lemma {:induction false} PcIdsMembers(n: nat, k: string)
    ensures k in PcIds(n) <==> exists i :: 1 <= i <= n && k == PcId(i)
  {
    if n > 0 {
      PcIdsMembers(n - 1, k);
    }
  }

  /** pc1..pcN are N distinct IDs. */
  lemma {:induction false} PcIdsCount(n: nat)
    ensures |PcIds(n)| == n
  {
    if n > 0 {
      PcIdsCount(n - 1);
      assert PcId(n) !in PcIds(n - 1) by {
        if PcId(n) in PcIds(n - 1) {
          PcIdsMembers(n - 1, PcId(n));
          var i :| 1 <= i <= n - 1 && PcId(n) == PcId(i);
          PcIdInjective(i, n);
        }
      }
    }
  }

  /** A namespace whose keys are exactly pc1..pcN has N keys. */
  lemma SeedKeysCount(ws: WorldState, n: nat)
    requires forall k :: k in ws <==> exists i :: 1 <= i <= n && k == PcId(i)
    ensures |ws| == n
  {
    forall k
      ensures k in ws.Keys <==> k in PcIds(n)
    {
      PcIdsMembers(n, k);
    }
    assert ws.Keys == PcIds(n);
    PcIdsCount(n);
  }

  /** Every record is stored under its own ID. */
  ghost predicate WellKeyed(ws: WorldState)
  {
    forall k :: k in ws && ws[k].Json? ==> ws[k].value.id == k
  }

  class SmartContract {
    var worldState: WorldState

    /** A freshly deployed chaincode has an empty namespace. */
    constructor ()
      ensures worldState == map[]
    {
      worldState := map[];
    }

    /** AssetExists: whether GetState(id) finds a value. */
    function AssetExists(id: string): (exists_: bool)
      reads this
      ensures exists_ <==> id in worldState
    {
      id in worldState
    }

    /**
     * ReadAsset: a missing key fails "does not exist", a value that does not
     * unmarshal fails with the decode error; otherwise the decoded record.
     */
    function ReadAsset(id: string): (r: Result<Asset>)
      reads this
      ensures r.Ok? <==> id in worldState && worldState[id].Json?
      ensures r.Ok? ==> worldState[id] == Json(r.value)
      ensures id !in worldState ==> r == Err(DoesNotExist(id))
      ensures id in worldState && worldState[id].Malformed? ==> r == Err(Unmarshal)
    {
      if id !in worldState then Err(DoesNotExist(id))
      else Decode(worldState[id])
    }

    /** CreateAsset: refuses an existing ID, otherwise stores the five-field record. */
    method CreateAsset(id: string, color: string, size: int, owner: string, appraisedValue: int)
      returns (r: Outcome)
      modifies this
      ensures r == if old(AssetExists(id)) then Fail(AlreadyExists(id)) else Pass
      ensures r.Fail? ==> worldState == old(worldState)
      ensures r.Pass? ==> worldState == old(worldState)[id := Json(Asset(id, color, size, owner, appraisedValue))]
      ensures r.Pass? ==> ReadAsset(id) == Ok(Asset(id, color, size, owner, appraisedValue))
      ensures old(WellKeyed(worldState)) ==> WellKeyed(worldState)
    {
      if AssetExists(id) {
        return Fail(AlreadyExists(id));
      }
      worldState := worldState[id := Json(Asset(id, color, size, owner, appraisedValue))];
      r := Pass;
    }

    /** UpdateAsset: refuses a missing ID, otherwise overwrites the whole record (no field merge). */
    method UpdateAsset(id: string, color: string, size: int, owner: string, appraisedValue: int)
      returns (r: Outcome)
      modifies this
      ensures r == if old(AssetExists(id)) then Pass else Fail(DoesNotExist(id))
      ensures r.Fail? ==> worldState == old(worldState)
      ensures r.Pass? ==> worldState == old(worldState)[id := Json(Asset(id, color, size, owner, appraisedValue))]
      ensures r.Pass? ==> ReadAsset(id) == Ok(Asset(id, color, size, owner, appraisedValue))
      ensures old(WellKeyed(worldState)) ==> WellKeyed(worldState)
    {
      if !AssetExists(id) {
        return Fail(DoesNotExist(id));
      }
      worldState := worldState[id := Json(Asset(id, color, size, owner, appraisedValue))];
      r := Pass;
    }

    /** DeleteAsset: refuses a missing ID, otherwise removes that key and no other. */
    method DeleteAsset(id: string) returns (r: Outcome)
      modifies this
      ensures r == if old(AssetExists(id)) then Pass else Fail(DoesNotExist(id))
      ensures r.Fail? ==> worldState == old(worldState)
      ensures r.Pass? ==> worldState == old(worldState) - {id}
      ensures !AssetExists(id) && ReadAsset(id) == Err(DoesNotExist(id))
      ensures old(WellKeyed(worldState)) ==> WellKeyed(worldState)
    {
      if !AssetExists(id) {
        return Fail(DoesNotExist(id));
      }
      worldState := worldState - {id};
      r := Pass;
    }

    /**
     * TransferAsset: read-modify-write of the owner. Fails exactly when
     * ReadAsset fails, with its error; otherwise every other field of the
     * decoded record is written back unchanged.
     */
    method TransferAsset(id: string, newOwner: string) returns (r: Outcome)
      modifies this
      ensures old(ReadAsset(id)).Err? ==> r == Fail(old(ReadAsset(id)).error) && worldState == old(worldState)
      ensures old(ReadAsset(id)).Ok? ==>
        r == Pass && worldState == old(worldState)[id := Json(old(ReadAsset(id)).value.(owner := newOwner))]
      ensures r.Pass? ==> var before, after := old(ReadAsset(id)).value, ReadAsset(id).value;
        && ReadAsset(id).Ok?
        && after.owner == newOwner
        && after.id == before.id && after.color == before.color
        && after.size == before.size && after.appraisedValue == before.appraisedValue
      ensures old(WellKeyed(worldState)) ==> WellKeyed(worldState)
    {
      var read := ReadAsset(id);
      if read.Err? {
        return Fail(read.error);
      }
      worldState := worldState[id := Json(read.value.(owner := newOwner))];
      r := Pass;
    }

    /**
     * GetAllAssets: every stored record exactly once, in key order, or the
     * decode error if any stored value does not unmarshal.
     */
    method GetAllAssets() returns (r: Result<seq<Asset>>)
      ensures r.Ok? <==> AllDecodable(worldState)
      ensures r.Ok? ==> Enumerates(worldState, r.value) && |r.value| == |worldState|
      ensures r.Err? ==> r.error == Unmarshal
    {
      r := ScanAll(worldState);
    }

    /**
     * The loop of InitLedger: put each given record under its ID, in order.
     * The namespace afterwards is the old one with these puts applied.
     */
    method PutAssets(assets: seq<Asset>)
      modifies this
      ensures worldState == StoreAll(old(worldState), assets)
      ensures forall k :: k !in old(worldState) && (forall i :: 0 <= i < |assets| ==> assets[i].id != k) ==> k !in worldState
      ensures old(WellKeyed(worldState)) ==> WellKeyed(worldState)
    {
      var i := 0;
      while i < |assets|
        invariant 0 <= i <= |assets|
        invariant StoreAll(worldState, assets[i..]) == StoreAll(old(worldState), assets)
        invariant old(WellKeyed(worldState)) ==> WellKeyed(worldState)
      {
        assert assets[i..][1..] == assets[i + 1..];
        worldState := worldState[assets[i].id := Json(assets[i])];
        i := i + 1;
      }
      forall k | k !in old(worldState) && (forall i :: 0 <= i < |assets| ==> assets[i].id != k)
        ensures k !in worldState
      {
        StoreAllUntouched(old(worldState), assets, k);
      }
    }
  }
}
