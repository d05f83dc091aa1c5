/**
 * The regionalCC3 chaincode's own data: its seed generator (records
 * "pc1".."pcN", yellow, size 300, owner "PATIENT RG 3", value 30) and the
 * InitLedger that stores them. Its CRUD contract is AssetCC.SmartContract,
 * whose code it shares with atcc.
 */
module Regional3 {
  import opened Ledger
  import opened Assets
  import opened AssetCC

  /** The constant attributes of every record generateRegionalAssets builds. */
  const YellowSeed := Template("yellow", 300, "PATIENT RG 3", 30)

  /** generateRegionalAssets: max(numAssets, 0) records, the i-th with ID "pc"+i and the yellow attributes. */
  method GenerateRegionalAssets(numAssets: int) returns (assets: seq<Asset>)
    ensures |assets| == if numAssets <= 0 then 0 else numAssets
    ensures forall i :: 0 <= i < |assets| ==> assets[i] == Asset(PcId(i + 1), "yellow", 300, "PATIENT RG 3", 30)
  {
    assets := Generate(numAssets, YellowSeed);
  }

  /**
   * InitLedger(numRows): generate the regional seeds and put each under its ID.
   * From an empty namespace exactly pc1..pcN exist afterwards, each decodable.
   */
  method InitLedger(cc: SmartContract, numRows: int) returns (r: Outcome)
    modifies cc
    ensures r == Pass
    ensures old(WellKeyed(cc.worldState)) ==> WellKeyed(cc.worldState)
    ensures cc.worldState == StoreAll(old(cc.worldState), SeedAssets(numRows, YellowSeed))
    ensures old(cc.worldState) == map[] ==>
      && |cc.worldState| == SeedCount(numRows)
      && AllDecodable(cc.worldState)
      && (forall k :: cc.AssetExists(k) <==> exists i :: 1 <= i <= SeedCount(numRows) && k == PcId(i))
      && (forall i :: 1 <= i <= SeedCount(numRows) ==> cc.ReadAsset(PcId(i)) == Ok(Asset(PcId(i), "yellow", 300, "PATIENT RG 3", 30)))
  {
    var assets := GenerateRegionalAssets(numRows);
    assert assets == SeedAssets(numRows, YellowSeed);
    cc.PutAssets(assets);
    SeededLedger(numRows, YellowSeed);
    r := Pass;
  }
}
