/**
 * The atcc chaincode's own data: its seed generator (records "pc1".."pcN",
 * blue, size 5, owner "Owner", value 3000), the InitLedger that stores those
 * seeds, and the row limit of its CSV import. Its CRUD contract is
 * AssetCC.SmartContract.
 */
module Atcc {
  import opened Ledger
  import opened Assets
  import opened AssetCC

  /** The constant attributes of every record generateAssets builds. */
  const BlueSeed := Template("blue", 5, "Owner", 3000)

  /** generateAssets: max(numAssets, 0) records, the i-th with ID "pc"+i and the blue attributes. */
  method GenerateAssets(numAssets: int) returns (assets: seq<Asset>)
    ensures |assets| == if numAssets <= 0 then 0 else numAssets
    ensures forall i :: 0 <= i < |assets| ==> assets[i] == Asset(PcId(i + 1), "blue", 5, "Owner", 3000)
  {
    assets := Generate(numAssets, BlueSeed);
  }

  /**
   * InitLedger(numRows): generate the seeds and put each under its ID. From an
   * empty namespace the result holds exactly the keys pc1..pcN, each with its
   * seed record, so GetAllAssets then lists exactly N records.
   */
  method InitLedger(cc: SmartContract, numRows: int) returns (r: Outcome)
    modifies cc
    ensures r == Pass
    ensures old(WellKeyed(cc.worldState)) ==> WellKeyed(cc.worldState)
    ensures cc.worldState == StoreAll(old(cc.worldState), SeedAssets(numRows, BlueSeed))
    ensures old(cc.worldState) == map[] ==>
      && |cc.worldState| == SeedCount(numRows)
      && AllDecodable(cc.worldState)
      && (forall k :: cc.AssetExists(k) <==> exists i :: 1 <= i <= SeedCount(numRows) && k == PcId(i))
      && (forall i :: 1 <= i <= SeedCount(numRows) ==> cc.ReadAsset(PcId(i)) == Ok(Asset(PcId(i), "blue", 5, "Owner", 3000)))
  {
    var assets := GenerateAssets(numRows);
    assert assets == SeedAssets(numRows, BlueSeed);
    cc.PutAssets(assets);
    SeededLedger(numRows, BlueSeed);
    r := Pass;
  }

  /**
   * The row limit of importCSVfromURL: keep the first numRows parsed rows when
   * 0 < numRows < len(rows); otherwise keep every row.
   */
  function ImportRowLimit(rows: seq<Asset>, numRows: int): (kept: seq<Asset>)
    ensures 0 < numRows < |rows| ==> kept == rows[..numRows]
    ensures numRows <= 0 || numRows >= |rows| ==> kept == rows
  {
    LimitRows(rows, numRows)
  }
}
