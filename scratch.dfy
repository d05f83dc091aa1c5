/**
 * The scratch program's two data helpers: its own copy of the blue seed
 * generator and the row limit it applies to the records of an imported CSV
 * file. Opening and parsing the file are not modelled; the parsed records are
 * the input.
 */
module Scratch {
  import opened Assets

  /** generateAssets: max(numAssets, 0) records, the i-th with ID "pc"+i, blue, size 5, owner "Owner", value 3000. */
  method GenerateAssets(numAssets: int) returns (assets: seq<Asset>)
    ensures |assets| == if numAssets <= 0 then 0 else numAssets
    ensures forall i :: 0 <= i < |assets| ==> assets[i] == Asset(PcId(i + 1), "blue", 5, "Owner", 3000)
    ensures forall i, j :: 0 <= i < j < |assets| ==> assets[i].id != assets[j].id
  {
    assets := Generate(numAssets, Template("blue", 5, "Owner", 3000));
    SeedIdsDistinct(numAssets, Template("blue", 5, "Owner", 3000));
  }

  /**
   * The tail of importCSV: the parsed records, cut down to the first numRows
   * when a positive numRows smaller than their number is given.
   */
  method ImportCsv(records: seq<Asset>, numRows: int) returns (assets: seq<Asset>)
    ensures assets == LimitRows(records, numRows)
    ensures 0 < numRows < |records| ==> assets == records[..numRows]
    ensures numRows <= 0 || numRows >= |records| ==> assets == records
  {
    assets := records;
    if numRows > 0 && numRows < |assets| {
      assets := assets[..numRows];
    }
  }
}
