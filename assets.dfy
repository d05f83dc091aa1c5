/**
 * The five-field asset record that atcc, the regional chaincodes and the
 * scratch program all declare (with the same JSON field names), and the two
 * pieces of data handling they share: the deterministic seed generator
 * ("pc1".."pcN" with constant attributes) and the row limit applied to
 * imported CSV rows.
 */
module Assets {

  /** Asset / RegionalAsset: ID, color, size, owner, appraisedValue. */
  datatype Asset = Asset(id: string, color: string, size: int, owner: string, appraisedValue: int)

  /** The constant attributes a seed generator gives every record. */
  datatype Template = Template(color: string, size: int, owner: string, appraisedValue: int)

  // ---------------------------------------------------------------------
  // Record IDs: "pc" followed by the decimal counter.

  function Digit(d: nat): char
    requires d < 10
  {
    (48 + d) as char
  }

  /** The decimal text of n, as %d prints it (no sign, no leading zeros). */
  function Decimal(n: nat): (s: string)
    ensures 1 <= |s|
    ensures n >= 10 ==> 2 <= |s|
    ensures forall c :: c in s ==> '0' <= c <= '9'
  {
    if n < 10 then [Digit(n)] else Decimal(n / 10) + [Digit(n % 10)]
  }

  /** Distinct numbers print differently. */
  lemma {:induction false} DecimalInjective(a: nat, b: nat)
    requires Decimal(a) == Decimal(b)
    ensures a == b
  {
    if a >= 10 && b >= 10 {
      var sa, sb := Decimal(a), Decimal(b);
      assert sa[|sa| - 1] == Digit(a % 10) && sb[|sb| - 1] == Digit(b % 10);
      assert sa[..|sa| - 1] == Decimal(a / 10) && sb[..|sb| - 1] == Decimal(b / 10);
      DecimalInjective(a / 10, b / 10);
    }
  }

  /** The ID of the i-th generated record. */
  function PcId(i: nat): string
  {
    "pc" + Decimal(i)
  }

  /** Distinct positions give distinct IDs, so the seeds never collide. */
  lemma PcIdInjective(i: nat, j: nat)
    requires PcId(i) == PcId(j)
    ensures i == j
  {
    assert Decimal(i) == PcId(i)[2..] && Decimal(j) == PcId(j)[2..];
    DecimalInjective(i, j);
  }

  // ---------------------------------------------------------------------
  // generateAssets / generateRegionalAssets

  /** The record the generator builds at counter value i (1-based). */
  function SeedAsset(i: nat, t: Template): Asset
  {
    Asset(PcId(i), t.color, t.size, t.owner, t.appraisedValue)
  }

  /** How many records the generator produces for numAssets: max(numAssets, 0). */
  function SeedCount(numAssets: int): nat
  {
    if numAssets <= 0 then 0 else numAssets
  }

  /** The whole output of the generator, as a reference definition. */
  function SeedAssets(numAssets: int, t: Template): seq<Asset>
  {
    seq(SeedCount(numAssets), (i: nat) => SeedAsset(i + 1, t))
  }

  /**
   * The counting loop of generateAssets: the counter runs from 1 up to
   * numAssets and each step appends one record built from the template.
   */
  method Generate(numAssets: int, t: Template) returns (assets: seq<Asset>)
    ensures assets == SeedAssets(numAssets, t)
  {
    assets := [];
    var i := 1;
    while i <= numAssets
      invariant 1 <= i <= SeedCount(numAssets) + 1
      invariant |assets| == i - 1
      invariant forall j :: 0 <= j < i - 1 ==> assets[j] == SeedAsset(j + 1, t)
    {
      assets := assets + [SeedAsset(i, t)];
      i := i + 1;
    }
  }

  /** Generated records carry pairwise distinct IDs. */
  lemma SeedIdsDistinct(numAssets: int, t: Template)
    ensures var s := SeedAssets(numAssets, t);
      forall i, j :: 0 <= i < j < |s| ==> s[i].id != s[j].id
  {
    var s := SeedAssets(numAssets, t);
    forall i, j | 0 <= i < j < |s|
      ensures s[i].id != s[j].id
    {
      if s[i].id == s[j].id {
        PcIdInjective(i + 1, j + 1);
      }
    }
  }

  // ---------------------------------------------------------------------
  // The row limit applied to parsed CSV records.

  /** The rows kept when at most numRows are asked for. */
  function LimitRows<T>(rows: seq<T>, numRows: int): (kept: seq<T>)
    ensures 0 < numRows < |rows| ==> |kept| == numRows
    ensures !(0 < numRows < |rows|) ==> kept == rows
    ensures kept == rows[..|kept|]
  {
    if 0 < numRows < |rows| then rows[..numRows] else rows
  }
}
