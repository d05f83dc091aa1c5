/**
 * The gateway's routing table: a hospital-ID to chaincode-name map that is
 * built from the rows of the hospital index CSV file the first time a name is
 * asked for, and answered from that cached map ever after.
 *
 * Opening and parsing the file are not modelled; the outcome of doing so is
 * passed in as a CsvFile. The package-level map and its sync.Once become the
 * fields of one ChaincodeIndex object, the Once a plain `loaded` flag.
 */
module Handlers {
  import opened Ledger

  /** What opening and reading the index file gives: a failure, or its rows. */
  datatype CsvFile = OpenFailed | ReadFailed | Lines(rows: seq<seq<string>>)

  /** Row j has at least two columns and names hospital k in its first one. */
  predicate Contributes(rows: seq<seq<string>>, j: int, k: string)
  {
    0 <= j < |rows| && |rows[j]| >= 2 && rows[j][0] == k
  }

  /**
   * The map the load loop leaves after the given rows, taken in order: a row
   * with two or more columns maps its first column to its second, a shorter row
   * is skipped, and further columns are ignored.
   */
  function TableOf(rows: seq<seq<string>>): map<string, string>
    decreases |rows|
  {
    if |rows| == 0 then map[]
    else
      var m := TableOf(rows[..|rows| - 1]);
      var line := rows[|rows| - 1];
      if |line| >= 2 then m[line[0] := line[1]] else m
  }

  /**
   * A hospital is in the table exactly when some row contributes it, and then
   * its chaincode is the second column of the LAST row that does.
   */
  lemma {:induction false} IndexEntry(rows: seq<seq<string>>, k: string)
    ensures k in TableOf(rows) <==> exists j :: Contributes(rows, j, k)
    ensures k in TableOf(rows) ==> exists j ::
      && Contributes(rows, j, k)
      && TableOf(rows)[k] == rows[j][1]
      && forall j' :: j < j' < |rows| ==> !Contributes(rows, j', k)
    decreases |rows|
  {
    if |rows| > 0 {
      var n := |rows| - 1;
      var init := rows[..n];
      IndexEntry(init, k);
      forall j | 0 <= j < n
        ensures Contributes(init, j, k) <==> Contributes(rows, j, k)
      {
        assert init[j] == rows[j];
      }
      if Contributes(rows, n, k) {
        assert TableOf(rows)[k] == rows[n][1];
      } else if k in TableOf(rows) {
        var j :| && Contributes(init, j, k)
          && TableOf(init)[k] == init[j][1]
          && forall j' :: j < j' < |init| ==> !Contributes(init, j', k);
        assert Contributes(rows, j, k) && TableOf(rows)[k] == rows[j][1];
      } else {
        assert k !in TableOf(init);
      }
    }
  }

  /** The table a load leaves: the rows' map, or the empty map when the file fails. */
  function Loaded(file: CsvFile): (m: map<string, string>)
    ensures !file.Lines? ==> m == map[]
  {
    match file
    case Lines(rows) => TableOf(rows)
    case _ => map[]
  }

  /** The cached lookup: the mapped name, or the not-found error for that hospital. */
  function Lookup(m: map<string, string>, hospitalID: string): (r: Result<string>)
    ensures r.Ok? <==> hospitalID in m
    ensures r.Ok? ==> r.value == m[hospitalID]
    ensures r.Err? ==> r.error == RoutingNotFound(hospitalID)
  {
    if hospitalID in m then Ok(m[hospitalID]) else Err(RoutingNotFound(hospitalID))
  }

  /** The load loop over the parsed rows. */
  method BuildChaincodeMap(rows: seq<seq<string>>) returns (m: map<string, string>)
    ensures m == TableOf(rows)
    ensures forall k :: k in m <==> exists j :: Contributes(rows, j, k)
  {
    m := map[];
    var i := 0;
    while i < |rows|
      invariant 0 <= i <= |rows|
      invariant m == TableOf(rows[..i])
    {
      assert rows[..i + 1][..i] == rows[..i];
      var line := rows[i];
      if |line| >= 2 {
        m := m[line[0] := line[1]];
      }
      i := i + 1;
    }
    assert rows[..|rows|] == rows;
    forall k
      ensures k in m <==> exists j :: Contributes(rows, j, k)
    {
      IndexEntry(rows, k);
    }
  }

  /**
   * The package state of the handlers: the cached map and the state of its
   * once-guard. `loads` counts how often the load step has run.
   */
  class ChaincodeIndex {
    var chaincodeMap: map<string, string>
    var loaded: bool
    ghost var loads: nat

    /** The load step has run once if the guard is set, and not at all otherwise. */
    ghost predicate Valid()
      reads this
    {
      && loads == (if loaded then 1 else 0)
      && (!loaded ==> chaincodeMap == map[])
    }

    /** At process start nothing is loaded and the map is empty. */
    constructor ()
      ensures Valid() && !loaded && chaincodeMap == map[]
    {
      chaincodeMap := map[];
      loaded := false;
      loads := 0;
    }

    /**
     * getChaincodeName: on the first call, build the map from the file (a file
     * that cannot be opened or read leaves it empty); on every later call, keep
     * the cached map whatever the file now holds. Then look the hospital up.
     */
    method GetChaincodeName(hospitalID: string, file: CsvFile) returns (r: Result<string>)
      requires Valid()
      modifies this
      ensures Valid() && loaded && loads == 1
      ensures old(loaded) ==> chaincodeMap == old(chaincodeMap)
      ensures !old(loaded) ==> chaincodeMap == Loaded(file)
      ensures r == Lookup(chaincodeMap, hospitalID)
      ensures !old(loaded) && !file.Lines? ==> r == Err(RoutingNotFound(hospitalID))
    {
      if !loaded {
        chaincodeMap := map[];
        match file {
          case OpenFailed =>
          case ReadFailed =>
          case Lines(rows) =>
            chaincodeMap := BuildChaincodeMap(rows);
        }
        loaded := true;
        loads := loads + 1;
      }
      r := Lookup(chaincodeMap, hospitalID);
    }
  }
}
