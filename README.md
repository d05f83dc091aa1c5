# cross-region-bc, modelled in Dafny

The repository is a two-tier directory for patient policy records. It is built
on Hyperledger Fabric chaincode.

- **Regional shards** (the `atcc` chaincode and `regionalCC3`) each hold policy
  records in their own namespace. The records have five fields: ID, color,
  size, owner and appraised value. The shards offer create, read, update,
  delete, transfer-owner and scan-all operations, and a seed generator that
  fills the namespace with records `pc1`..`pcN`.
- **The global chaincode** holds an index from hospital ID to the name of the
  regional chaincode that stores that hospital's records. A policy is resolved
  in two hops: look the hospital up in the index, then call `ReadAsset` on the
  named shard. A rich-query variant resolves the hospital through a selector
  over the index instead.
- **The gateway** routes a hospital to a chaincode name. It uses a table loaded
  once from a CSV file and cached for the life of the process.
- **The scratch program** holds copies of the seed generator and of the row
  limit applied to imported CSV records.

The model, module by module:

- `Ledger` holds the shared types.
  - Error values are named after the message the Go code returns.
  - `Doc<T>` is a stored JSON value: `Json(v)` for what `json.Marshal(v)`
    wrote, or `Malformed` for bytes that do not unmarshal.
  - `KeyOrder` is the order of an open range scan, which is byte-wise key
    order.
  - `RangeScan` and `ScanAll` are the scan loop shared by every
    `GetAllAssets`.
- `Assets` holds the five-field record, the `"pc%d"` ID, the seed generator
  loop, and the row limit.
- `AssetCC.SmartContract` is the shard contract. It is a class whose
  `worldState` map is the chaincode namespace, with one method per
  state-changing contract call.
- `Atcc` and `Regional3` hold each shard's seed constants and its
  `InitLedger`.
- `GlobalCC` holds the index contract, the cross-chaincode call, and the query
  path.
  - `InvokeChaincode` is a lookup in a `Registry` of installed shard objects.
  - A rich query is a field-match filter over index documents, taken in key
    order.
- `Handlers.ChaincodeIndex` is the gateway's package state: the cached map and
  a `loaded` flag standing for its `sync.Once`.
- `Scratch` holds the scratch program's generator and row limit.

The policy query of the global chaincode cannot succeed for IDs without a
double quote. Its selector asks for a `policyID` field, but an index entry
only has the fields `hospitalID` and `regionalCCName`. The model keeps this
as written: `PolicySelectorMatchesNothing` proves the query has no results,
so the first `Next()` fails. An ID that contains a double quote can rewrite
the selector text and is not covered (see "## Left out").

The shard CRUD code of `atcc/chaincode/chaincode.go` and
`crosschain/regional3/regionalcc3.go` is the same text apart from the record
type's name. It is modelled once, as `AssetCC.SmartContract`. The rows below
cite atcc's lines for most of it; `crosschain/regional3/regionalcc3.go:66-214`
is the same text.

## Model

| member | source | states |
|---|---|---|
| Ledger.Decode | atcc/chaincode/chaincode.go:138-145 | unmarshal succeeds exactly on a well-formed document and gives back the value that was marshalled; otherwise it fails with the decode error |
| Ledger.KeyOrder | atcc/chaincode/chaincode.go:220-222 | the open range scan yields each key of the namespace once and no other key |
| Ledger.KeyOrderOrdered | atcc/chaincode/chaincode.go:220-222 | the range scan's keys are strictly increasing in byte-wise order, so none repeats |
| Ledger.RangeScan | atcc/chaincode/chaincode.go:222-241 | the iterator loop visits the keys in exactly the range-scan order |
| Ledger.ScanAll | atcc/chaincode/chaincode.go:219-244 | the listing succeeds exactly when every stored value decodes; it then holds each key's record, in key order; otherwise it fails with the decode error |
| Ledger.DecodeEach | atcc/chaincode/chaincode.go:228-243 | the append loop succeeds exactly when every stored value decodes, and then holds one decoded record per scanned key, in scan order; otherwise the decode error |
| Assets.DecimalInjective | atcc/chaincode/chaincode.go:56 | distinct counters print as distinct decimal strings |
| Assets.PcIdInjective | atcc/chaincode/chaincode.go:56 | distinct counters give distinct "pc" IDs |
| Assets.Generate | atcc/chaincode/chaincode.go:52-66 | the counting loop builds exactly max(n, 0) records, the i-th from counter i+1 and the template |
| Assets.SeedIdsDistinct | atcc/chaincode/chaincode.go:52-66 | generated records have pairwise distinct IDs |
| Assets.LimitRows | atcc/chaincode/chaincode.go:44-46 | numRows rows are kept when 0 < numRows < len, all rows otherwise; the result is always a prefix of the input |
| AssetCC.StoreAllKeys | atcc/chaincode/chaincode.go:78-90 | after the put loop a key is present iff it was before or some record carries it |
| AssetCC.StoreAllLastWins | atcc/chaincode/chaincode.go:78-90 | the last record put under a key is what that key holds |
| AssetCC.StoreAllUntouched | atcc/chaincode/chaincode.go:78-90 | a key that no record carries keeps its presence and its value |
| AssetCC.SeededLedger | atcc/chaincode/chaincode.go:69-94 | seeding an empty namespace leaves exactly the keys pc1..pcN, N of them, each holding its generated record |
| AssetCC.SmartContract.AssetExists | atcc/chaincode/chaincode.go:193-200 | true exactly when the key is stored |
| AssetCC.SmartContract.ReadAsset | atcc/chaincode/chaincode.go:122-151 | a missing ID fails "does not exist"; a value that does not decode fails with the decode error; otherwise it returns the stored record |
| AssetCC.SmartContract.CreateAsset | atcc/chaincode/chaincode.go:97-119 | an existing ID fails "already exists" with the state unchanged; otherwise exactly that key gets the five-field record, and ReadAsset returns it |
| AssetCC.SmartContract.UpdateAsset | atcc/chaincode/chaincode.go:154-177 | a missing ID fails "does not exist" with the state unchanged; otherwise the whole record is replaced (no field merge) and nothing else changes |
| AssetCC.SmartContract.DeleteAsset | atcc/chaincode/chaincode.go:180-190 | a missing ID fails with the state unchanged; otherwise exactly that key is removed; afterwards the ID does not exist |
| AssetCC.SmartContract.TransferAsset | atcc/chaincode/chaincode.go:203-216 | fails exactly when ReadAsset fails, with its error and the state unchanged; otherwise only the owner changes, and ID, color, size and value are kept |
| AssetCC.SmartContract.GetAllAssets | crosschain/regional3/regionalcc3.go:189-214 | every stored record exactly once, in key order, one per key; fails with the decode error exactly when some value does not decode |
| AssetCC.SmartContract.PutAssets | crosschain/regional3/regionalcc3.go:47-59 | the put loop leaves the old namespace with each record put under its ID, in order; keys no record carries stay absent; every record stays stored under its own ID |
| Atcc.GenerateAssets | atcc/chaincode/chaincode.go:52-66 | max(n, 0) records, the i-th with ID "pc"+i, color blue, size 5, owner "Owner", value 3000 |
| Atcc.InitLedger | atcc/chaincode/chaincode.go:69-94 | always succeeds and keeps every record under its own ID; from an empty namespace exactly pc1..pcN exist, reading pcI returns its blue record, and every value decodes, so GetAllAssets lists N records |
| Atcc.ImportRowLimit | atcc/chaincode/chaincode.go:44-46 | keeps exactly the first numRows records when 0 < numRows < len, and all of them otherwise |
| Regional3.GenerateRegionalAssets | crosschain/regional3/regionalcc3.go:26-40 | max(n, 0) records, the i-th with ID "pc"+i, color yellow, size 300, owner "PATIENT RG 3", value 30 |
| Regional3.InitLedger | crosschain/regional3/regionalcc3.go:43-63 | always succeeds and keeps every record under its own ID; from an empty namespace exactly pc1..pcN exist, each holding its yellow record, and GetAllAssets lists N records |
| GlobalCC.InitialIndexContents | crosschain/global/globalcc.go:35-41 | putting the five seed entries in order gives the index HP1..HP5 to regionalCC1..regionalCC5 |
| GlobalCC.InvokeChaincode | crosschain/global/globalcc.go:161-162 | the status is OK exactly when the named chaincode is installed and its ReadAsset of the argument succeeds; the payload is then that record |
| GlobalCC.ReadResponse | crosschain/global/globalcc.go:164-173 | fails on a non-OK status and on a payload that does not decode; succeeds only with status OK and a decodable payload, giving the payload's record |
| GlobalCC.RetrieveFromRegionalBC | crosschain/global/globalcc.go:160-176 | succeeds exactly when the named shard is installed and its own ReadAsset(policyID) succeeds, and then returns that shard's record unchanged |
| GlobalCC.MatchingDocs | crosschain/global/globalcc.go:270 | only documents that match the selector are results, and every matching document is among them |
| GlobalCC.ConstructQueryResponseFromIterator | crosschain/global/globalcc.go:299-327 | an empty iterator fails with Next's error; otherwise the result is the decoding of the first result alone |
| GlobalCC.OnlyFirstResultRead | crosschain/global/globalcc.go:316-326 | results after the first never change the response |
| GlobalCC.FirstMatchIsEarliest | crosschain/global/globalcc.go:316-319 | the first result is the match at the earliest position, and no earlier key matches |
| GlobalCC.LeastOfOrdered | crosschain/global/globalcc.go:316-319 | when keys are in scan order, the earliest match sorts below every other match |
| GlobalCC.QueryTakesLeastMatchingKey | crosschain/global/globalcc.go:288-327 | a query with matches resolves to the entry with the least matching key; every other match is ignored |
| GlobalCC.NoMatchNoResults | crosschain/global/globalcc.go:270 | when no key's document matches, the query has no results |
| GlobalCC.PolicySelectorMatchesNothing | crosschain/global/globalcc.go:19-22 | the policyID/hospitalID selector matches no index entry, so the query is empty and reading its first result fails with NoSuchKey |
| GlobalCC.SmartContract.InitLedger | crosschain/global/globalcc.go:33-58 | always succeeds; HP1..HP5 then map to regionalCC1..regionalCC5, and every other key keeps its value |
| GlobalCC.SmartContract.AssetExists | crosschain/global/globalcc.go:215-222 | true exactly when the hospital ID is stored |
| GlobalCC.SmartContract.ReadAsset | crosschain/global/globalcc.go:84-112 | a missing key fails "does not exist"; a bad value fails with the decode error; otherwise it returns the stored entry |
| GlobalCC.SmartContract.CreateAsset | crosschain/global/globalcc.go:62-80 | an existing hospital ID fails with the index unchanged; otherwise exactly {hospitalID, rccName} is stored under hospitalID, and ReadAsset returns it |
| GlobalCC.SmartContract.UpdateAsset | crosschain/global/globalcc.go:179-199 | a missing hospital ID fails with the index unchanged; otherwise the entry is fully overwritten and ReadAsset returns the new entry |
| GlobalCC.SmartContract.DeleteAsset | crosschain/global/globalcc.go:202-212 | a missing key fails with the index unchanged; otherwise only that key is removed, and it no longer exists |
| GlobalCC.SmartContract.TransferAsset | crosschain/global/globalcc.go:225-238 | fails exactly when ReadAsset fails, with its error; otherwise only regionalCCName changes and hospitalID is kept |
| GlobalCC.SmartContract.GetAllAssets | crosschain/global/globalcc.go:241-266 | every index entry exactly once, in key order; fails with the decode error exactly when some entry does not decode |
| GlobalCC.SmartContract.ReadRegionalAsset | crosschain/global/globalcc.go:116-156 | a hospital absent from the index fails "does not exist"; otherwise the result is exactly what the shard named by the entry returns for ReadAsset(policyID); it reads and never writes the index |
| GlobalCC.SmartContract.GetQueryResult | crosschain/global/globalcc.go:288-297 | the results are the matching index documents in key order |
| GlobalCC.SmartContract.QueryAssetsByPolicyAndHospital | crosschain/global/globalcc.go:268-286 | an empty or undecodable first result fails as "query global failed"; otherwise the shard named by the first result is read, and its failure is reported as "query regional failed" |
| Handlers.IndexEntry | gateway/internal/handlers/handler.go:88-92 | a hospital is in the table iff some row with at least two columns names it; its chaincode is then the second column of the last such row |
| Handlers.Loaded | gateway/internal/handlers/handler.go:73-86 | a file that cannot be opened or read leaves the table empty |
| Handlers.Lookup | gateway/internal/handlers/handler.go:96-101 | a present hospital gives its mapped name; an absent one gives the not-found error for that hospital |
| Handlers.BuildChaincodeMap | gateway/internal/handlers/handler.go:88-92 | the load loop yields the table of the rows; the keys are exactly the first columns of rows with two or more columns |
| Handlers.ChaincodeIndex.GetChaincodeName | gateway/internal/handlers/handler.go:70-102 | the first call loads the table from the file, and a failed load leaves it empty so the lookup fails; later calls never reload or change the table; the load step runs exactly once; the result is the lookup in the cached table |
| Scratch.GenerateAssets | scratch/main.go:37-50 | max(n, 0) records with pairwise distinct IDs, the i-th with ID "pc"+i, blue, size 5, owner "Owner", value 3000 |
| Scratch.ImportCsv | scratch/main.go:29-32 | exactly the first numRows records when 0 < numRows < len; the input unchanged otherwise |

## Left out

- Store I/O errors: the model leaves out failures of `GetState`, `PutState`, `DelState`, `GetStateByRange` and `GetQueryResult`, and of any iterator `Next` other than one past the end. The ledger has no model.
- Ledger key rules: the shim's fixed key checks are not modelled. `PutState` rejects the empty key, so `CreateAsset("")` fails in the source but succeeds in the model. `GetStateByRange("", "")` starts the scan at `"\x01"`, so a key that begins with U+0000 is stored but never listed by `GetAllAssets`; the model lists every key.
- String encoding: strings are sequences of Unicode characters. A Go string argument holding invalid UTF-8 has no counterpart; `json.Marshal` replaces such bytes by U+FFFD, so for those inputs Create followed by Read is not an exact round trip in the source.
- Marshal errors: `json.Marshal` of these flat structs cannot fail, so the marshal error branches are not modelled.
- Timing and logging: `time.Now`, `time.Since` and every `fmt.Printf` are left out. They are diagnostics and do not change any outcome.
- JSON encoding: it is abstract. A stored value is a record or `Malformed`, and the byte format is not modelled.
- Selector injection: `crosschain/global/globalcc.go:270` pastes policyID and hospitalID into the selector text unescaped. An ID containing `"` can rewrite the selector, for example into a duplicate `selector` key whose last value decides, so the query can match an entry after all. The model treats the IDs as opaque values inside a structured selector, and `PolicySelectorMatchesNothing` holds only for IDs that leave the selector's structure intact.
- CouchDB selectors: the selector string syntax is not modelled. A selector is a list of exact field matches, and results come back in key order.
- Cross-chaincode calls: these are lookups in a registry of shard objects. The channel name argument and the response's message text are not carried.
- Error messages: errors are typed values. They do not carry the text of the wrapped errors.
- File and HTTP input: `os.Open`, `csv.NewReader`, `gocsv.Unmarshal` and `http.Get` are not modelled. Their outcome is an input: a `CsvFile` for the gateway and parsed records for the row limits. The error returns of `importCSV`/`importCSVfromURL` before the row limit are therefore not modelled.
- `sync.Once`: it is a sequential flag. Concurrent callers are not modelled.
- `ReadPPHandler`, `PrintChaincodeMap`, `gateway/internal/fabric/fabric.go`, `gateway/internal/server/server.go`, `gateway/cmd/main.go`, `atcc/atcc.go`, the chaincode `main` functions and the scratch `main` are left out. They are HTTP, HTML output, process execution and bootstrap code.
- Integer width: integers are unbounded. Go's `int` is 64 bits, but no arithmetic in the core can overflow except the seed counter, and that is far beyond any practical N.
- `InvokeChaincode` spelling: in `crosschain/global/globalcc.go:162` the call is spelled `InvokeCh aincode`, with a stray space, which is not valid Go. The model takes it as the intended `InvokeChaincode`.
