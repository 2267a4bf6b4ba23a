# Warehouse-ledger chaincode, modelled in Dafny

A model of `finished/chaincode_finished.go`, a Hyperledger Fabric chaincode.
It keeps key/value pairs in the peer's world state and accepts a "warehouse
ledger" payload: a JSON array of shipments. Each shipment has vendor metadata,
line items and defect records. The model has three modules:

- `Ledger` (`ledger.dfy`): the `ledger` and `Warehouse` types (`Shipment`,
  `LineItem`, `Warehouse`). `Records` lists, in iteration order, every record the
  triple loop of `enterHDWHLedgerDetails` builds. `Slot`/`Transformed` give the
  two-slot `str` buffer that loop leaves. The lemmas prove the last-wins
  behaviour: only the record from the last shipment that has items and defects,
  its last item and its last defect, survives.
- `StateStore` (`statestore.dfy`): the shim stub as a class `Stub` with a
  `map<string, string>` field. `PutState` and `GetState` may fail; the failure
  is nondeterministic because the chaincode cannot see why the peer refuses a
  call.
- `Chaincode` (`chaincode.dfy`): the entry points `Init`, `Invoke`, `Query` and
  the handlers `write`, `read`, `enterHDWHLedgerDetails`. These are methods over
  a `Stub`. The triple loop is the method `TransformLedgers`, which overwrites a
  two-element array in place, as the Go code overwrites `str`.

`enterHDWHLedgerDetails` is modelled as written. `Invoke` calls it with the name
`"write"`, but it only writes when its name is `"writ"`. So through `Invoke` it
never changes the state. It always fails with an "unknown function invocation"
error that carries `str[1]`: the serialized last record, or `""` when no
shipment has both items and defects. `Invoke`'s contract states this.

The JSON codec is left as two parameters about which nothing is assumed:
`decode: string -> seq<Shipment>` stands for `json.Unmarshal`, whose error is
ignored, and `serialize: Warehouse -> string` stands for `json.Marshal`.

## Model

| member | source | states |
|---|---|---|
| `Ledger.Wrap64` | finished/chaincode_finished.go:124 | Go's 64-bit `int` subtraction: the result is congruent to the exact difference modulo 2^64 and equals it when it is in range |
| `Ledger.DefectRecords` | finished/chaincode_finished.go:115-135 | the innermost loop builds one record per defect, in order: record `j` combines the item with defect `j` |
| `Ledger.Combine` | finished/chaincode_finished.go:116-126 | the record copies vendor, time, geolocation, vehicle number and type from the shipment, name and description from the item, takes `Defect` from the defect's quantity, and `ScannedItem + Defect` equals the item's quantity modulo 2^64 (Go's `int` subtraction) |
| `Ledger.ItemRecords` | finished/chaincode_finished.go:114-136 | the middle loop builds `|items| * |defects|` records for a shipment (their contents: `Ledger.ItemRecordsAt`) |
| `Ledger.ItemRecordsAt` | finished/chaincode_finished.go:114-136 | record `i * |defects| + j` of a shipment is item `i` combined with defect `j`: items in the outer order, defects in the inner |
| `Ledger.Records` | finished/chaincode_finished.go:113-137 | the whole triple loop builds one record per (shipment, item, defect) triple: `Pairs(shipments)` records (their contents: `Ledger.RecordsBlock`) |
| `Ledger.RecordsBlock` | finished/chaincode_finished.go:113-137 | shipment `l`'s records sit, in the middle loop's order, between offsets `Pairs(shipments[..l])` and `Pairs(shipments[..l+1])`: shipments are visited in payload order |
| `Ledger.Slot` | finished/chaincode_finished.go:103-133 | the `str` buffer always has exactly two slots |
| `Ledger.ShipmentRecordsLast` | finished/chaincode_finished.go:114-133 | a shipment builds no record exactly when it lacks items or defects; otherwise its last record is its last item against its last defect |
| `Ledger.RecordsAppend` | finished/chaincode_finished.go:113-137 | the records of a concatenated payload are the concatenation of the records: shipments do not interact |
| `Ledger.LastRecordWins` | finished/chaincode_finished.go:113-137 | nothing is built exactly when no shipment has both items and defects; otherwise the last record built comes from the last such shipment, its last item and its last defect |
| `Ledger.NoRecordsIff` | finished/chaincode_finished.go:113-137 | the innermost body never runs exactly when no shipment has both items and defects |
| `Ledger.LastRecordIsFinal` | finished/chaincode_finished.go:113-137 | when shipment `k` is the last with items and defects, the last record built is its last item against its last defect |
| `Ledger.LastCompleteExists` | finished/chaincode_finished.go:113-137 | when some shipment has items and defects, a last such shipment exists |
| `Ledger.IncompleteShipmentIgnored` | finished/chaincode_finished.go:114-115 | inserting a shipment without items or without defects anywhere in the payload changes neither the records nor the buffer |
| `Ledger.TransformedClosedForm` | finished/chaincode_finished.go:103-137 | the buffer stays `["", ""]` when no shipment has items and defects (an empty payload included); otherwise a last such shipment exists and the buffer is the key and the serialization of its last item against its last defect |
| `Ledger.OneItemOneDefect` | finished/chaincode_finished.go:113-133 | one shipment, item quantity 10, defect quantity 2: the buffer is the key and a record with `ScannedItem` 8 and `Defect` 2 |
| `Ledger.ItemsWithoutDefects` | finished/chaincode_finished.go:113-115 | one shipment with an item and no defects leaves the buffer `["", ""]` |
| `StateStore.Stub.PutState` | finished/chaincode_finished.go:173 | create-or-overwrite one key; a failed call leaves the state untouched |
| `StateStore.Stub.GetState` | finished/chaincode_finished.go:190 | a successful call returns the stored value, or nil when the key is absent |
| `Chaincode.Init` | finished/chaincode_finished.go:70-81 | anything but exactly one argument is an error and changes nothing; otherwise the argument is stored under `"hello_world"` and no other key changes, or the store error is returned and nothing changes |
| `Chaincode.Invoke` | finished/chaincode_finished.go:84-98 | `"init"` and `"write"` behave as `Init` and `write`; `"enterHDWHLedgerDetails"` never changes the state and fails with the buffer's second slot (or panics on fewer than two arguments); any other name fails and changes nothing |
| `Chaincode.EnterHDWHLedgerDetails` | finished/chaincode_finished.go:100-146 | fewer than two arguments panic; under the name `"writ"` the buffer is written as `write` would; under any other name the state is unchanged and the error carries the buffer's second slot |
| `Chaincode.TransformLedgers` | finished/chaincode_finished.go:102-137 | the in-place triple loop leaves exactly the buffer `Transformed` describes |
| `Chaincode.Query` | finished/chaincode_finished.go:149-159 | `"read"` behaves as `read`; any other name is an unknown-query error |
| `Chaincode.Write` | finished/chaincode_finished.go:162-178 | anything but exactly two arguments is an error and changes nothing; otherwise `args[1]` is stored under `args[0]` and no other key changes, or the store error is returned and nothing changes |
| `Chaincode.Read` | finished/chaincode_finished.go:181-197 | anything but exactly one argument is an error; otherwise the value under `args[0]` (nil when absent), or an error naming the key |
| `Chaincode.WriteThenRead` | finished/chaincode_finished.go:162-197 | after a successful `write([k, v])`, `read([k])` gives `v` unless the store fails |
| `Chaincode.InitThenRead` | finished/chaincode_finished.go:70-197 | after a successful `Init([v])`, `read(["hello_world"])` gives `v` unless the store fails |

## Left out

- `json.Unmarshal` and `json.Marshal` (lines 110 and 129) are library code. The decoded payload is whatever `decode` returns, which also covers the partial results of an ignored decode error. `serialize` is arbitrary, so nothing depends on the JSON layout.
- `main`, `shim.Start` and the real `ChaincodeStubInterface` (lines 62-67) are runtime plumbing. The stub is an in-memory map.
- `fmt.Println` logging is output only and is not modelled.
- Error texts are tagged constructors of `Error`, not Go strings. `UnknownInvocation(str[1])` stands for the message that ends with `str[1]`.
- `Init`'s unused `function` parameter is dropped.
- Go's index-out-of-range panic in `enterHDWHLedgerDetails` is the `Panic` outcome. The model does not capture what the peer then does with the transaction.
- The peer may reject an empty key in `PutState`. The in-memory map accepts it, so a successful `PutState("", v)` is possible in the model. This affects `write` called with an empty `args[0]` (lines 167-173 check only the argument count), and the unreachable `"writ"` path when the buffer is still `["", ""]`.
- Transaction semantics and concurrent invocations are the peer's concern and are not visible in this code.
- `Ledger.ItemRecords`: its own contract states the record count only; the contents of each record are stated by the lemma `ItemRecordsAt`, which keeps the nonlinear offset out of every proof that unfolds the function.
- `Ledger.Records`: its own contract states the record count only; where each shipment's records sit is stated by the lemma `RecordsBlock`, for the same reason.
