# Block store model

A Dafny model of the rollmint block store (`DefaultStore` in `store/store.go`).
The store persists finalized blocks, their commits, the chain state, per-height
ABCI responses and per-height validator sets in a flat key-value datastore, and
keeps an in-memory counter of the highest block height.

The model is functional. A `DefaultStore` is an immutable value holding the
datastore contents (`map<string, seq<byte>>`), the `uint64` height counter, and
whether the datastore is the transactional badger backend. Every operation that
may write returns the store after the call; those that can fail also return a
`Result`. Most loads
return only a `Result`, so they cannot change anything. `LoadState` is the one
load that changes the store: it returns the store too, because it overwrites the
height counter.

Files and modules:

- `types.dfy` (`Types`): bytes, `uint64`/`int64`, 32-byte `Hash`, the opaque
  records, the error kinds, `Result`.
- `encoding.dfy` (`Encoding`): lowercase hex (`hex.EncodeToString`) and decimal
  (`strconv.FormatUint(n, 10)`), each with a decoder and round-trip lemmas in both
  directions.
- `keys.dfy` (`Keys`): the six key functions and the namespace prefixes
  `b/ i/ c/ s/ r/ v/`. `ParseKey` inverts the key scheme, so no two records share
  a key.
- `codecs.dfy` (`Codecs`): the foreign marshalling and hashing, passed in as
  function values. `Lawful` assumes that each codec's unmarshal (and protobuf
  conversion) undoes its marshal.
- `store.dfy` (`BlockStore`): the `DefaultStore` operations.
- `properties.dfy` (`StoreProperties`): load-after-save, frame properties,
  counter behaviour over operation sequences, and index consistency.

Error kinds replace Go's message strings: `NotFound` (missing key),
`InvalidHashLength`, `EncodeFailure`, `DecodeFailure`, `UnsupportedBackend`
(the datastore is not badger), `TxnCreateFailure`, `TxnPutFailure` and
`TxnCommitFailure`. Engine failures inside `SaveBlock`'s transaction are injected
through a `TxnFaults` argument: opening the transaction, each of the three staged
puts, and the commit.

Where the documentation and the code disagree, the model follows the code:

- `SaveBlock` does not touch the height counter. Its doc comment
  (store/store.go:64) says the stored height is updated, but the body never does
  this. `SaveBlockKeepsHeight` states the behaviour as written. Callers raise the
  counter with `SetHeight`, as `SaveAtTenScenario` does.
- `SetHeight` reads the counter once and tries one compare-and-swap, with no
  retry loop. Run sequentially, the swap always succeeds, so the counter becomes
  the maximum of its old value and the offer.

## Model

| member | source | states |
|---|---|---|
| Types.ToUint64 | store/store.go:203 | Go's `uint64(int64)` conversion: a non-negative value is kept, and a negative one wraps into the upper half of the unsigned range |
| Encoding.HexEncode | store/store.go:253 | the hex text has two lowercase hex characters per byte, the high nibble first |
| Encoding.HexDecodeEncode | store/store.go:253 | decoding the lowercase hex of any byte string gives back that byte string |
| Encoding.HexEncodeDecode | store/store.go:253 | a string that decodes as lowercase hex is exactly the encoding of the decoded bytes, so hex text and byte strings correspond one to one |
| Encoding.HexEncodeInjective | store/store.go:253 | distinct byte strings have distinct hex encodings |
| Encoding.FormatUint | store/store.go:267 | the decimal text of a height is a non-empty string of decimal digits |
| Encoding.FormatUintCanonical | store/store.go:267 | decimal text is non-empty, all digits, and has no leading zero unless it is "0" |
| Encoding.ParseFormatUint | store/store.go:267 | parsing the decimal text of n gives back n |
| Encoding.FormatParseDigits | store/store.go:267 | every canonical digit string is the decimal text of its value |
| Encoding.FormatUintInjective | store/store.go:267 | distinct heights have distinct decimal texts |
| Keys.BlockKey | store/store.go:250-255 | the block key is `b/` followed by 64 lowercase hex characters that decode to the hash |
| Keys.CommitKey | store/store.go:257-262 | the commit key is `c/` followed by 64 lowercase hex characters that decode to the hash |
| Keys.IndexKey | store/store.go:264-269 | the index key is `i/` followed by the canonical decimal height |
| Keys.StateKey | store/store.go:271-273 | the chain-state key is the prefix `s/` alone |
| Keys.ResponsesKey | store/store.go:275-280 | the responses key is `r/` followed by the canonical decimal height |
| Keys.ValidatorsKey | store/store.go:282-287 | the validators key is `v/` followed by the canonical decimal height |
| Keys.ParseKey | store/store.go:23-30 | any identity recovered from a string is one whose key is exactly that string |
| Keys.ParseKeyOf | store/store.go:23-30 | parsing the key of any record identity gives back that identity |
| Keys.KeyOfInjective | store/store.go:250-287 | two record identities with the same key are equal: each key function is injective and the classes' keys never collide |
| BlockStore.New | store/store.go:43-48 | a new store wraps the given datastore with the counter at zero |
| BlockStore.CompareAndSwap | store/store.go:54 | the swap takes effect exactly when the cell holds the expected value; otherwise the cell keeps its value |
| BlockStore.SetHeight | store/store.go:50-56 | the counter becomes the maximum of its old value and the offer, never decreases, and the datastore is unchanged |
| BlockStore.Height | store/store.go:58-61 | returns the in-memory counter; it reads no datastore entry and returns no store, so reading it changes nothing |
| BlockStore.Get | store/store.go:116 | a lookup returns the stored bytes exactly when the key is present, and otherwise the lookup error |
| BlockStore.TxnPut | store/store.go:86-88 | a staged put records the write unless it fails, and errors accumulate over the transaction |
| BlockStore.SaveBlock | store/store.go:65-100 | succeeds exactly when both records marshal, the backend is transactional and no transaction step fails; on success exactly the block, commit and index keys are written; on any failure the store is unchanged, and each failure path has its own error: EncodeFailure when either record fails to marshal, UnsupportedBackend for a non-badger datastore, TxnCreateFailure, TxnPutFailure when any staged put fails, and TxnCommitFailure; the counter is never changed |
| BlockStore.LoadHashFromIndex | store/store.go:236-248 | exactly three outcomes: a missing index entry gives the lookup error, an entry that is not 32 bytes gives InvalidHashLength, and an entry of 32 bytes is returned as the hash |
| BlockStore.LoadBlockByHash | store/store.go:114-127 | NotFound exactly when the block key is absent; success exactly when the entry is present and unmarshals, and then the result is the unmarshalled block; otherwise a decode error |
| BlockStore.LoadBlock | store/store.go:102-112 | a missing or malformed index entry gives NotFound or InvalidHashLength; a well-formed entry gives exactly the block-by-hash load's answer for that hash: NotFound when no block is stored, a decode error when its bytes do not unmarshal, otherwise the block |
| BlockStore.LoadCommitByHash | store/store.go:161-173 | NotFound exactly when the commit key is absent; success exactly when the entry is present and unmarshals, and then the result is the unmarshalled commit; otherwise a decode error |
| BlockStore.LoadCommit | store/store.go:152-159 | a missing or malformed index entry gives NotFound or InvalidHashLength; a well-formed entry gives exactly the commit-by-hash load's answer for that hash: NotFound when no commit is stored, a decode error when its bytes do not unmarshal, otherwise the commit |
| BlockStore.SaveBlockResponses | store/store.go:129-136 | on success only the responses key of that height is written; a marshal failure changes nothing |
| BlockStore.LoadBlockResponses | store/store.go:138-150 | NotFound exactly when the responses key is absent; success exactly when the entry is present and unmarshals, and then the result is what it unmarshals to |
| BlockStore.UpdateState | store/store.go:175-187 | on success only the singleton state key is overwritten; a conversion or marshal failure changes nothing |
| BlockStore.LoadState | store/store.go:189-205 | never writes the datastore; NotFound exactly when the state key is absent; once the bytes unmarshal, the counter is overwritten with the last block height even if conversion fails |
| BlockStore.SaveValidators | store/store.go:207-219 | on success only the validators key of that height is written; a conversion or marshal failure changes nothing |
| BlockStore.LoadValidators | store/store.go:221-234 | NotFound exactly when the validators key is absent; success exactly when the entry is present, unmarshals and converts from protobuf, and then the result is the converted set |
| StoreProperties.SetHeights | store/store.go:50-61 | after a sequence of offers the counter is at least its start and every offer, and equals one of them; the datastore is unchanged |
| StoreProperties.SaveBlockThenLoad | store/store.go:65-173 | after a successful save, the index holds the header hash, and the block and commit load back both by height and by hash |
| StoreProperties.SaveBlockFailureWritesNothing | store/store.go:77-97 | a backend or transaction failure leaves the store unchanged, so every block and commit load answers as before |
| StoreProperties.SaveBlockFrame | store/store.go:86-88 | SaveBlock changes no record other than its block, commit and index entry |
| StoreProperties.SaveBlockKeepsHeight | store/store.go:65-100 | SaveBlock leaves the counter unchanged, which is the code as written |
| StoreProperties.SaveAtTenScenario | store/store.go:65-127 | after saving at height 10 and offering 10, the block loads by height and by hash, the counter is at least 10, and height 11 is NotFound |
| StoreProperties.SaveBlockResponsesThenLoad | store/store.go:130-150 | responses saved at a height load back unchanged |
| StoreProperties.SaveValidatorsThenLoad | store/store.go:208-234 | a validator set saved at a height loads back unchanged |
| StoreProperties.UpdateStateTwiceThenLoad | store/store.go:177-205 | after two updates, loading gives the second state, and the counter becomes its last block height |
| StoreProperties.LoadStateCanLowerHeight | store/store.go:202-204 | loading a state whose last block height is below the counter lowers the counter |
| StoreProperties.SaveBlockResponsesFrame | store/store.go:135 | saving responses at one height changes no other record, whether another height or another class |
| StoreProperties.SaveValidatorsFrame | store/store.go:218 | saving validators at one height changes no other record |
| StoreProperties.UpdateStateFrame | store/store.go:186 | updating the state changes no other record |
| StoreProperties.StepFrame | store/store.go:65-234 | an operation changes no record it does not write |
| StoreProperties.RunFrame | store/store.go:65-234 | a record that no operation of a sequence writes is exactly as it was before the sequence |
| StoreProperties.NeverSavedBlockNotFound | store/store.go:236-241 | from an empty datastore, loading a block or commit at a height where no block was saved fails with NotFound, not with a decode error |
| StoreProperties.NeverSavedHeightRecordsNotFound | store/store.go:138-150 | from an empty datastore, loading responses or validators at a height where none were saved fails with NotFound |
| StoreProperties.RunHeightIsHighestOffer | store/store.go:50-100 | with no state load in a sequence, `Height()` reads the highest height offered through SetHeight, and saves leave it alone |
| StoreProperties.HighestOfferGrows | store/store.go:50-56 | the highest offer is never below the starting counter |
| StoreProperties.SaveBlockKeepsIndexConsistent | store/store.go:77-97 | a save stages the index entry, block and commit in one transaction, so it writes all three or none and leaves no index entry dangling |
| StoreProperties.StepKeepsIndexConsistent | store/store.go:86-88 | no operation can leave a 32-byte index entry pointing at a hash whose block or commit is missing |
| StoreProperties.RunKeepsIndexConsistent | store/store.go:65-100 | index consistency holds after any sequence of operations |

## Left out

- Concurrency of the height counter: the atomic load and the single compare-and-swap (store/store.go:52-54) are modelled as one sequential read and swap. A CAS that loses a race is not modelled.
- The badger transaction engine: a transaction is a map of staged writes plus an accumulated failure flag. Engine failures come in through `TxnFaults`. A commit is all-or-nothing.
- `context` propagation and the `multierr` error chaining: only the error kind is kept.
- `ds.NewKey` key normalisation: datastore keys are the strings the `get*Key` helpers build. Normalisation is injective on this key space.
- Engine I/O errors from single-key `db.Get` and `db.Put`, other than a missing key: the map always answers and always accepts a write.
- Marshalling, protobuf conversion and `Header.Hash()` are foreign code. They are arbitrary function values whose round-trip behaviour is assumed through `Lawful`.
- BlockStore.LoadBlockResponses: Go also returns the partly filled responses alongside an unmarshal error. The model returns only the error.
- BlockStore.LoadValidators: Go passes both results of `ValidatorSetFromProto` through, so a failed conversion also returns the partly converted set. The model returns only DecodeFailure and drops that set.
- BlockStore.LoadState: Go also returns the partly converted state alongside a conversion error. The model returns only the error, though it does apply the counter update that state causes.
- The `Store` interface (store/store.go:40) is defined in a file that is not part of this model. The `DefaultStore` methods are modelled directly.
- node/node_test.go: mock gRPC servers and node start/stop scaffolding. This is test plumbing with no store logic.
