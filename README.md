# fabric-orderer-seek client, modelled in Dafny

This project models the core of the `ote` package of fabric-orderer-seek. That package is a client of a Hyperledger Fabric ordering service. The model covers four parts:

- **Seek requests.** The Deliver client builds seek requests (`seekHelper`, `seekOldest`, `seekNewest`, `seekSpecified`). Each one is a start/stop pair of seek positions in a `SeekInfo` with behaviour `BLOCK_UNTIL_READY`. It is signed and addressed to the client's own channel.
- **Block decoding** (`transactionResponse`). A delivered block becomes one row of the `transaction` table per envelope, in envelope order, and then one row of the `block` table. The genesis block writes nothing.
- **The receive loop** (`readUntilClose`). Status messages are ignored. Blocks go to the decoder in arrival order. The first receive error ends the loop with a panic.
- **Submission** (`broadcast`/`getAck`). The client signs a transaction, sends it and classifies the one ack that answers it.

Foreign calls are inputs to the model:

- The signing identity is a total function from (channel header, payload) to a signature or an error.
- Each `Send` is represented by its result, an `Option<string>` error.
- Each `Recv` is represented by a received message or a receive error.
- Envelopes of a delivered block arrive already decoded, as a transaction id plus an optional timestamp.
- The MySQL database is a `Sink` object with two row sequences. Its two insert methods append to them.

Files:

- `wire.dfy`: protocol values, Go integer widths, uint64 wrap-around, errors.
- `hex.dfy`: `encoding/hex` encoding, plus a decoding that undoes it.
- `seek.dfy`: the seek builders.
- `decoder.dfy`: the sink and `TransactionResponse`.
- `deliver.dfy`: the receive loop.
- `broadcast.dfy`: the ack classification and the broadcast round trip.

Points where the code's behaviour is easy to mistake:

- A malformed envelope is not skipped. Envelope and payload decode errors are logged (server/ote/client.go:123, 127), and the channel-header error is discarded (server/ote/client.go:130). The code then goes on and dereferences what came back. `ConfigValue` and `ParseUint` errors (server/ote/client.go:135-141) are only logged, and the row is still written. The model admits only decoded envelopes.
- `seekHelper` and `readUntilClose` panic on a signing failure and on a receive error (server/ote/client.go:68, 90). The model gives both as an `Error.Panic` result.
- The summary timestamp is the last envelope's timestamp, left in `txTime` by the loop (server/ote/client.go:119-132, 150). The value `time.Time{}` is used only when the block has no envelopes.
- A channel header without a timestamp gives `time.Unix(0, 0)`, because the protobuf getters return 0 on nil.
- `Time` values are told apart by representation: `ZeroTime` is the value `time.Time{}` and `Unix(s, n)` is the result of `time.Unix(s, n)`. They are not told apart by instant.

## Model

| member | source | states |
|---|---|---|
| `Wire.Wrap64` | server/ote/client.go:144 | Go's `uint64(x)` and uint64 arithmetic. The result is `x` when `x` already fits. It is `x + 2^64` for a negative 64-bit value and `x - 2^64` after a single overflow |
| `Wire.CreateSignedEnvelope` | server/ote/client.go:66 | Succeeds exactly when the signer succeeds on the header (type, channel, version, epoch) and the payload. The envelope then carries that header and payload. A failure returns the signer's own error |
| `Hex.Digit` | server/ote/client.go:150 | A nibble's digit is a lower-case hex digit whose value is the nibble |
| `Hex.Encode` | server/ote/client.go:150 | The hash column has two characters per byte, and every character is a lower-case hex digit |
| `Hex.EncodeAt` | server/ote/client.go:150 | Characters 2i and 2i+1 of the encoding are the high and low nibble digits of byte i |
| `Hex.DecodeEncode` | server/ote/client.go:150 | Decoding the stored hash column gives back exactly the block's data hash |
| `Hex.DecodeByteDigits` | server/ote/client.go:150 | Decoding a byte's two digits in front of any tail gives that byte in front of the tail's decoding, and fails exactly when the tail's decoding fails |
| `Hex.EncodeInjective` | server/ote/client.go:150 | Different data hashes are stored as different strings |
| `Seek.SeekHelper` | server/ote/client.go:60-71 | When signing succeeds, the envelope is a DELIVER_SEEK_INFO request for `SeekInfo(start, stop, BLOCK_UNTIL_READY)`. It is addressed to the client's own `chanID`, with version 0 and epoch 0. It fails exactly when the signer fails, and then it panics with the signer's own error |
| `Seek.SendSeek` | server/ote/client.go:73-84 | Send is reached exactly when the envelope was built. The result is nil exactly when it was built and Send succeeded. Send's error is returned unchanged |
| `Seek.SeekOldest` | server/ote/client.go:73-75 | The request sent is start = Oldest, stop = Specified(2^64-1), BLOCK_UNTIL_READY, for the client's channel. The result is nil exactly when signing and Send both succeed. A signing failure is a panic carrying the signer's error, and a Send error is returned unchanged |
| `Seek.SeekNewest` | server/ote/client.go:77-79 | Same as SeekOldest, but with start = Newest |
| `Seek.SeekSpecified` | server/ote/client.go:81-84 | The request sent is start = stop = Specified(n), a single-block fetch, for the client's channel. It has the same outcome rules as SeekOldest |
| `Seek.ChannelArgumentIgnored` | server/ote/client.go:60-66 | Any two values of `seekHelper`'s `chanID` argument give the same envelope |
| `Seek.SigningFailureStopsBeforeSend` | server/ote/client.go:66-69 | For each seek form, nothing reaches Send exactly when signing the request fails |
| `Decoder.Sink.InsertTx` | server/ote/client.go:144 | Appends one row to the transaction table and leaves the block table unchanged |
| `Decoder.Sink.InsertBlock` | server/ote/client.go:150 | Appends one row to the block table and leaves the transaction table unchanged |
| `Decoder.TimeOf` | server/ote/client.go:131-132 | A timestamp (s, n) becomes `time.Unix(s, int64(n))`, and a header without a timestamp gives `time.Unix(0, 0)`. The result is never the value `time.Time{}` |
| `Decoder.LastTime` | server/ote/client.go:119-132 | The time left after the loop is the value `time.Time{}` exactly when the block has no envelopes. Otherwise it is the last envelope's `time.Unix` value |
| `Decoder.TransactionResponse` | server/ote/client.go:101-154 | The transaction table grows by exactly `TxRows(block)` and the block table by exactly `SummaryRows(block)`. Rows already stored are kept as they were |
| `Decoder.SeqNoFormula` | server/ote/client.go:144 | The sequence number is `(number * TxNumPerBlock + i) mod 2^64` |
| `Decoder.SeqNoExact` | server/ote/client.go:144 | Without overflow, the sequence number is exactly `number * TxNumPerBlock + i` |
| `Decoder.SeqNoDistinctAcrossBlocks` | server/ote/client.go:144 | If indexes stay below TxNumPerBlock and there is no overflow, distinct (block, index) pairs get distinct sequence numbers |
| `Decoder.SeqNoCollidesPastConfiguredCount` | server/ote/client.go:118-144 | The block size is not checked against TxNumPerBlock. Envelope n of block b gets the same number as envelope 0 of block b+1 |
| `Decoder.GenesisWritesNothing` | server/ote/client.go:101-104 | Block 0 yields no transaction rows and no block row |
| `Decoder.TxRowsContents` | server/ote/client.go:118-148 | For a block b > 0, there is one transaction row per envelope, in envelope order. Row i holds `(b*TxNumPerBlock+i) mod 2^64`, the channel header's TxId, the reserved values `"", "", "", 0` and the envelope's time |
| `Decoder.SummaryRowContents` | server/ote/client.go:118-153 | For a block b > 0, there is exactly one block row. It holds number b and the hash as hex of twice the hash's length, which decodes back to the hash. The count is the declared envelope count and the reserved column is 0. The time is the last envelope's time, or the value `time.Time{}` when the block is empty |
| `Decoder.BlockFiveScenario` | server/ote/client.go:101-153 | Block 5 with two envelopes gives sequence numbers 5n and 5n+1, with the envelopes' ids. It gives one block row with count 2 and the second envelope's time |
| `Deliver.FirstError` | server/ote/client.go:86-91 | The index where the loop stops. Every message before it was received, and the message at it is a receive error |
| `Deliver.Dispatch` | server/ote/client.go:92-97 | A block message appends exactly that block's transaction rows and block row. A status message changes neither table |
| `Deliver.DispatchStep` | server/ote/client.go:87-97 | One more message before the first error adds the rows of the block it carries, after those already dispatched. A status message adds none |
| `Deliver.ReadUntilClose` | server/ote/client.go:86-98 | The tables grow by the rows of exactly the blocks received before the first receive error, in arrival order. The loop stops with the panic "Consumer recv error: " + err exactly when an error was received |
| `Deliver.BlocksOfAppend` | server/ote/client.go:87-97 | The blocks dispatched from two consecutive stretches of messages are those of the first, then those of the second |
| `Deliver.StatusDispatchesNothing` | server/ote/client.go:93-94 | Inserting a status message anywhere leaves the dispatched blocks unchanged |
| `Deliver.BlocksDispatchedInOrder` | server/ote/client.go:95-96 | A stream of block messages dispatches exactly those blocks, in receive order |
| `Deliver.ErrorStopsDispatch` | server/ote/client.go:88-91 | After error-free messages `a`, a receive error stops the loop at the length of `a`. Only the blocks of `a` are dispatched, whatever follows |
| `Deliver.NoErrorDispatchesAll` | server/ote/client.go:86-98 | Without receive errors, every received block is dispatched |
| `Deliver.AllTxRowsAppend` | server/ote/client.go:96-148 | The transaction rows of two consecutive stretches of blocks are the rows of the first stretch followed by those of the second |
| `Deliver.AllSummaryRowsAppend` | server/ote/client.go:96-153 | The block rows of two consecutive stretches of blocks are the rows of the first stretch followed by those of the second |
| `Deliver.GenesisAddsNoRows` | server/ote/client.go:96-104 | A genesis block anywhere in the dispatched blocks adds no row to either table |
| `Deliver.OneSummaryPerBlock` | server/ote/client.go:96-153 | Non-genesis blocks give exactly one block row each, carrying their numbers in dispatch order |
| `Broadcast.GetAck` | server/ote/client.go:176-185 | The result is nil exactly when a message arrives with status SUCCESS. A receive error is returned unchanged. Any other status gives an error carrying that status |
| `Broadcast.Broadcast` | server/ote/client.go:156-174 | On a signing error, nothing is sent and the signer's error is returned. Otherwise the envelope sent is a MESSAGE for the client's channel, with version 0 and epoch 0, carrying the transaction bytes. A Send error is wrapped as "could not send". If the send succeeds, the ack's classification is returned |
| `Broadcast.SuccessIff` | server/ote/client.go:156-185 | Broadcast succeeds if and only if signing succeeds, the send succeeds and the ack status is SUCCESS |
| `Broadcast.FailureNamesItsCause` | server/ote/client.go:156-185 | Every failure is one of the following: the signer's error, the Send error wrapped as "could not send", the receive error, or an unexpected non-SUCCESS status from the ack |
| `Broadcast.AckDecidesAfterSend` | server/ote/client.go:169-185 | Once signing and Send succeed, the ack alone decides. SUCCESS gives nil, and any other status is returned as an error carrying that status |

## Left out

- Concurrency is replaced by a sequential model.
  - `readUntilClose` starts one goroutine per block. The model decodes blocks one after another in arrival order, so it says nothing about the order in which concurrent inserts of different blocks land in the database.
  - The model has no mutex in `broadcast`.
  - The model has no goroutine running `getAck` beside `Send`. When `Send` fails, the real goroutine stays blocked in `Recv`, and a later caller's ack could race with it. The model does not capture this.
- `Deliver.ReadUntilClose`: its row guarantee holds only in the sequential model. In the program each block is decoded in its own goroutine (server/ote/client.go:96). The panic on a receive error (server/ote/client.go:90) ends the process, possibly while those goroutines are still inserting. Rows of blocks still being decoded at that moment may be missing or partial.
- Foreign calls are abstracted.
  - Signing (`utils.CreateSignedEnvelope`) is a signer function. The channel-header timestamp and nonce that it fills in are not modelled.
  - The gRPC streams are represented by the results of `Send` and `Recv`.
  - Protobuf decoding of envelopes, payloads and channel headers is abstracted: envelopes arrive already decoded.
- Malformed envelopes are not modelled. Envelope and payload decode errors are logged and the channel-header error is discarded; the code then dereferences what came back (server/ote/client.go:121-131). The model admits only decoded envelopes.
- The payload's `ConfigValue` and the `strconv.ParseUint` of its value are not modelled. That number is only logged and never stored.
- Statement preparation, `Exec` errors and statement closing are not modelled, and neither is the whole of `server/mysql/db.go` (connection pool, `Ping`, the global `dbMgr`, `CloseDB`). Insert errors are only logged, and each insert is an append to the sink.
- `TxNumPerBlock` comes from configuration loading, which is not part of this model. It is an integer parameter converted as Go's `uint64(...)` does.
- Logging is left out.
- `time.Unix`'s normalisation of out-of-range nanoseconds is not modelled. A time is kept as its (seconds, nanoseconds) pair.
- `Decoder.TimeOf`, `Decoder.LastTime`: times are told apart by representation, not by instant. `time.Unix(-62135596800, 0)` is the same instant as `time.Time{}`, and Go's `IsZero` reports true for it. The model still keeps `Unix(-62135596800, 0)` apart from `ZeroTime`.
- Error texts are not modelled beyond their structure. The receive-loop panic text is modelled. A wrapped Send error is `CouldNotSend(cause)` and an unexpected status is `UnexpectedStatus(status)`, not the formatted strings.
- `newDeliverClient` and `newBroadcastClient` only store their arguments. They are the `DeliverClient` and `BroadcastClient` datatype constructors.
- `readUntilClose` never returns on its own: it blocks in `Recv`. The model runs over a finite sequence of receive results, and it ends without an error when that sequence runs out.
