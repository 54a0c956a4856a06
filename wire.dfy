/**
 * Values that cross the ordering service's Deliver and Broadcast streams, as
 * the client sees them once protobuf decoding is done, together with Go's
 * fixed-width integer types and the errors the client can produce.
 */
module Wire {

  const TWO_TO_THE_64: int := 0x1_0000_0000_0000_0000
  const MAX_UINT64: int := TWO_TO_THE_64 - 1

  type uint64 = x: int | 0 <= x < TWO_TO_THE_64
  type uint32 = x: int | 0 <= x < 0x1_0000_0000
  type int64 = x: int | -0x8000_0000_0000_0000 <= x < 0x8000_0000_0000_0000
  type int32 = x: int | -0x8000_0000 <= x < 0x8000_0000
  type Byte = x: int | 0 <= x < 256

  /** Go's `uint64(x)` for a signed or wider integer, and the wrap-around of
      uint64 arithmetic: the value modulo 2^64. */
  function Wrap64(x: int): (r: uint64)
    ensures 0 <= x < TWO_TO_THE_64 ==> r == x
    ensures -TWO_TO_THE_64 <= x < 0 ==> r == x + TWO_TO_THE_64
    ensures TWO_TO_THE_64 <= x < 2 * TWO_TO_THE_64 ==> r == x - TWO_TO_THE_64
  {
    x % TWO_TO_THE_64
  }

  datatype Option<+T> = None | Some(value: T)

  datatype Result<+T, +E> = Ok(value: T) | Err(error: E)

  /** The three kinds of seek position of the orderer's Deliver API. */
  datatype SeekPosition = Oldest | Newest | Specified(number: uint64)

  datatype SeekBehavior = BlockUntilReady | FailIfNotReady

  datatype SeekInfo = SeekInfo(start: SeekPosition, stop: SeekPosition, behavior: SeekBehavior)

  datatype HeaderType = Message | DeliverSeekInfo

  /** The channel header fields the client chooses when it builds an envelope. */
  datatype ChannelHeader = ChannelHeader(headerType: HeaderType, channelId: string, version: int32, epoch: uint64)

  /** What an outbound envelope carries: a seek request or a ConfigValue whose
      Value field holds the submitted transaction bytes. */
  datatype Payload = SeekInfoPayload(info: SeekInfo) | ConfigValuePayload(value: seq<Byte>)

  datatype Envelope = Envelope(header: ChannelHeader, data: Payload, signature: seq<Byte>)

  /** The signing identity, consumed as a capability: it signs a header and a
      payload, or fails with an error. */
  type Signer = (ChannelHeader, Payload) -> Result<seq<Byte>, string>

  /** Wraps `data` into a signed envelope addressed to `channelId`; fails with
      the signer's own error. */
  function CreateSignedEnvelope(headerType: HeaderType, channelId: string, signer: Signer,
                                data: Payload, version: int32, epoch: uint64): (r: Result<Envelope, string>)
    ensures r.Ok? <==> signer(ChannelHeader(headerType, channelId, version, epoch), data).Ok?
    ensures r.Ok? ==> r.value.header == ChannelHeader(headerType, channelId, version, epoch)
                      && r.value.data == data
    ensures r.Err? ==> r.error == signer(ChannelHeader(headerType, channelId, version, epoch), data).error
  {
    var header := ChannelHeader(headerType, channelId, version, epoch);
    match signer(header, data)
    case Ok(signature) => Ok(Envelope(header, data, signature))
    case Err(e) => Err(e)
  }

  /** A protobuf Timestamp as carried in a channel header. */
  datatype Timestamp = Timestamp(seconds: int64, nanos: int32)

  /** A Go `time.Time` by how it was made: the value `time.Time{}`, or the
      result of `time.Unix(seconds, nanos)`. Two times are told apart by this
      representation, not by the instant they denote. */
  datatype Time = ZeroTime | Unix(seconds: int64, nanos: int64)

  /** One envelope of a delivered block, already decoded down to the channel
      header fields the client stores. A missing timestamp is `None`. */
  datatype Transaction = Transaction(txId: string, timestamp: Option<Timestamp>)

  datatype Block = Block(number: uint64, dataHash: seq<Byte>, data: seq<Transaction>)

  /** common.Status SUCCESS. */
  const STATUS_SUCCESS: int32 := 200

  datatype DeliverResponse = StatusResponse(status: int32) | BlockResponse(block: Block)

  datatype BroadcastResponse = BroadcastResponse(status: int32, info: string)

  /** One call of a stream's Recv: a message, or the error it returned. */
  datatype Received<+T> = Msg(msg: T) | RecvError(err: string)

  datatype Error =
    | Panic(message: string)        // a Go panic: the goroutine does not return
    | Foreign(cause: string)        // an error of a foreign call, returned unchanged
    | CouldNotSend(cause: string)   // a Send error wrapped with "could not send"
    | UnexpectedStatus(status: int32)

  /** The `error` a Go function returns: nil, or an error value. */
  datatype Outcome = Done | Failed(error: Error)

  /** One use of a send stream: the envelope handed to Send (if it got that
      far) and what the caller is told. */
  datatype Exchange = Exchange(sent: Option<Envelope>, outcome: Outcome)
}
