/**
 * The Deliver client's seek requests: each public form picks a start and a
 * stop position, wraps them in a SeekInfo that blocks until the blocks are
 * ready, signs it for the client's own channel and sends it.
 */
module Seek {
  import opened Wire

  /** The fixed stop position of the open-ended forms: the largest block number. */
  const MAX_STOP: SeekPosition := Specified(MAX_UINT64)

  /** A Deliver client: its channel and its signing identity. The stream it
      sends on is represented by the outcome of each Send call. */
  datatype DeliverClient = DeliverClient(chanID: string, signer: Signer)

  /** The seek request the orderer reads from an envelope, if it is one. */
  function SeekRequestOf(env: Envelope): (r: Option<SeekInfo>)
    ensures r.Some? <==> env.header.headerType == DeliverSeekInfo && env.data.SeekInfoPayload?
  {
    if env.header.headerType == DeliverSeekInfo && env.data.SeekInfoPayload? then Some(env.data.info) else None
  }

  /** What the client's signer makes of a seek request for its own channel. */
  function Signing(d: DeliverClient, info: SeekInfo): Result<seq<Byte>, string> {
    d.signer(ChannelHeader(DeliverSeekInfo, d.chanID, 0, 0), SeekInfoPayload(info))
  }

  /** Builds and signs the seek envelope. The `chanID` argument plays no part:
      the envelope is always addressed to the client's own channel. A signing
      failure is a panic. */
  function SeekHelper(d: DeliverClient, chanID: string, start: SeekPosition, stop: SeekPosition)
    : (r: Result<Envelope, Error>)
    ensures r.Ok? ==> r.value.header.channelId == d.chanID
                      && r.value.header.version == 0 && r.value.header.epoch == 0
                      && SeekRequestOf(r.value) == Some(SeekInfo(start, stop, BlockUntilReady))
    ensures r.Err? <==> Signing(d, SeekInfo(start, stop, BlockUntilReady)).Err?
    ensures r.Err? ==> r.error == Panic(Signing(d, SeekInfo(start, stop, BlockUntilReady)).error)
  {
    var seekInfo := SeekInfo(start, stop, BlockUntilReady);
    match CreateSignedEnvelope(DeliverSeekInfo, d.chanID, d.signer, SeekInfoPayload(seekInfo), 0, 0)
    case Ok(env) => Ok(env)
    case Err(e) => Err(Panic(e))
  }

  /** Hands the built envelope to Send; Send's error is returned unchanged. */
  function SendSeek(request: Result<Envelope, Error>, sendErr: Option<string>): (x: Exchange)
    ensures x.sent.Some? <==> request.Ok?
    ensures x.sent.Some? ==> x.sent.value == request.value
    ensures x.outcome == Done <==> request.Ok? && sendErr.None?
    ensures request.Err? ==> x.outcome == Failed(request.error)
    ensures request.Ok? && sendErr.Some? ==> x.outcome == Failed(Foreign(sendErr.value))
  {
    match request
    case Err(e) => Exchange(None, Failed(e))
    case Ok(env) => Exchange(Some(env), if sendErr.Some? then Failed(Foreign(sendErr.value)) else Done)
  }

  /** Streams from the oldest block on, up to the largest block number. */
  function SeekOldest(d: DeliverClient, sendErr: Option<string>): (x: Exchange)
    ensures x.sent.Some? ==> x.sent.value.header.channelId == d.chanID
                             && SeekRequestOf(x.sent.value) == Some(SeekInfo(Oldest, Specified(MAX_UINT64), BlockUntilReady))
    ensures x.outcome == Done <==> x.sent.Some? && sendErr.None?
    ensures x.sent.None? ==> x.outcome.Failed? && x.outcome.error.Panic?
    ensures x.sent.Some? && sendErr.Some? ==> x.outcome == Failed(Foreign(sendErr.value))
    ensures Signing(d, SeekInfo(Oldest, MAX_STOP, BlockUntilReady)).Err? ==>
              x.outcome == Failed(Panic(Signing(d, SeekInfo(Oldest, MAX_STOP, BlockUntilReady)).error))
  {
    SendSeek(SeekHelper(d, d.chanID, Oldest, MAX_STOP), sendErr)
  }

  /** Streams from the newest block on, up to the largest block number. */
  function SeekNewest(d: DeliverClient, sendErr: Option<string>): (x: Exchange)
    ensures x.sent.Some? ==> x.sent.value.header.channelId == d.chanID
                             && SeekRequestOf(x.sent.value) == Some(SeekInfo(Newest, Specified(MAX_UINT64), BlockUntilReady))
    ensures x.outcome == Done <==> x.sent.Some? && sendErr.None?
    ensures x.sent.None? ==> x.outcome.Failed? && x.outcome.error.Panic?
    ensures x.sent.Some? && sendErr.Some? ==> x.outcome == Failed(Foreign(sendErr.value))
    ensures Signing(d, SeekInfo(Newest, MAX_STOP, BlockUntilReady)).Err? ==>
              x.outcome == Failed(Panic(Signing(d, SeekInfo(Newest, MAX_STOP, BlockUntilReady)).error))
  {
    SendSeek(SeekHelper(d, d.chanID, Newest, MAX_STOP), sendErr)
  }

  /** Fetches the single block `blockNumber`: start and stop are both that block. */
  function SeekSpecified(d: DeliverClient, blockNumber: uint64, sendErr: Option<string>): (x: Exchange)
    ensures x.sent.Some? ==> x.sent.value.header.channelId == d.chanID
                             && SeekRequestOf(x.sent.value) == Some(SeekInfo(Specified(blockNumber), Specified(blockNumber), BlockUntilReady))
    ensures x.outcome == Done <==> x.sent.Some? && sendErr.None?
    ensures x.sent.None? ==> x.outcome.Failed? && x.outcome.error.Panic?
    ensures x.sent.Some? && sendErr.Some? ==> x.outcome == Failed(Foreign(sendErr.value))
    ensures Signing(d, SeekInfo(Specified(blockNumber), Specified(blockNumber), BlockUntilReady)).Err? ==>
              x.outcome == Failed(Panic(Signing(d, SeekInfo(Specified(blockNumber), Specified(blockNumber), BlockUntilReady)).error))
  {
    var specific := Specified(blockNumber);
    SendSeek(SeekHelper(d, d.chanID, specific, specific), sendErr)
  }

  /** Whatever channel is passed to `SeekHelper`, the same envelope comes out. */
  lemma ChannelArgumentIgnored(d: DeliverClient, c1: string, c2: string, start: SeekPosition, stop: SeekPosition)
    ensures SeekHelper(d, c1, start, stop) == SeekHelper(d, c2, start, stop)
  {
  }

  /** Signing happens whatever the send would do: the three forms panic on
      exactly the same signer failures as `SeekHelper`, and never reach Send then. */
  lemma SigningFailureStopsBeforeSend(d: DeliverClient, n: uint64, sendErr: Option<string>)
    ensures SeekOldest(d, sendErr).sent.None? <==> SeekHelper(d, d.chanID, Oldest, MAX_STOP).Err?
    ensures SeekNewest(d, sendErr).sent.None? <==> SeekHelper(d, d.chanID, Newest, MAX_STOP).Err?
    ensures SeekSpecified(d, n, sendErr).sent.None? <==> SeekHelper(d, d.chanID, Specified(n), Specified(n)).Err?
  {
  }
}
