/**
 * The Broadcast client, with its lock and its ack-receiving goroutine
 * replaced by one sequential round trip: sign, send, then take the one ack
 * that answers the send.
 */
module Broadcast {
  import opened Wire

  /** A Broadcast client: its id, its channel and its signing identity. */
  datatype BroadcastClient = BroadcastClient(clientId: uint32, chanID: string, signer: Signer)

  /** The transaction bytes the orderer reads back from a submitted envelope, if it is one. */
  function TransactionOf(env: Envelope): (r: Option<seq<Byte>>)
    ensures r.Some? <==> env.header.headerType == Message && env.data.ConfigValuePayload?
  {
    if env.header.headerType == Message && env.data.ConfigValuePayload? then Some(env.data.value) else None
  }

  /** Classifies the one ack received: only a SUCCESS status is a success; a
      receive error is returned as it is; any other status yields an error carrying it. */
  function GetAck(ack: Received<BroadcastResponse>): (r: Outcome)
    ensures r == Done <==> ack.Msg? && ack.msg.status == STATUS_SUCCESS
    ensures ack.RecvError? ==> r == Failed(Foreign(ack.err))
    ensures ack.Msg? && ack.msg.status != STATUS_SUCCESS ==> r == Failed(UnexpectedStatus(ack.msg.status))
  {
    match ack
    case RecvError(err) => Failed(Foreign(err))
    case Msg(response) =>
      if response.status != STATUS_SUCCESS then Failed(UnexpectedStatus(response.status)) else Done
  }

  /** Submits `transaction`: signs it as a MESSAGE envelope for the client's
      channel, sends it (Send's result is `sendErr`) and classifies `ack`. */
  function Broadcast(b: BroadcastClient, transaction: seq<Byte>, sendErr: Option<string>,
                     ack: Received<BroadcastResponse>): (x: Exchange)
    ensures x.sent.Some? ==> x.sent.value.header.channelId == b.chanID
                             && x.sent.value.header.version == 0 && x.sent.value.header.epoch == 0
                             && TransactionOf(x.sent.value) == Some(transaction)
    ensures x.sent.None? <==> b.signer(ChannelHeader(Message, b.chanID, 0, 0), ConfigValuePayload(transaction)).Err?
    ensures x.sent.None? ==>
              x.outcome == Failed(Foreign(b.signer(ChannelHeader(Message, b.chanID, 0, 0), ConfigValuePayload(transaction)).error))
    ensures x.sent.Some? && sendErr.Some? ==> x.outcome == Failed(CouldNotSend(sendErr.value))
    ensures x.sent.Some? && sendErr.None? ==> x.outcome == GetAck(ack)
  {
    match CreateSignedEnvelope(Message, b.chanID, b.signer, ConfigValuePayload(transaction), 0, 0)
    case Err(e) => Exchange(None, Failed(Foreign(e)))
    case Ok(env) =>
      if sendErr.Some? then Exchange(Some(env), Failed(CouldNotSend(sendErr.value)))
      else Exchange(Some(env), GetAck(ack))
  }

  /** A broadcast succeeds exactly when signing succeeds, the send succeeds
      and the ack's status is SUCCESS. */
  lemma SuccessIff(b: BroadcastClient, transaction: seq<Byte>, sendErr: Option<string>, ack: Received<BroadcastResponse>)
    ensures Broadcast(b, transaction, sendErr, ack).outcome == Done
            <==> && b.signer(ChannelHeader(Message, b.chanID, 0, 0), ConfigValuePayload(transaction)).Ok?
                 && sendErr.None?
                 && ack.Msg? && ack.msg.status == STATUS_SUCCESS
  {
  }

  /** Every failure carries its cause: the signer's error, the send error
      wrapped as "could not send", the receive error, or the unexpected status. */
  lemma FailureNamesItsCause(b: BroadcastClient, transaction: seq<Byte>, sendErr: Option<string>,
                             ack: Received<BroadcastResponse>)
    requires Broadcast(b, transaction, sendErr, ack).outcome.Failed?
    ensures var e := Broadcast(b, transaction, sendErr, ack).outcome.error;
            || (e.Foreign? && b.signer(ChannelHeader(Message, b.chanID, 0, 0), ConfigValuePayload(transaction)).Err?)
            || (e.CouldNotSend? && sendErr == Some(e.cause))
            || (e.Foreign? && ack == RecvError(e.cause))
            || (e.UnexpectedStatus? && ack.Msg? && ack.msg.status == e.status && e.status != STATUS_SUCCESS)
  {
  }

  /** Once the envelope is sent and the send succeeded, the result depends on
      the ack alone, and a FAILURE-style status is handed back to the caller. */
  lemma AckDecidesAfterSend(b: BroadcastClient, transaction: seq<Byte>, status: int32, info: string)
    requires b.signer(ChannelHeader(Message, b.chanID, 0, 0), ConfigValuePayload(transaction)).Ok?
    ensures status == STATUS_SUCCESS ==> Broadcast(b, transaction, None, Msg(BroadcastResponse(status, info))).outcome == Done
    ensures status != STATUS_SUCCESS ==>
              Broadcast(b, transaction, None, Msg(BroadcastResponse(status, info))).outcome == Failed(UnexpectedStatus(status))
  {
  }
}
