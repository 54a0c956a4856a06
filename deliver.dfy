/**
 * The Deliver client's receive loop, run sequentially over the results of
 * successive Recv calls: status messages are only logged, every block is
 * decoded into the sink in arrival order, and the first receive error ends
 * the loop with a panic.
 */
module Deliver {
  import opened Wire
  import opened Decoder

  /** The text the receive loop's panic starts with. */
  const RECV_ERROR_PREFIX: string := "Consumer recv error: "

  /** The index of the first receive error, or the length when there is none. */
  function FirstError(msgs: seq<Received<DeliverResponse>>): (k: nat)
    ensures k <= |msgs|
    ensures forall j :: 0 <= j < k ==> msgs[j].Msg?
    ensures k < |msgs| ==> msgs[k].RecvError?
    decreases |msgs|
  {
    if |msgs| == 0 || msgs[0].RecvError? then 0
    else
      var k := 1 + FirstError(msgs[1..]);
      assert forall j :: 1 <= j < k ==> msgs[j] == msgs[1..][j - 1];
      k
  }

  /** The block one received message carries: one for a block message, none otherwise. */
  function BlockIn(m: Received<DeliverResponse>): (blocks: seq<Block>)
    ensures |blocks| <= 1
  {
    if m.Msg? && m.msg.BlockResponse? then [m.msg.block] else []
  }

  /** The blocks carried by `msgs`, in order; status messages and errors carry none. */
  function BlocksOf(msgs: seq<Received<DeliverResponse>>): (blocks: seq<Block>)
    ensures |blocks| <= |msgs|
    decreases |msgs|
  {
    if |msgs| == 0 then []
    else
      BlocksOf(msgs[..|msgs| - 1]) + BlockIn(msgs[|msgs| - 1])
  }

  /** The blocks the loop hands to the decoder: those received before the first error. */
  function Dispatched(msgs: seq<Received<DeliverResponse>>): seq<Block> {
    BlocksOf(msgs[..FirstError(msgs)])
  }

  /** All transaction rows of `blocks`, block after block. */
  function AllTxRows(blocks: seq<Block>, txNumPerBlock: int): seq<TxRow>
    decreases |blocks|
  {
    if |blocks| == 0 then []
    else AllTxRows(blocks[..|blocks| - 1], txNumPerBlock) + TxRows(blocks[|blocks| - 1], txNumPerBlock)
  }

  /** All block-summary rows of `blocks`, block after block. */
  function AllSummaryRows(blocks: seq<Block>): seq<BlockRow>
    decreases |blocks|
  {
    if |blocks| == 0 then []
    else AllSummaryRows(blocks[..|blocks| - 1]) + SummaryRows(blocks[|blocks| - 1])
  }

  /** Processes the received messages in order. Returns the panic that ends
      the loop at the first receive error, or `None` when the messages run out
      without one. */
  method ReadUntilClose(msgs: seq<Received<DeliverResponse>>, txNumPerBlock: int, sink: Sink)
    returns (stop: Option<Error>)
    modifies sink
    ensures sink.txRows == old(sink.txRows) + AllTxRows(Dispatched(msgs), txNumPerBlock)
    ensures sink.blockRows == old(sink.blockRows) + AllSummaryRows(Dispatched(msgs))
    ensures stop.Some? <==> FirstError(msgs) < |msgs|
    ensures stop.Some? ==> stop.value == Panic(RECV_ERROR_PREFIX + msgs[FirstError(msgs)].err)
  {
    var i := 0;
    DispatchStart(msgs, txNumPerBlock);
    while i < |msgs| && msgs[i].Msg?
      invariant 0 <= i <= FirstError(msgs) <= |msgs|
      invariant sink.txRows == old(sink.txRows) + AllTxRows(BlocksOf(msgs[..i]), txNumPerBlock)
      invariant sink.blockRows == old(sink.blockRows) + AllSummaryRows(BlocksOf(msgs[..i]))
      decreases |msgs| - i
    {
      BeforeFirstError(msgs, i);
      ghost var txBefore, blocksBefore := sink.txRows, sink.blockRows;
      Dispatch(msgs[i].msg, txNumPerBlock, sink);
      TxRowsAfterStep(msgs, i, txNumPerBlock, old(sink.txRows), txBefore, sink.txRows);
      SummaryRowsAfterStep(msgs, i, old(sink.blockRows), blocksBefore, sink.blockRows);
      i := i + 1;
    }
    LoopExit(msgs, i);
    if i < |msgs| {
      stop := Some(Panic(RECV_ERROR_PREFIX + msgs[i].err));
    } else {
      stop := None;
    }
  }

  /** The transaction rows one received message adds: its block's, or none for a status. */
  function TxRowsOf(m: DeliverResponse, txNumPerBlock: int): seq<TxRow> {
    if m.BlockResponse? then TxRows(m.block, txNumPerBlock) else []
  }

  /** The block rows one received message adds: its block's, or none for a status. */
  function SummaryRowsOf(m: DeliverResponse): seq<BlockRow> {
    if m.BlockResponse? then SummaryRows(m.block) else []
  }

  /** The switch on one received message: a block is decoded into the sink,
      a status is only logged. */
  method Dispatch(m: DeliverResponse, txNumPerBlock: int, sink: Sink)
    modifies sink
    ensures sink.txRows == old(sink.txRows) + TxRowsOf(m, txNumPerBlock)
    ensures sink.blockRows == old(sink.blockRows) + SummaryRowsOf(m)
  {
    match m {
      case StatusResponse(_) =>
        assert sink.txRows + [] == sink.txRows && sink.blockRows + [] == sink.blockRows;
      case BlockResponse(block) =>
        TransactionResponse(block, txNumPerBlock, sink);
    }
  }

  lemma Associative<T>(a: seq<T>, b: seq<T>, c: seq<T>)
    ensures a + (b + c) == (a + b) + c
  {
  }

  lemma BlocksOfStep(msgs: seq<Received<DeliverResponse>>, i: nat)
    requires i < |msgs|
    ensures BlocksOf(msgs[..i + 1]) == BlocksOf(msgs[..i]) + BlockIn(msgs[i])
  {
    assert msgs[..i + 1][..i] == msgs[..i];
  }

  lemma DispatchStart(msgs: seq<Received<DeliverResponse>>, txNumPerBlock: int)
    ensures AllTxRows(BlocksOf(msgs[..0]), txNumPerBlock) == [] && AllSummaryRows(BlocksOf(msgs[..0])) == []
  {
  }

  lemma LoopExit(msgs: seq<Received<DeliverResponse>>, i: nat)
    requires i <= FirstError(msgs) <= |msgs|
    requires i == |msgs| || msgs[i].RecvError?
    ensures i == FirstError(msgs) && Dispatched(msgs) == BlocksOf(msgs[..i])
  {
  }

  lemma BeforeFirstError(msgs: seq<Received<DeliverResponse>>, i: nat)
    requires i <= FirstError(msgs) && i < |msgs| && msgs[i].Msg?
    ensures i < FirstError(msgs)
  {
  }

  /** One more message before the first error adds the rows of the block it
      carries; a status message adds none. */
  lemma DispatchStep(msgs: seq<Received<DeliverResponse>>, i: nat, txNumPerBlock: int)
    requires i < |msgs| && msgs[i].Msg?
    ensures AllTxRows(BlocksOf(msgs[..i + 1]), txNumPerBlock)
            == AllTxRows(BlocksOf(msgs[..i]), txNumPerBlock) + TxRowsOf(msgs[i].msg, txNumPerBlock)
    ensures AllSummaryRows(BlocksOf(msgs[..i + 1])) == AllSummaryRows(BlocksOf(msgs[..i])) + SummaryRowsOf(msgs[i].msg)
  {
    BlocksOfStep(msgs, i);
    var before := BlocksOf(msgs[..i]);
    if msgs[i].msg.BlockResponse? {
      AllTxRowsStep(before, msgs[i].msg.block, txNumPerBlock);
      AllSummaryRowsStep(before, msgs[i].msg.block);
    } else {
      assert BlockIn(msgs[i]) == [] && before + [] == before;
      assert AllTxRows(before, txNumPerBlock) + [] == AllTxRows(before, txNumPerBlock);
      assert AllSummaryRows(before) + [] == AllSummaryRows(before);
    }
  }

  /** The transaction table after one more message, given the table before it. */
  lemma TxRowsAfterStep(msgs: seq<Received<DeliverResponse>>, i: nat, txNumPerBlock: int,
                        start: seq<TxRow>, before: seq<TxRow>, after: seq<TxRow>)
    requires i < |msgs| && msgs[i].Msg?
    requires before == start + AllTxRows(BlocksOf(msgs[..i]), txNumPerBlock)
    requires after == before + TxRowsOf(msgs[i].msg, txNumPerBlock)
    ensures after == start + AllTxRows(BlocksOf(msgs[..i + 1]), txNumPerBlock)
  {
    DispatchStep(msgs, i, txNumPerBlock);
    Associative(start, AllTxRows(BlocksOf(msgs[..i]), txNumPerBlock), TxRowsOf(msgs[i].msg, txNumPerBlock));
  }

  /** The block table after one more message, given the table before it. */
  lemma SummaryRowsAfterStep(msgs: seq<Received<DeliverResponse>>, i: nat,
                             start: seq<BlockRow>, before: seq<BlockRow>, after: seq<BlockRow>)
    requires i < |msgs| && msgs[i].Msg?
    requires before == start + AllSummaryRows(BlocksOf(msgs[..i]))
    requires after == before + SummaryRowsOf(msgs[i].msg)
    ensures after == start + AllSummaryRows(BlocksOf(msgs[..i + 1]))
  {
    DispatchStep(msgs, i, 0);
    Associative(start, AllSummaryRows(BlocksOf(msgs[..i])), SummaryRowsOf(msgs[i].msg));
  }

  lemma AllTxRowsStep(blocks: seq<Block>, block: Block, txNumPerBlock: int)
    ensures AllTxRows(blocks + [block], txNumPerBlock) == AllTxRows(blocks, txNumPerBlock) + TxRows(block, txNumPerBlock)
  {
    assert (blocks + [block])[..|blocks|] == blocks;
  }

  lemma AllSummaryRowsStep(blocks: seq<Block>, block: Block)
    ensures AllSummaryRows(blocks + [block]) == AllSummaryRows(blocks) + SummaryRows(block)
  {
    assert (blocks + [block])[..|blocks|] == blocks;
  }

  /** Receiving is compositional: the blocks of two stretches are the blocks of each. */
  lemma {:induction false} BlocksOfAppend(a: seq<Received<DeliverResponse>>, b: seq<Received<DeliverResponse>>)
    ensures BlocksOf(a + b) == BlocksOf(a) + BlocksOf(b)
    decreases |b|
  {
    if |b| > 0 {
      var last := b[|b| - 1];
      assert (a + b)[..|a + b| - 1] == a + b[..|b| - 1];
      BlocksOfAppend(a, b[..|b| - 1]);
    } else {
      assert a + b == a;
    }
  }

  /** A status message dispatches nothing, wherever it arrives. */
  lemma StatusDispatchesNothing(a: seq<Received<DeliverResponse>>, status: int32, b: seq<Received<DeliverResponse>>)
    ensures BlocksOf(a + [Msg(StatusResponse(status))] + b) == BlocksOf(a + b)
  {
    BlocksOfAppend(a + [Msg(StatusResponse(status))], b);
    BlocksOfAppend(a, b);
    assert BlocksOf(a + [Msg(StatusResponse(status))]) == BlocksOf(a) by {
      assert (a + [Msg(StatusResponse(status))])[..|a|] == a;
    }
  }

  /** Every block received before the first error is dispatched, in receive order. */
  lemma {:induction false} BlocksDispatchedInOrder(blocks: seq<Block>)
    ensures BlocksOf(seq(|blocks|, i requires 0 <= i < |blocks| => Msg(BlockResponse(blocks[i])))) == blocks
    decreases |blocks|
  {
    var msgs := seq(|blocks|, i requires 0 <= i < |blocks| => Msg(BlockResponse(blocks[i])));
    if |blocks| > 0 {
      var init, last := blocks[..|blocks| - 1], blocks[|blocks| - 1];
      var initMsgs := seq(|init|, i requires 0 <= i < |init| => Msg(BlockResponse(init[i])));
      calc {
        BlocksOf(msgs);
      ==
        BlocksOf(msgs[..|msgs| - 1]) + BlockIn(msgs[|msgs| - 1]);
      == { assert msgs[..|msgs| - 1] == initMsgs; }
        BlocksOf(initMsgs) + [last];
      == { BlocksDispatchedInOrder(init); }
        init + [last];
      == { assert init + [last] == blocks; }
        blocks;
      }
    }
  }

  /** A receive error ends the loop: nothing received after it is dispatched. */
  lemma {:induction false} ErrorStopsDispatch(a: seq<Received<DeliverResponse>>, err: string, b: seq<Received<DeliverResponse>>)
    requires forall j :: 0 <= j < |a| ==> a[j].Msg?
    ensures FirstError(a + [RecvError(err)] + b) == |a|
    ensures Dispatched(a + [RecvError(err)] + b) == BlocksOf(a)
    decreases |a|
  {
    var msgs := a + [RecvError(err)] + b;
    if |a| > 0 {
      assert msgs[1..] == a[1..] + [RecvError(err)] + b;
      ErrorStopsDispatch(a[1..], err, b);
    }
    assert msgs[..|a|] == a;
  }

  /** Without errors the loop dispatches every block message it receives. */
  lemma {:induction false} NoErrorDispatchesAll(msgs: seq<Received<DeliverResponse>>)
    requires forall j :: 0 <= j < |msgs| ==> msgs[j].Msg?
    ensures Dispatched(msgs) == BlocksOf(msgs)
  {
    assert msgs[..|msgs|] == msgs;
  }

  /** The transaction rows of two stretches of blocks are the rows of each, in order. */
  lemma {:induction false} AllTxRowsAppend(a: seq<Block>, b: seq<Block>, txNumPerBlock: int)
    ensures AllTxRows(a + b, txNumPerBlock) == AllTxRows(a, txNumPerBlock) + AllTxRows(b, txNumPerBlock)
    decreases |b|
  {
    if |b| == 0 {
      assert a + b == a;
      assert AllTxRows(a, txNumPerBlock) + [] == AllTxRows(a, txNumPerBlock);
    } else {
      var init, last := b[..|b| - 1], b[|b| - 1];
      calc {
        AllTxRows(a + b, txNumPerBlock);
      == { assert a + b == (a + init) + [last] by { assert b == init + [last]; } }
        AllTxRows((a + init) + [last], txNumPerBlock);
      == { AllTxRowsStep(a + init, last, txNumPerBlock); }
        AllTxRows(a + init, txNumPerBlock) + TxRows(last, txNumPerBlock);
      == { AllTxRowsAppend(a, init, txNumPerBlock); }
        (AllTxRows(a, txNumPerBlock) + AllTxRows(init, txNumPerBlock)) + TxRows(last, txNumPerBlock);
      == { Associative(AllTxRows(a, txNumPerBlock), AllTxRows(init, txNumPerBlock), TxRows(last, txNumPerBlock)); }
        AllTxRows(a, txNumPerBlock) + (AllTxRows(init, txNumPerBlock) + TxRows(last, txNumPerBlock));
      == { AllTxRowsStep(init, last, txNumPerBlock); assert init + [last] == b; }
        AllTxRows(a, txNumPerBlock) + AllTxRows(b, txNumPerBlock);
      }
    }
  }

  /** The summary rows of two stretches of blocks are the rows of each, in order. */
  lemma {:induction false} AllSummaryRowsAppend(a: seq<Block>, b: seq<Block>)
    ensures AllSummaryRows(a + b) == AllSummaryRows(a) + AllSummaryRows(b)
    decreases |b|
  {
    if |b| == 0 {
      assert a + b == a;
      assert AllSummaryRows(a) + [] == AllSummaryRows(a);
    } else {
      var init, last := b[..|b| - 1], b[|b| - 1];
      calc {
        AllSummaryRows(a + b);
      == { assert a + b == (a + init) + [last] by { assert b == init + [last]; } }
        AllSummaryRows((a + init) + [last]);
      == { AllSummaryRowsStep(a + init, last); }
        AllSummaryRows(a + init) + SummaryRows(last);
      == { AllSummaryRowsAppend(a, init); }
        (AllSummaryRows(a) + AllSummaryRows(init)) + SummaryRows(last);
      == { Associative(AllSummaryRows(a), AllSummaryRows(init), SummaryRows(last)); }
        AllSummaryRows(a) + (AllSummaryRows(init) + SummaryRows(last));
      == { AllSummaryRowsStep(init, last); assert init + [last] == b; }
        AllSummaryRows(a) + AllSummaryRows(b);
      }
    }
  }

  /** Genesis blocks add no rows to the tables, wherever they arrive. */
  lemma GenesisAddsNoRows(blocks: seq<Block>, genesis: Block, more: seq<Block>, txNumPerBlock: int)
    requires genesis.number == 0
    ensures AllTxRows(blocks + [genesis] + more, txNumPerBlock) == AllTxRows(blocks + more, txNumPerBlock)
    ensures AllSummaryRows(blocks + [genesis] + more) == AllSummaryRows(blocks + more)
  {
    AllTxRowsAppend(blocks + [genesis], more, txNumPerBlock);
    AllTxRowsAppend(blocks, more, txNumPerBlock);
    AllSummaryRowsAppend(blocks + [genesis], more);
    AllSummaryRowsAppend(blocks, more);
    AllTxRowsStep(blocks, genesis, txNumPerBlock);
    AllSummaryRowsStep(blocks, genesis);
    assert AllTxRows(blocks, txNumPerBlock) + [] == AllTxRows(blocks, txNumPerBlock);
    assert AllSummaryRows(blocks) + [] == AllSummaryRows(blocks);
  }

  /** Each non-genesis block contributes exactly one summary row. */
  lemma {:induction false} OneSummaryPerBlock(blocks: seq<Block>)
    requires forall j :: 0 <= j < |blocks| ==> blocks[j].number > 0
    ensures |AllSummaryRows(blocks)| == |blocks|
    ensures forall j :: 0 <= j < |blocks| ==> AllSummaryRows(blocks)[j].number == blocks[j].number
    decreases |blocks|
  {
    if |blocks| > 0 {
      OneSummaryPerBlock(blocks[..|blocks| - 1]);
    }
  }
}
