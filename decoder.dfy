/**
 * Turning one delivered block into rows of the `transaction` and `block`
 * tables. The database is an in-memory sink whose two insert statements
 * append a row each.
 */
module Decoder {
  import opened Wire
  import Hex

  /** A row of `transaction`: sequence number, transaction id, four reserved
      columns, timestamp. */
  datatype TxRow = TxRow(seqNo: uint64, txId: string, reserved1: string, reserved2: string,
                         reserved3: string, reserved4: int, time: Time)

  /** A row of `block`: number, hex of the data hash, transaction count, a
      reserved column, timestamp. */
  datatype BlockRow = BlockRow(number: uint64, dataHashHex: string, txCount: int, reserved: int, time: Time)

  /** The two tables, in insertion order. */
  class Sink {
    var txRows: seq<TxRow>
    var blockRows: seq<BlockRow>

    constructor ()
      ensures txRows == [] && blockRows == []
    {
      txRows, blockRows := [], [];
    }

    /** The `transaction` insert statement. */
    method InsertTx(row: TxRow)
      modifies this
      ensures txRows == old(txRows) + [row] && blockRows == old(blockRows)
    {
      txRows := txRows + [row];
    }

    /** The `block` insert statement. */
    method InsertBlock(row: BlockRow)
      modifies this
      ensures blockRows == old(blockRows) + [row] && txRows == old(txRows)
    {
      blockRows := blockRows + [row];
    }
  }

  /** `time.Unix(ts.GetSeconds(), int64(ts.GetNanos()))`; an absent timestamp reads as zero seconds. */
  function TimeOf(ts: Option<Timestamp>): (t: Time)
    ensures t.Unix?
    ensures ts.None? ==> t == Unix(0, 0)
    ensures ts.Some? ==> t == Unix(ts.value.seconds, ts.value.nanos as int64)
  {
    match ts
    case None => Unix(0, 0)
    case Some(Timestamp(seconds, nanos)) => Unix(seconds, nanos as int64)
  }

  /** The time left in `txTime` after a loop over `txs`: the last transaction's, or the value `time.Time{}` when there is none. */
  function LastTime(txs: seq<Transaction>): (t: Time)
    ensures t == ZeroTime <==> |txs| == 0
    ensures |txs| > 0 ==> t == TimeOf(txs[|txs| - 1].timestamp)
  {
    if |txs| == 0 then ZeroTime else TimeOf(txs[|txs| - 1].timestamp)
  }

  /** `number*uint64(txNumPerBlock)+uint64(i)` in uint64 arithmetic. */
  function SeqNo(number: uint64, txNumPerBlock: int, i: nat): uint64 {
    Wrap64(Wrap64(number * Wrap64(txNumPerBlock)) + Wrap64(i))
  }

  function TxRowAt(block: Block, txNumPerBlock: int, i: nat): TxRow
    requires i < |block.data|
  {
    TxRow(SeqNo(block.number, txNumPerBlock, i), block.data[i].txId, "", "", "", 0, TimeOf(block.data[i].timestamp))
  }

  /** The transaction rows a block yields, in envelope order; none for the genesis block. */
  function TxRows(block: Block, txNumPerBlock: int): seq<TxRow> {
    if block.number == 0 then []
    else seq(|block.data|, i requires 0 <= i < |block.data| => TxRowAt(block, txNumPerBlock, i))
  }

  /** The block-summary rows a block yields: one, or none for the genesis block. */
  function SummaryRows(block: Block): seq<BlockRow> {
    if block.number == 0 then []
    else [BlockRow(block.number, Hex.Encode(block.dataHash), |block.data|, 0, LastTime(block.data))]
  }

  /** Decodes `block` and appends its rows to the sink: one transaction row
      per envelope in order, then the summary row; the genesis block is skipped. */
  method TransactionResponse(block: Block, txNumPerBlock: int, sink: Sink)
    modifies sink
    ensures sink.txRows == old(sink.txRows) + TxRows(block, txNumPerBlock)
    ensures sink.blockRows == old(sink.blockRows) + SummaryRows(block)
  {
    if block.number == 0 {
      return;
    }
    var txLen := |block.data|;
    var txTime := ZeroTime;
    var i := 0;
    while i < |block.data|
      invariant 0 <= i <= |block.data|
      invariant txTime == LastTime(block.data[..i])
      invariant sink.txRows == old(sink.txRows) + TxRows(block, txNumPerBlock)[..i]
      invariant sink.blockRows == old(sink.blockRows)
    {
      var envelope := block.data[i];
      txTime := TimeOf(envelope.timestamp);
      sink.InsertTx(TxRow(SeqNo(block.number, txNumPerBlock, i), envelope.txId, "", "", "", 0, txTime));
      i := i + 1;
    }
    assert block.data[..i] == block.data;
    sink.InsertBlock(BlockRow(block.number, Hex.Encode(block.dataHash), txLen, 0, txTime));
  }

  /** The sequence number is `number * txNumPerBlock + i` modulo 2^64, with the
      configured value itself converted to uint64 first. */
  lemma SeqNoFormula(number: uint64, txNumPerBlock: int, i: nat)
    ensures SeqNo(number, txNumPerBlock, i) == (number * txNumPerBlock + i) % TWO_TO_THE_64
  {
    var m := TWO_TO_THE_64;
    var n := txNumPerBlock;
    ModMulRight(number, n, m);
    ModAdd(number * (n % m), i, m);
    ModAdd(number * n, i, m);
    assert (number * (n % m)) % m == (number * n) % m;
  }

  /** Without overflow the sequence number is exactly `number * txNumPerBlock + i`. */
  lemma SeqNoExact(number: uint64, txNumPerBlock: nat, i: nat)
    requires number * txNumPerBlock + i < TWO_TO_THE_64
    ensures SeqNo(number, txNumPerBlock, i) == number * txNumPerBlock + i
  {
    SeqNoFormula(number, txNumPerBlock, i);
    var x := number * txNumPerBlock + i;
    MulMono(0, number, txNumPerBlock);
    ModUnique(x, 0, x, TWO_TO_THE_64);
  }

  lemma ModMulRight(a: int, b: int, m: int)
    requires m > 0
    ensures (a * (b % m)) % m == (a * b) % m
  {
    var q := b / m;
    assert b == q * m + b % m;
    assert a * b == a * (b % m) + (a * q) * m;
    ModShift(a * (b % m), a * q, m);
  }

  lemma ModAdd(x: int, y: int, m: int)
    requires m > 0
    ensures ((x % m) + (y % m)) % m == (x + y) % m
  {
    var qx, qy := x / m, y / m;
    assert x + y == (x % m + y % m) + (qx + qy) * m;
    ModShift(x % m + y % m, qx + qy, m);
  }

  lemma ModShift(x: int, k: int, m: int)
    requires m > 0
    ensures (x + k * m) % m == x % m
  {
    var r := x % m;
    var q := x / m;
    assert x + k * m == (q + k) * m + r;
    ModUnique(x + k * m, q + k, r, m);
  }

  lemma ModUnique(x: int, q: int, r: int, m: int)
    requires m > 0 && 0 <= r < m && x == q * m + r
    ensures x % m == r
  {
    var q', r' := x / m, x % m;
    assert q' * m + r' == q * m + r;
    if q' < q {
      assert (q - q') * m == r' - r;
      MulMono(1, q - q', m);
    } else if q' > q {
      assert (q' - q) * m == r - r';
      MulMono(1, q' - q, m);
    }
  }

  /** Rows of two different blocks never share a sequence number when every
      index stays below the configured count and nothing overflows. */
  lemma {:induction false} SeqNoDistinctAcrossBlocks(b1: uint64, b2: uint64, n: nat, i1: nat, i2: nat)
    requires i1 < n && i2 < n
    requires (b1 + 1) * n <= TWO_TO_THE_64 && (b2 + 1) * n <= TWO_TO_THE_64
    requires b1 != b2 || i1 != i2
    ensures SeqNo(b1, n, i1) != SeqNo(b2, n, i2)
  {
    assert b1 * n + i1 < (b1 + 1) * n;
    assert b2 * n + i2 < (b2 + 1) * n;
    SeqNoExact(b1, n, i1);
    SeqNoExact(b2, n, i2);
    if b1 < b2 {
      assert (b1 + 1) * n <= b2 * n by { MulMono(b1 + 1, b2, n); }
    } else if b2 < b1 {
      assert (b2 + 1) * n <= b1 * n by { MulMono(b2 + 1, b1, n); }
    }
  }

  lemma MulMono(a: nat, b: nat, n: nat)
    requires a <= b
    ensures a * n <= b * n
  {
  }

  /** Nothing checks the block's size against the configured count: a block
      holding more than `n` transactions reuses the next block's first number. */
  lemma SeqNoCollidesPastConfiguredCount(b: uint64, n: nat)
    requires b < MAX_UINT64 && (b + 1) * n < TWO_TO_THE_64
    ensures SeqNo(b, n, n) == SeqNo(b + 1, n, 0)
  {
    SeqNoExact(b, n, n);
    SeqNoExact(b + 1, n, 0);
  }

  /** The genesis block writes nothing. */
  lemma GenesisWritesNothing(block: Block, txNumPerBlock: int)
    requires block.number == 0
    ensures TxRows(block, txNumPerBlock) == [] && SummaryRows(block) == []
  {
  }

  /** Any other block yields one row per envelope, in order, whose columns are
      the sequence number, the channel header's TxId, the fixed reserved values
      and the envelope's time. */
  lemma TxRowsContents(block: Block, txNumPerBlock: int, i: nat)
    requires block.number > 0 && i < |block.data|
    ensures |TxRows(block, txNumPerBlock)| == |block.data|
    ensures TxRows(block, txNumPerBlock)[i].seqNo == (block.number * txNumPerBlock + i) % TWO_TO_THE_64
    ensures TxRows(block, txNumPerBlock)[i].txId == block.data[i].txId
    ensures TxRows(block, txNumPerBlock)[i].reserved1 == "" && TxRows(block, txNumPerBlock)[i].reserved2 == ""
            && TxRows(block, txNumPerBlock)[i].reserved3 == "" && TxRows(block, txNumPerBlock)[i].reserved4 == 0
    ensures TxRows(block, txNumPerBlock)[i].time == TimeOf(block.data[i].timestamp)
  {
    SeqNoFormula(block.number, txNumPerBlock, i);
  }

  /** Any other block yields exactly one summary row: its number, the hash as
      lower-case hex that decodes back to the hash, the declared envelope
      count, reserved 0, and the last envelope's time (`time.Time{}` if none). */
  lemma SummaryRowContents(block: Block)
    requires block.number > 0
    ensures |SummaryRows(block)| == 1
    ensures SummaryRows(block)[0].number == block.number
    ensures |SummaryRows(block)[0].dataHashHex| == 2 * |block.dataHash|
    ensures Hex.Decode(SummaryRows(block)[0].dataHashHex) == Some(block.dataHash)
    ensures SummaryRows(block)[0].txCount == |block.data|
    ensures SummaryRows(block)[0].reserved == 0
    ensures |block.data| == 0 ==> SummaryRows(block)[0].time == ZeroTime
    ensures |block.data| > 0 ==> SummaryRows(block)[0].time == TimeOf(block.data[|block.data| - 1].timestamp)
  {
    Hex.DecodeEncode(block.dataHash);
  }

  /** The worked case: block 5 with two envelopes, after a single-block seek
      of block 5, gives sequence numbers 5n and 5n+1 and a count of 2. */
  lemma BlockFiveScenario(e0: Transaction, e1: Transaction, hash: seq<Byte>, n: nat)
    requires n < 0x1000
    ensures var block := Block(5, hash, [e0, e1]);
            && |TxRows(block, n)| == 2
            && TxRows(block, n)[0].seqNo == 5 * n && TxRows(block, n)[1].seqNo == 5 * n + 1
            && TxRows(block, n)[0].txId == e0.txId && TxRows(block, n)[1].txId == e1.txId
            && |SummaryRows(block)| == 1 && SummaryRows(block)[0].txCount == 2
            && SummaryRows(block)[0].time == TimeOf(e1.timestamp)
  {
    var block := Block(5, hash, [e0, e1]);
    TxRowsContents(block, n, 0);
    TxRowsContents(block, n, 1);
  }
}
