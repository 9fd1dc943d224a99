/** internal/gateways/transaction.go: the two tests of confirmation depth. */
module Transaction {
  import opened Wrappers
  import opened BigInts
  import opened Receipts
  import EthClient
  import Publication

  /** The checker's test.  The subtraction is done in place on the block number just read. */
  method CheckConfirmation(currentBlock: Result<BigInt, EthClient.Error>, receiptBlock: BigInt,
                           confirmationBlockCount: int)
    returns (r: Result<bool, EthClient.Error>)
    requires currentBlock.Ok? ==> currentBlock.value != receiptBlock
    modifies if currentBlock.Ok? then {currentBlock.value} else {}
    ensures receiptBlock.v == old(receiptBlock.v)
    ensures r.Ok? <==> currentBlock.Ok?
    ensures r.Ok? ==> r.value == CheckerTest(old(currentBlock.value.v), receiptBlock.v, confirmationBlockCount)
  {
    if currentBlock.Err? {
      return Err(currentBlock.error);
    }
    var blocks := currentBlock.value;
    blocks.Sub(blocks, receiptBlock);
    return Ok(ToInt64(blocks.v) >= confirmationBlockCount);
  }

  predicate CheckerTest(head: int, block: int, count: int) {
    ToInt64(head - block) >= count
  }

  /** The watcher's wait: it ends well only when the last block read is above receipt block plus
      count.  The sum is a number of its own, so the receipt keeps its block. */
  method WaitForConfirmation(receiptBlock: BigInt, confirmationBlockCount: Result<int, EthClient.Error>,
                             timeout: int, cycle: int, head: nat -> Result<int, EthClient.Error>, lag: nat -> nat)
    returns (r: Result<bool, EthClient.Error>, rounds: nat)
    requires cycle > 0
    ensures confirmationBlockCount.Err? ==> r == Err(confirmationBlockCount.error)
    ensures confirmationBlockCount.Ok? ==>
      && 1 <= rounds <= EthClient.CeilDiv(timeout, cycle) + 1
      && (r.Ok? <==>
            && head(rounds - 1).Ok? && head(rounds - 1).value > confirmationBlockCount.value + receiptBlock.v
            && EthClient.Elapsed(lag, cycle, rounds - 1) < timeout)
    ensures r.Ok? ==> r.value
  {
    if confirmationBlockCount.Err? {
      return Err(confirmationBlockCount.error), 0;
    }
    var confirmationBlock := new BigInt(confirmationBlockCount.value);
    confirmationBlock.Add(confirmationBlock, receiptBlock);
    var err, n := EthClient.WaitBlock(timeout, cycle, confirmationBlock.v, head, lag);
    if err.Some? {
      return Err(err.value), n;
    }
    return Ok(true), n;
  }

  /** A depth that the watcher accepts at some head passes the checker's test at that head and at
      every later one, as long as the depth fits 64 bits; there both tests are the ones of the
      protocol model. */
  lemma WatcherImpliesChecker(head: int, later: int, receipt: Receipt, chain: Publication.Chain, count: int)
    requires head <= later && -TWO_TO_63 <= later - receipt.block < TWO_TO_63
    requires chain.head == later
    ensures head > count + receipt.block ==> CheckerTest(later, receipt.block, count)
    ensures CheckerTest(later, receipt.block, count) <==> Publication.CheckerSeesDepth(chain, receipt, count)
    ensures Publication.WatcherSeesDepth(chain.(head := head), receipt, count) <==> head > count + receipt.block
  {
  }

  /** Int64 keeps the low bits only.  The checker's test is the untruncated comparison for every
      count that fits 64 bits exactly when the depth fits too, or is above the range and has the
      low bits of the greatest number. */
  lemma CheckerTestTruncates(head: int, block: int)
    ensures (forall count: int | -TWO_TO_63 <= count < TWO_TO_63 ::
               CheckerTest(head, block, count) <==> head - block >= count) <==>
            || -TWO_TO_63 <= head - block < TWO_TO_63
            || (head - block >= TWO_TO_63 && (head - block) % TWO_TO_64 == TWO_TO_63 - 1)
  {
    var depth := head - block;
    if depth < -TWO_TO_63 {
      assert CheckerTest(head, block, -TWO_TO_63) && !(depth >= -TWO_TO_63);
    } else if depth >= TWO_TO_63 && depth % TWO_TO_64 != TWO_TO_63 - 1 {
      assert !CheckerTest(head, block, TWO_TO_63 - 1) && depth >= TWO_TO_63 - 1;
    }
  }
}
