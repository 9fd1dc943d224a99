/** Transaction receipts of the chain. */
module Receipts {

  datatype Receipt = Receipt(successful: bool, block: int)
}
