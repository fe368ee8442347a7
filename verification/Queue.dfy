/** The transaction record queued at the edge. */
module Queue {

  const PENDING := "PENDING"
  const RECONCILED := "RECONCILED"
  const DEFICIT := "DEFICIT"
  const DUPLICATE := "DUPLICATE"

  datatype Tx = Tx(
    txId: string,
    clientTimestamp: int,
    sequenceNum: int,
    seqNo: nat,
    vectorClock: map<string, nat>,
    tokenId: string,
    accountId: string,
    merchantId: string,
    terminalId: string,
    amount: int,
    status: string,
    payloadHash: string)

  predicate IsPending(tx: Tx) {
    tx.status == PENDING || tx.status == ""
  }
}
