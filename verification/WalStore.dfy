/** The write-ahead log as the mutable object of the source; the file is its current content. */
module WalStores {
  import opened BigEndians
  import opened Queue
  import opened WalModel

  lemma ReaderBounded(c: Codec)
    ensures Bounded(ReaderOf(c))
  {
  }

  lemma PendingSnoc(txMap: map<string, Tx>, order: seq<string>, id: string)
    ensures Pending(txMap, order + [id])
         == Pending(txMap, order) + (if id in txMap && IsPending(txMap[id]) then [txMap[id]] else [])
  {
    assert (order + [id])[..|order|] == order;
  }

  ghost predicate AllIndexed(order: seq<string>, txMap: map<string, Tx>) {
    forall i :: 0 <= i < |order| ==> order[i] in txMap
  }

  /** The read loop of recovery: index every frame that reads back, remember where the last one ended. */
  method RecoverLoop(read: Reader, file: Bytes) returns (st: Store, validOffset: nat)
    requires Bounded(read)
    ensures (st, validOffset) == Scan(read, EMPTY.(file := file), 0, 0)
    ensures validOffset <= |file| && AllIndexed(st.order, st.txMap)
  {
    st := EMPTY.(file := file);
    validOffset := 0;
    var off: nat := 0;
    while true
      invariant off <= |file| && validOffset <= |file| && st.file == file && AllIndexed(st.order, st.txMap)
      invariant Scan(read, EMPTY.(file := file), 0, 0) == Scan(read, st, off, validOffset)
      decreases |file| - off
    {
      var frame := read(file, off);
      if frame.Stop? {
        return;
      }
      ScanUnfold(read, st, off, validOffset, frame.rec, frame.length);
      st := Load(st, frame.rec);
      validOffset := off + (HEADER + frame.length) % U32;
      off := off + HEADER + frame.length;
    }
  }

  class WALStore {
    const codec: Codec
    var file: Bytes
    var txMap: map<string, Tx>
    var order: seq<string>
    var seqNumber: nat

    /** Every listed id is indexed. */
    ghost predicate Valid()
      reads this
    {
      AllIndexed(order, txMap)
    }

    ghost function Value(): Store
      reads this
    {
      Store(file, txMap, order, seqNumber)
    }

    /** Opens a file: the recovery loop, then the truncation. */
    constructor (codec: Codec, content: Bytes)
      ensures Valid() && this.codec == codec && Value() == Recover(codec, content)
    {
      ReaderBounded(codec);
      var st, validOffset := RecoverLoop(ReaderOf(codec), content);
      this.codec := codec;
      file := content[..validOffset];
      txMap, order, seqNumber := st.txMap, st.order, st.seqNumber;
    }

    /** Writes and syncs one frame unless the id is known. */
    method Append(tx: Tx) returns (ok: bool)
      requires Valid()
      modifies this
      ensures Valid() && (Value(), ok) == WalModel.Append(codec, old(Value()), tx)
    {
      if tx.txId in txMap {
        return false;
      }
      var stored := if tx.payloadHash == "" then tx.(payloadHash := ComputeHash(codec, tx)) else tx;
      seqNumber := (seqNumber + 1) % U64;
      file := file + Frame(codec, Rec(seqNumber, stored));
      txMap := txMap[tx.txId := stored];
      order := order + [tx.txId];
      ok := true;
    }

    method ReadAllPending() returns (pending: seq<Tx>)
      requires Valid()
      ensures pending == Pending(txMap, order)
    {
      pending := [];
      for i := 0 to |order|
        invariant pending == Pending(txMap, order[..i])
      {
        assert order[..i + 1] == order[..i] + [order[i]];
        PendingSnoc(txMap, order[..i], order[i]);
        var tx := txMap[order[i]];
        if tx.status == PENDING || tx.status == "" {
          pending := pending + [tx];
        }
      }
      assert order[..|order|] == order;
    }

    method UpdateStatus(txId: string, status: string)
      requires Valid()
      modifies this`txMap
      ensures Valid() && Value() == WalModel.UpdateStatus(old(Value()), txId, status)
    {
      if txId in txMap {
        txMap := txMap[txId := txMap[txId].(status := status)];
      }
    }
  }
}
