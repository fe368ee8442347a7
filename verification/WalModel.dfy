/** The write-ahead log: frames on disk, the in-memory index, recovery and appending. */
module WalModel {
  import opened Sums
  import opened BigEndians
  import opened Queue
  import opened PayloadText

  const MAGIC: Bytes := [0x57, 0x41, 0x4C, 0x31]
  const HEADER := 20
  const U32 := 0x1_0000_0000
  const U64 := 0x1_0000_0000_0000_0000

  /** JSON, CRC-32 and SHA-256 (in hexadecimal), as arbitrary functions. */
  datatype Codec = Codec(encode: Tx -> Bytes, decode: Bytes -> Option<Tx>, crc: Bytes -> nat, sha: string -> string)

  /** The deduplication hash of a transaction: the digest of its text. */
  function ComputeHash(c: Codec, tx: Tx): string {
    c.sha(Raw(tx))
  }

  /** All that is needed of them: decoding inverts encoding, and a checksum has 32 bits. */
  ghost predicate Faithful(c: Codec) {
    && (forall tx :: c.decode(c.encode(tx)) == Some(tx))
    && (forall d :: c.crc(d) < U32)
  }

  datatype Store = Store(file: Bytes, txMap: map<string, Tx>, order: seq<string>, seqNumber: nat)

  const EMPTY := Store([], map[], [], 0)

  /** One record as it was appended: its log sequence number and the transaction. */
  datatype Rec = Rec(seq_: nat, tx: Tx)

  function Frame(c: Codec, r: Rec): (f: Bytes)
    ensures |f| == HEADER + |c.encode(r.tx)|
  {
    var payload := c.encode(r.tx);
    MAGIC + BigEndian(r.seq_, 8) + BigEndian(|payload|, 4) + BigEndian(c.crc(payload), 4) + payload
  }

  /** What one turn of the recovery loop gets from the file: a record and its payload length, or the end. */
  datatype Read = Got(rec: Rec, length: nat) | Stop

  function ReadFrame(c: Codec, file: Bytes, off: nat): Read {
    if off + HEADER > |file| || file[off..off + 4] != MAGIC then Stop
    else
      var length := FromBigEndian(file[off + 12..off + 16]);
      if off + HEADER + length > |file| then Stop
      else
        var payload := file[off + HEADER..off + HEADER + length];
        if c.crc(payload) != FromBigEndian(file[off + 16..off + HEADER]) then Stop
        else
          match c.decode(payload)
          case None => Stop
          case Some(tx) => Got(Rec(FromBigEndian(file[off + 4..off + 12]), tx), length)
  }

  /** Indexing one recovered record. */
  function Load(st: Store, r: Rec): Store {
    Store(st.file, st.txMap[r.tx.txId := r.tx], st.order + [r.tx.txId],
          if r.seq_ > st.seqNumber then r.seq_ else st.seqNumber)
  }

  type Reader = (Bytes, nat) -> Read

  function ReaderOf(c: Codec): Reader {
    (file: Bytes, off: nat) => ReadFrame(c, file, off)
  }

  /** The recovery loop from file position `off`; `valid` is where the file will be cut, computed with a 32-bit sum. */
  function Scan(read: Reader, st: Store, off: nat, valid: nat): (Store, nat)
    decreases |st.file| - off
  {
    if off > |st.file| then (st, valid)
    else
      match read(st.file, off)
      case Stop => (st, valid)
      case Got(r, length) =>
        Scan(read, Load(st, r), off + HEADER + length, off + (HEADER + length) % U32)
  }

  lemma ScanUnfold(read: Reader, st: Store, off: nat, valid: nat, r: Rec, length: nat)
    requires off <= |st.file| && read(st.file, off) == Got(r, length)
    ensures Scan(read, st, off, valid) == Scan(read, Load(st, r), off + HEADER + length, off + (HEADER + length) % U32)
  {
  }

  /** A reader never reports a frame reaching beyond the file. */
  ghost predicate Bounded(read: Reader) {
    forall file: Bytes, off: nat :: read(file, off).Got? ==> off + HEADER + read(file, off).length <= |file|
  }

  lemma {:induction false} ScanWithin(read: Reader, st: Store, off: nat, valid: nat)
    requires valid <= |st.file| && Bounded(read)
    ensures Scan(read, st, off, valid).1 <= |st.file| && Scan(read, st, off, valid).0.file == st.file
    decreases |st.file| - off
  {
    if off <= |st.file| && read(st.file, off).Got? {
      var Got(r, length) := read(st.file, off);
      ScanUnfold(read, st, off, valid, r, length);
      ScanWithin(read, Load(st, r), off + HEADER + length, off + (HEADER + length) % U32);
    }
  }

  /** Opening a file: scan it, keep what was understood, cut off the rest. */
  function Recover(c: Codec, file: Bytes): Store {
    ScanWithin(ReaderOf(c), EMPTY.(file := file), 0, 0);
    var (st, valid) := Scan(ReaderOf(c), EMPTY.(file := file), 0, 0);
    st.(file := file[..valid])
  }

  function Hashed(c: Codec, tx: Tx): Tx {
    if tx.payloadHash == "" then tx.(payloadHash := ComputeHash(c, tx)) else tx
  }

  function NextRec(c: Codec, st: Store, tx: Tx): Rec {
    Rec((st.seqNumber + 1) % U64, Hashed(c, tx))
  }

  /** Append with its fsync: refused on a known id, otherwise one whole frame and one more index entry. */
  function Append(c: Codec, st: Store, tx: Tx): (Store, bool) {
    if tx.txId in st.txMap then (st, false)
    else
      var r := NextRec(c, st, tx);
      (Store(st.file + Frame(c, r), st.txMap[tx.txId := r.tx], st.order + [tx.txId], r.seq_), true)
  }

  function UpdateStatus(st: Store, txId: string, status: string): Store {
    if txId in st.txMap then st.(txMap := st.txMap[txId := st.txMap[txId].(status := status)]) else st
  }

  /** The pending transactions in insertion order. */
  function Pending(txMap: map<string, Tx>, order: seq<string>): seq<Tx> {
    if order == [] then []
    else
      var id := order[|order| - 1];
      Pending(txMap, order[..|order| - 1]) + (if id in txMap && IsPending(txMap[id]) then [txMap[id]] else [])
  }
}
