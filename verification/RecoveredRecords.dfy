/** What recovery takes for a record, byte by byte, and what it does with damaged ones. */
module RecoveredRecords {
  import opened Sums
  import opened BigEndians
  import opened Queue
  import opened WalModel
  import opened PayloadText
  import opened WalScan
  import opened WalRecovery
  import opened WalDurability

  /** Four bytes as a number, the most significant one first. */
  function Word(file: Bytes, i: nat): nat
    requires i + 4 <= |file|
  {
    file[i] * 0x100_0000 + file[i + 1] * 0x1_0000 + file[i + 2] * 0x100 + file[i + 3]
  }

  lemma WordIs(file: Bytes, i: nat)
    requires i + 4 <= |file|
    ensures FromBigEndian(file[i..i + 4]) == Word(file, i)
  {
    var d := file[i..i + 4];
    assert d[..3][..2][..1] == [file[i]] && d[..3][..2] == [file[i], file[i + 1]];
    assert d[..3] == [file[i], file[i + 1], file[i + 2]];
    assert FromBigEndian(d[..3][..2][..1]) == file[i];
    assert FromBigEndian(d[..3][..2]) == file[i] * 256 + file[i + 1];
    assert FromBigEndian(d[..3]) == (file[i] * 256 + file[i + 1]) * 256 + file[i + 2];
  }

  lemma {:induction false} ConcatNumber(d: Bytes, e: Bytes)
    ensures FromBigEndian(d + e) == FromBigEndian(d) * Pow256(|e|) + FromBigEndian(e)
    decreases |e|
  {
    if e == [] {
      assert d + e == d;
    } else {
      var k := |e| - 1;
      assert (d + e)[..|d + e| - 1] == d + e[..k];
      ConcatNumber(d, e[..k]);
    }
  }

  lemma LongWordIs(file: Bytes, i: nat)
    requires i + 8 <= |file|
    ensures FromBigEndian(file[i..i + 8]) == Word(file, i) * U32 + Word(file, i + 4)
  {
    assert file[i..i + 8] == file[i..i + 4] + file[i + 4..i + 8];
    ConcatNumber(file[i..i + 4], file[i + 4..i + 8]);
    WordIs(file, i);
    WordIs(file, i + 4);
    Powers();
  }

  /** A record stands in the file: the letters WAL1, an 8-byte number, a 4-byte length, a 4-byte checksum, and a
      payload of that length with that checksum that decodes to the transaction. */
  ghost predicate RecordAt(c: Codec, file: Bytes, off: nat, r: Rec) {
    && off + 20 <= |file| && file[off..off + 4] == [0x57, 0x41, 0x4C, 0x31]
    && r.seq_ == Word(file, off + 4) * U32 + Word(file, off + 8)
    && off + 20 + Word(file, off + 12) <= |file|
    && var payload := file[off + 20..off + 20 + Word(file, off + 12)];
       c.crc(payload) == Word(file, off + 16) && c.decode(payload) == Some(r.tx)
  }

  /** Recovery reads a record at a place if and only if one stands there. */
  lemma ReadExactly(c: Codec, file: Bytes, off: nat, r: Rec)
    ensures ReadFrame(c, file, off).Got? && ReadFrame(c, file, off).rec == r <==> RecordAt(c, file, off, r)
    ensures RecordAt(c, file, off, r) ==> ReadFrame(c, file, off).length == Word(file, off + 12)
  {
    if off + 20 <= |file| {
      LongWordIs(file, off + 4);
      WordIs(file, off + 12);
      WordIs(file, off + 16);
    }
  }

  /** Records that stand in the file one right behind the other, from `off` to `end`. */
  ghost predicate Chain(c: Codec, file: Bytes, off: nat, recs: seq<Rec>, end: nat)
    decreases |recs|
  {
    if recs == [] then off == end
    else RecordAt(c, file, off, recs[0]) && Chain(c, file, off + 20 + Word(file, off + 12), recs[1..], end)
  }

  lemma LoadCons(st: Store, r: Rec, rest: seq<Rec>)
    ensures LoadAll(st, [r] + rest) == LoadAll(Load(st, r), rest)
  {
    assert ([r] + rest)[1..] == rest;
  }

  lemma NothingStands(c: Codec, file: Bytes, off: nat)
    requires ReadFrame(c, file, off) == Stop
    ensures forall r: Rec :: !RecordAt(c, file, off, r)
  {
    forall r: Rec ensures !RecordAt(c, file, off, r) { ReadExactly(c, file, off, r); }
  }

  /** What a reader gets from the file, one right behind the other. */
  ghost predicate ReadChain(read: Reader, file: Bytes, off: nat, recs: seq<Rec>, end: nat)
    decreases |recs|
  {
    if recs == [] then off == end
    else read(file, off).Got? && read(file, off).rec == recs[0]
         && ReadChain(read, file, off + HEADER + read(file, off).length, recs[1..], end)
  }

  lemma ReadChainCons(read: Reader, file: Bytes, off: nat, rest: seq<Rec>, end: nat)
    requires read(file, off).Got? && ReadChain(read, file, off + HEADER + read(file, off).length, rest, end)
    ensures ReadChain(read, file, off, [read(file, off).rec] + rest, end)
  {
    assert ([read(file, off).rec] + rest)[1..] == rest;
  }

  /** The scan loads exactly what its reader gets, until it gets nothing. */
  lemma {:induction false} ScanReads(read: Reader, st: Store, off: nat, valid: nat) returns (recs: seq<Rec>, end: nat)
    requires Bounded(read) && off <= |st.file|
    ensures ReadChain(read, st.file, off, recs, end) && end <= |st.file| && read(st.file, end) == Stop
    ensures Scan(read, st, off, valid).0 == LoadAll(st, recs)
    ensures |st.file| < U32 && valid == off ==> Scan(read, st, off, valid).1 == end
    decreases |st.file| - off
  {
    if read(st.file, off) == Stop {
      recs, end := [], off;
    } else {
      var Got(r, n) := read(st.file, off);
      ScanUnfold(read, st, off, valid, r, n);
      var rest;
      rest, end := ScanReads(read, Load(st, r), off + HEADER + n, off + (HEADER + n) % U32);
      recs := [r] + rest;
      ReadChainCons(read, st.file, off, rest, end);
      LoadCons(st, r, rest);
    }
  }

  lemma {:induction false} ReadChainStands(c: Codec, file: Bytes, off: nat, recs: seq<Rec>, end: nat)
    requires ReadChain(ReaderOf(c), file, off, recs, end)
    ensures Chain(c, file, off, recs, end)
    decreases |recs|
  {
    if recs != [] {
      ReadExactly(c, file, off, recs[0]);
      ReadChainStands(c, file, off + HEADER + ReadFrame(c, file, off).length, recs[1..], end);
    }
  }

  /** The entry of each id is the last record of that id. */
  ghost predicate LastOf(recs: seq<Rec>, tx: Tx) {
    exists i :: 0 <= i < |recs| && recs[i].tx == tx && forall j :: i < j < |recs| ==> recs[j].tx.txId != tx.txId
  }

  lemma LastSnoc(recs: seq<Rec>, r: Rec, tx: Tx)
    requires tx == r.tx || (tx.txId != r.tx.txId && LastOf(recs, tx))
    ensures LastOf(recs + [r], tx)
  {
    var all := recs + [r];
    if tx == r.tx {
      assert all[|recs|].tx == tx;
    } else {
      var i :| 0 <= i < |recs| && recs[i].tx == tx && forall j :: i < j < |recs| ==> recs[j].tx.txId != tx.txId;
      assert all[i].tx == tx;
    }
  }

  lemma {:induction false} LoadedLast(recs: seq<Rec>, id: string)
    ensures var m := LoadAll(EMPTY, recs).txMap;
            && (id in m <==> id in Ids(recs))
            && (id in m ==> m[id].txId == id && LastOf(recs, m[id]))
    decreases |recs|
  {
    if recs != [] {
      var k := |recs| - 1;
      assert recs == recs[..k] + [recs[k]];
      LoadSnoc(EMPTY, recs[..k], recs[k]);
      LoadedLast(recs[..k], id);
      IdsSnoc(recs[..k], recs[k]);
      var m := LoadAll(EMPTY, recs).txMap;
      if id in m { LastSnoc(recs[..k], recs[k], m[id]); }
    }
  }

  /** The number is the highest of the records', or zero. */
  ghost predicate Highest(recs: seq<Rec>, m: nat) {
    (forall i :: 0 <= i < |recs| ==> recs[i].seq_ <= m) && (m == 0 || exists i :: 0 <= i < |recs| && recs[i].seq_ == m)
  }

  lemma {:induction false} LoadedHighest(recs: seq<Rec>)
    ensures Highest(recs, LoadAll(EMPTY, recs).seqNumber)
    decreases |recs|
  {
    if recs != [] {
      var k := |recs| - 1;
      var init, m := recs[..k], LoadAll(EMPTY, recs[..k]).seqNumber;
      assert recs == init + [recs[k]];
      LoadSnoc(EMPTY, init, recs[k]);
      LoadedHighest(init);
      if recs[k].seq_ <= m && m != 0 {
        var i :| 0 <= i < |init| && init[i].seq_ == m;
        assert recs[i].seq_ == m;
      }
    }
  }

  lemma LoadIgnored(file: Bytes, recs: seq<Rec>)
    ensures LoadAll(EMPTY.(file := file), recs).order == Ids(recs)
    ensures LoadAll(EMPTY.(file := file), recs).txMap == LoadAll(EMPTY, recs).txMap
    ensures Highest(recs, LoadAll(EMPTY.(file := file), recs).seqNumber)
  {
    LoadIgnoresFile(EMPTY, recs, file);
    LoadedOrderOf(recs);
    LoadedHighest(recs);
  }

  lemma LoadedOrderOf(recs: seq<Rec>)
    ensures LoadAll(EMPTY, recs).order == Ids(recs)
  {
    LoadedOrder(EMPTY, recs);
    assert [] + Ids(recs) == Ids(recs);
  }

  /** Recovery of any file whatsoever: it lists exactly the records that stand in it one right behind the other from its
      beginning, up to the first place where none stands, where a file shorter than 2^32 bytes is cut. Every entry is
      the last record of its id, and the counter is the highest number. */
  lemma RecoversExactly(c: Codec, file: Bytes) returns (recs: seq<Rec>, end: nat)
    ensures Chain(c, file, 0, recs, end) && (forall r: Rec :: !RecordAt(c, file, end, r))
    ensures Recover(c, file).order == Ids(recs)
    ensures forall id :: id in Recover(c, file).txMap <==> id in Ids(recs)
    ensures forall id :: id in Recover(c, file).txMap ==> LastOf(recs, Recover(c, file).txMap[id])
    ensures Highest(recs, Recover(c, file).seqNumber)
    ensures end <= |file| && (|file| < U32 ==> Recover(c, file).file == file[..end])
  {
    ReaderLocal(c);
    recs, end := ScanReads(ReaderOf(c), EMPTY.(file := file), 0, 0);
    ReadChainStands(c, file, 0, recs, end);
    NothingStands(c, file, end);
    RecoverUnfold(c, file);
    LoadIgnored(file, recs);
    forall id
      ensures id in Recover(c, file).txMap <==> id in Ids(recs)
      ensures id in Recover(c, file).txMap ==> LastOf(recs, Recover(c, file).txMap[id])
    {
      LoadedLast(recs, id);
    }
  }

  /** A transaction with its digest, computed if it came without. */
  function Digested(c: Codec, tx: Tx): Tx {
    tx.(payloadHash := if tx.payloadHash == "" then c.sha(Raw(tx)) else tx.payloadHash)
  }

  /** What is appended, under an id that is new, stands in the file behind everything that was there, with its digest
      and the next number, and is indexed so. */
  lemma AppendedStands(c: Codec, st: Store, tx: Tx)
    requires Faithful(c) && tx.txId !in st.txMap && |c.encode(Digested(c, tx))| < U32
    ensures var (e, ok) := Append(c, st, tx);
            var next := (st.seqNumber + 1) % 0x1_0000_0000_0000_0000;
            && ok && e.txMap == st.txMap[tx.txId := Digested(c, tx)] && e.order == st.order + [tx.txId]
            && e.seqNumber == next
            && |e.file| == |st.file| + 20 + |c.encode(Digested(c, tx))| && e.file[..|st.file|] == st.file
            && RecordAt(c, e.file, |st.file|, Rec(next, Digested(c, tx)))
  {
    var r := NextRec(c, st, tx);
    var e := Append(c, st, tx).0;
    FrameFields(c, r);
    assert e.file[|st.file|..] == Frame(c, r);
    ReadsWhole(c, r, e.file, |st.file|);
    ReadExactly(c, e.file, |st.file|, r);
  }

  /** A frame of which only the payload was changed. */
  function Damaged(c: Codec, r: Rec, payload: Bytes): Bytes {
    Frame(c, r)[..HEADER] + payload
  }

  /** A frame whose payload has another checksum than its header says stops the scan, whatever follows it. */
  lemma DamagedEnds(c: Codec, r: Rec, payload: Bytes, rest: Bytes)
    requires Faithful(c) && Framable(c, r)
    requires |payload| == |c.encode(r.tx)| && c.crc(payload) != c.crc(c.encode(r.tx))
    ensures Ends(ReaderOf(c), Damaged(c, r, payload) + rest)
  {
    FrameNumbers(c, r);
    var f, d := Frame(c, r), Damaged(c, r, payload) + rest;
    assert d[12..16] == f[12..16] && d[16..HEADER] == f[16..HEADER] && d[HEADER..HEADER + |payload|] == payload;
    forall file: Bytes, off: nat | Stands(file, off, d) && off + |d| == |file| ensures ReaderOf(c)(file, off) == Stop {
      StandsSlice(file, off, d, 12, 16);
      StandsSlice(file, off, d, 16, HEADER);
      StandsSlice(file, off, d, HEADER, HEADER + |payload|);
    }
  }

  /** Damage to the payload of one record of a sound log that its checksum notices: recovery restores exactly the
      records before it and truncates the file there; nothing of the damaged record or of those behind it is indexed. */
  lemma DamageRecovery(c: Codec, recs: seq<Rec>, k: nat, payload: Bytes)
    requires Faithful(c) && AllFit(c, recs) && k < |recs|
    requires |payload| == |c.encode(recs[k].tx)| && c.crc(payload) != c.crc(c.encode(recs[k].tx))
    ensures var file := FileOf(c, recs[..k]) + (Damaged(c, recs[k], payload) + FileOf(c, recs[k + 1..]));
            Recover(c, file) == LoadAll(EMPTY, recs[..k]).(file := FileOf(c, recs[..k]))
  {
    assert Fits(c, recs[k]);
    DamagedEnds(c, recs[k], payload, FileOf(c, recs[k + 1..]));
    RecoverFrames(c, recs[..k], Damaged(c, recs[k], payload) + FileOf(c, recs[k + 1..]));
  }
}
