/** Any number of appends, status changes, crashes and reopenings of one log. */
module WalDurability {
  import opened Sums
  import opened BigEndians
  import opened Queue
  import opened WalModel
  import opened WalScan
  import opened WalRecovery

  /** What can happen to a log. A crash in the middle of an append leaves the first `kept` bytes of its frame. */
  datatype Event =
    | Appended(tx: Tx)
    | Marked(txId: string, status: string)
    | Reopened
    | CrashedAppending(tx: Tx, kept: nat)

  function Torn(c: Codec, r: Rec, kept: nat): Bytes {
    var f := Frame(c, r);
    if kept >= |f| then f else f[..kept]
  }

  function Happens(c: Codec, st: Store, ev: Event): Store {
    match ev
    case Appended(tx) => Append(c, st, tx).0
    case Marked(txId, status) => UpdateStatus(st, txId, status)
    case Reopened => Recover(c, st.file)
    case CrashedAppending(tx, kept) =>
      if tx.txId in st.txMap then Recover(c, st.file)
      else Recover(c, st.file + Torn(c, NextRec(c, st, tx), kept))
  }

  function After(c: Codec, st: Store, evs: seq<Event>): Store
    decreases |evs|
  {
    if evs == [] then st else After(c, Happens(c, st, evs[0]), evs[1..])
  }

  /** The records on disk after an event: an append that was acknowledged, or whose frame was complete when the crash
      came, adds one; nothing takes one away. */
  function Written(c: Codec, st: Store, recs: seq<Rec>, ev: Event): seq<Rec> {
    match ev
    case Appended(tx) => if tx.txId in st.txMap then recs else recs + [NextRec(c, st, tx)]
    case CrashedAppending(tx, kept) =>
      if tx.txId in st.txMap || kept < |Frame(c, NextRec(c, st, tx))| then recs else recs + [NextRec(c, st, tx)]
    case _ => recs
  }

  function WrittenAfter(c: Codec, st: Store, recs: seq<Rec>, evs: seq<Event>): seq<Rec>
    decreases |evs|
  {
    if evs == [] then recs
    else WrittenAfter(c, Happens(c, st, evs[0]), Written(c, st, recs, evs[0]), evs[1..])
  }

  function Ids(recs: seq<Rec>): seq<string> {
    seq(|recs|, i requires 0 <= i < |recs| => recs[i].tx.txId)
  }

  /** Log numbers count up from one, and no transaction id occurs twice. */
  ghost predicate Numbered(recs: seq<Rec>) {
    && (forall i :: 0 <= i < |recs| ==> recs[i].seq_ == i + 1)
    && (forall i, j :: 0 <= i < j < |recs| ==> recs[i].tx.txId != recs[j].tx.txId)
  }

  /** The index holds the record as written, apart from its status, which lives in memory only. */
  ghost predicate Indexed(txMap: map<string, Tx>, r: Rec) {
    r.tx.txId in txMap && txMap[r.tx.txId].(status := r.tx.status) == r.tx
  }

  /** Disk, index, order and counter all tell the same story. */
  ghost predicate Mirrors(c: Codec, st: Store, recs: seq<Rec>) {
    && AllFit(c, recs) && Numbered(recs)
    && st.file == FileOf(c, recs)
    && st.order == Ids(recs)
    && st.seqNumber == |recs|
    && AllIndexed(st.txMap, recs)
    && (forall id :: id in st.txMap ==> id in st.order)
  }

  lemma {:induction false} ConcatSnoc(frames: seq<Bytes>, f: Bytes)
    ensures Concat(frames + [f]) == Concat(frames) + f
  {
    if frames == [] {
      assert frames + [f] == [f] && [f][1..] == [];
      assert Concat([f]) == f + [];
    } else {
      assert (frames + [f])[1..] == frames[1..] + [f];
      ConcatSnoc(frames[1..], f);
    }
  }

  lemma FileSnoc(c: Codec, recs: seq<Rec>, r: Rec)
    ensures FileOf(c, recs + [r]) == FileOf(c, recs) + Frame(c, r)
  {
    assert Frames(c, recs + [r]) == Frames(c, recs) + [Frame(c, r)];
    ConcatSnoc(Frames(c, recs), Frame(c, r));
  }

  lemma {:induction false} LoadSnoc(st: Store, recs: seq<Rec>, r: Rec)
    ensures LoadAll(st, recs + [r]) == Load(LoadAll(st, recs), r)
    decreases |recs|
  {
    if recs == [] {
      assert (recs + [r])[1..] == [];
    } else {
      assert (recs + [r])[1..] == recs[1..] + [r];
      LoadSnoc(Load(st, recs[0]), recs[1..], r);
    }
  }

  lemma NumberedPrefix(recs: seq<Rec>, k: nat)
    requires Numbered(recs) && k <= |recs|
    ensures Numbered(recs[..k])
  {
  }

  lemma NumberedSnoc(recs: seq<Rec>, r: Rec)
    requires Numbered(recs) && r.seq_ == |recs| + 1 && r.tx.txId !in Ids(recs)
    ensures Numbered(recs + [r])
  {
    forall i | 0 <= i < |recs| ensures recs[i].tx.txId != r.tx.txId {
      assert Ids(recs)[i] == recs[i].tx.txId;
    }
  }

  lemma IdsSnoc(recs: seq<Rec>, r: Rec)
    ensures Ids(recs + [r]) == Ids(recs) + [r.tx.txId]
  {
  }

  ghost predicate AllIndexed(txMap: map<string, Tx>, recs: seq<Rec>) {
    forall i :: 0 <= i < |recs| ==> Indexed(txMap, recs[i])
  }

  lemma IndexedSnoc(txMap: map<string, Tx>, recs: seq<Rec>, r: Rec)
    requires AllIndexed(txMap, recs) && r.tx.txId !in txMap
    ensures AllIndexed(txMap[r.tx.txId := r.tx], recs + [r])
    ensures r.tx.txId !in Ids(recs)
  {
    var all := recs + [r];
    forall i | 0 <= i < |all| ensures Indexed(txMap[r.tx.txId := r.tx], all[i]) {
      if i < |recs| { assert Indexed(txMap, recs[i]); }
    }
    forall i | 0 <= i < |recs| ensures Ids(recs)[i] != r.tx.txId {
      assert Indexed(txMap, recs[i]);
    }
  }

  lemma FitSnoc(c: Codec, recs: seq<Rec>, r: Rec)
    requires AllFit(c, recs) && Fits(c, r)
    ensures AllFit(c, recs + [r])
  {
  }

  /** One more record with the next number and a new id keeps everything in step. */
  lemma MirrorsSnoc(c: Codec, st: Store, recs: seq<Rec>, r: Rec)
    requires Mirrors(c, st, recs) && Fits(c, r) && r.seq_ == |recs| + 1 && r.tx.txId !in st.txMap
    ensures Mirrors(c, Store(FileOf(c, recs + [r]), st.txMap[r.tx.txId := r.tx], st.order + [r.tx.txId], |recs| + 1),
                    recs + [r])
  {
    IndexedSnoc(st.txMap, recs, r);
    NumberedSnoc(recs, r);
    IdsSnoc(recs, r);
    FitSnoc(c, recs, r);
  }

  /** Loading the records into an empty index mirrors them. */
  lemma {:induction false} LoadedMirrors(c: Codec, recs: seq<Rec>)
    requires AllFit(c, recs) && Numbered(recs)
    ensures Mirrors(c, LoadAll(EMPTY, recs).(file := FileOf(c, recs)), recs)
    decreases |recs|
  {
    if recs != [] {
      var k := |recs| - 1;
      var init, r := recs[..k], recs[k];
      assert recs == init + [r];
      NumberedPrefix(recs, k);
      LoadedMirrors(c, init);
      LoadSnoc(EMPTY, init, r);
      var st := LoadAll(EMPTY, init).(file := FileOf(c, init));
      IdsDistinct(recs);
      assert st.order == Ids(init);
      MirrorsSnoc(c, st, init, r);
    }
  }

  lemma IdsDistinct(recs: seq<Rec>)
    requires Numbered(recs) && recs != []
    ensures recs[|recs| - 1].tx.txId !in Ids(recs[..|recs| - 1])
  {
  }

  lemma ReopenMirrors(c: Codec, recs: seq<Rec>, torn: Bytes)
    requires Faithful(c) && AllFit(c, recs) && Numbered(recs) && Ends(ReaderOf(c), torn)
    ensures Mirrors(c, Recover(c, FileOf(c, recs) + torn), recs)
  {
    RecoverFrames(c, recs, torn);
    LoadedMirrors(c, recs);
  }

  /** The transaction is small enough to be logged. */
  ghost predicate Loggable(c: Codec, ev: Event) {
    ev.Appended? || ev.CrashedAppending? ==> |c.encode(Hashed(c, ev.tx))| < U32 - HEADER
  }

  lemma NextFits(c: Codec, st: Store, tx: Tx)
    requires st.seqNumber + 1 < U64 && Loggable(c, Appended(tx))
    ensures var r := NextRec(c, st, tx); r.seq_ == st.seqNumber + 1 && Fits(c, r) && r.tx.txId == tx.txId
  {
  }

  lemma AppendMirrors(c: Codec, st: Store, recs: seq<Rec>, tx: Tx)
    requires Mirrors(c, st, recs) && Loggable(c, Appended(tx)) && |recs| + 1 < U64
    ensures Mirrors(c, Append(c, st, tx).0, Written(c, st, recs, Appended(tx)))
  {
    if tx.txId !in st.txMap {
      var r := NextRec(c, st, tx);
      NextFits(c, st, tx);
      FileSnoc(c, recs, r);
      MirrorsSnoc(c, st, recs, r);
    }
  }

  lemma MarkMirrors(c: Codec, st: Store, recs: seq<Rec>, txId: string, status: string)
    requires Mirrors(c, st, recs)
    ensures Mirrors(c, UpdateStatus(st, txId, status), recs)
  {
    var st' := UpdateStatus(st, txId, status);
    forall i | 0 <= i < |recs| ensures Indexed(st'.txMap, recs[i]) {
      assert Indexed(st.txMap, recs[i]);
    }
  }

  lemma CrashMirrors(c: Codec, st: Store, recs: seq<Rec>, tx: Tx, kept: nat)
    requires Faithful(c) && Mirrors(c, st, recs) && Loggable(c, CrashedAppending(tx, kept)) && |recs| + 1 < U64
    ensures var ev := CrashedAppending(tx, kept);
            Mirrors(c, Happens(c, st, ev), Written(c, st, recs, ev))
  {
    var r := NextRec(c, st, tx);
    if tx.txId in st.txMap {
      NothingEnds(c);
      assert st.file + [] == st.file;
      ReopenMirrors(c, recs, []);
    } else if kept < |Frame(c, r)| {
      TornEnds(c, r, kept);
      ReopenMirrors(c, recs, Torn(c, r, kept));
    } else {
      AppendMirrors(c, st, recs, tx);
      NothingEnds(c);
      FileSnoc(c, recs, r);
      assert FileOf(c, recs + [r]) + [] == FileOf(c, recs + [r]);
      ReopenMirrors(c, recs + [r], []);
    }
  }

  lemma EventMirrors(c: Codec, st: Store, recs: seq<Rec>, ev: Event)
    requires Faithful(c) && Mirrors(c, st, recs) && Loggable(c, ev) && |recs| + 1 < U64
    ensures Mirrors(c, Happens(c, st, ev), Written(c, st, recs, ev))
    ensures recs <= Written(c, st, recs, ev) && |Written(c, st, recs, ev)| <= |recs| + 1
  {
    match ev
    case Appended(tx) => AppendMirrors(c, st, recs, tx);
    case Marked(txId, status) => MarkMirrors(c, st, recs, txId, status);
    case Reopened =>
      NothingEnds(c);
      assert st.file + [] == st.file;
      ReopenMirrors(c, recs, []);
    case CrashedAppending(tx, kept) => CrashMirrors(c, st, recs, tx, kept);
  }

  /** Through any number of appends, status changes, crashes and reopenings, nothing once written is ever lost or
      reordered, the index always agrees with the disk, log numbers stay consecutive and ids distinct. */
  lemma {:induction false} Durable(c: Codec, st: Store, recs: seq<Rec>, evs: seq<Event>)
    requires Faithful(c) && Mirrors(c, st, recs) && |recs| + |evs| < U64
    requires forall i :: 0 <= i < |evs| ==> Loggable(c, evs[i])
    ensures Mirrors(c, After(c, st, evs), WrittenAfter(c, st, recs, evs))
    ensures recs <= WrittenAfter(c, st, recs, evs)
    decreases |evs|
  {
    if evs != [] {
      assert Loggable(c, evs[0]);
      EventMirrors(c, st, recs, evs[0]);
      Durable(c, Happens(c, st, evs[0]), Written(c, st, recs, evs[0]), evs[1..]);
    }
  }

  /** An acknowledged append is still in the log and the index after anything that may happen later. */
  lemma AcknowledgedSurvives(c: Codec, st: Store, recs: seq<Rec>, tx: Tx, evs: seq<Event>)
    requires Faithful(c) && Mirrors(c, st, recs) && |recs| + 1 + |evs| < U64
    requires Append(c, st, tx).1 && Loggable(c, Appended(tx))
    requires forall i :: 0 <= i < |evs| ==> Loggable(c, evs[i])
    ensures var end := After(c, Append(c, st, tx).0, evs);
            Indexed(end.txMap, NextRec(c, st, tx)) && tx.txId in end.order
  {
    var st1, recs1 := Append(c, st, tx).0, recs + [NextRec(c, st, tx)];
    AppendMirrors(c, st, recs, tx);
    Durable(c, st1, recs1, evs);
    var end, all := After(c, st1, evs), WrittenAfter(c, st1, recs1, evs);
    assert all[|recs|] == recs1[|recs|];
    assert Indexed(end.txMap, all[|recs|]);
    assert end.order[|recs|] == tx.txId;
  }

  /** The same bytes read at the same place in a shorter file that still contains the frame. */
  lemma ReadInPrefix(c: Codec, file: Bytes, off: nat, v: nat)
    requires ReadFrame(c, file, off).Got? && off + HEADER + ReadFrame(c, file, off).length <= v <= |file|
    ensures ReadFrame(c, file[..v], off) == ReadFrame(c, file, off)
  {
    var length := ReadFrame(c, file, off).length;
    PrefixSlice(file, v, off, off + 4);
    PrefixSlice(file, v, off + 4, off + 12);
    PrefixSlice(file, v, off + 12, off + 16);
    PrefixSlice(file, v, off + 16, off + HEADER);
    PrefixSlice(file, v, off + HEADER, off + HEADER + length);
  }

  lemma ReaderLocal(c: Codec)
    ensures Local(ReaderOf(c))
  {
    forall file: Bytes, off: nat, v: nat | Contained(ReaderOf(c), file, off, v)
      ensures ReaderOf(c)(file[..v], off) == ReaderOf(c)(file, off)
    {
      ReadInPrefix(c, file, off, v);
    }
  }

  lemma PrefixSlice(file: Bytes, v: nat, i: nat, j: nat)
    requires i <= j <= v <= |file|
    ensures file[..v][i..j] == file[i..j]
  {
  }

  /** Four bytes are a number below 2^32. */
  lemma ReadsShort(c: Codec, file: Bytes)
    requires AreBytes(file)
    ensures Short(ReaderOf(c), file)
  {
    forall off: nat | ReaderOf(c)(file, off).Got? ensures ReaderOf(c)(file, off).length < U32 {
      BytesRoundTrip(file[off + 12..off + 16]);
      Powers();
    }
  }

  lemma RecoverUnfold(c: Codec, file: Bytes)
    ensures var (st, v) := Scan(ReaderOf(c), EMPTY.(file := file), 0, 0);
            v <= |file| && Recover(c, file) == st.(file := file[..v])
  {
    ReaderLocal(c);
    ScanWithin(ReaderOf(c), EMPTY.(file := file), 0, 0);
  }

  /** Recovery of any file of bytes, however damaged and however long, is idempotent if and only if the last frame it
      reads is shorter than 2^32 bytes. */
  lemma RecoveryIdempotent(c: Codec, file: Bytes)
    requires AreBytes(file)
    ensures Bounded(ReaderOf(c))
    ensures Recover(c, Recover(c, file).file) == Recover(c, file) <==> !LastOversize(ReaderOf(c), file, 0)
  {
    var start := EMPTY.(file := file);
    ReaderLocal(c);
    RecoverUnfold(c, file);
    if LastOversize(ReaderOf(c), file, 0) {
      ReadsShort(c, file);
      var v := ScanDrops(ReaderOf(c), start, 0, 0);
      assert start.(file := file[..v]) == EMPTY.(file := file[..v]);
      RecoverUnfold(c, file[..v]);
    } else {
      var v := ScanStable(ReaderOf(c), start, 0, 0);
      assert start.(file := file[..v]) == EMPTY.(file := file[..v]);
      RecoverUnfold(c, file[..v]);
      assert file[..v][..v] == file[..v];
    }
  }

  lemma ReadsWhole(c: Codec, r: Rec, file: Bytes, off: nat)
    requires Faithful(c) && Framable(c, r) && off <= |file| && file[off..] == Frame(c, r)
    ensures ReaderOf(c)(file, off) == Got(r, |Frame(c, r)| - HEADER) && |Frame(c, r)| >= HEADER
  {
    FrameNumbers(c, r);
    assert Stands(file, off, Frame(c, r));
    ReadWhole(c, Frame(c, r), c.encode(r.tx), r, file, off);
  }

  lemma ScanAtEnd(read: Reader, st: Store, valid: nat)
    requires read(st.file, |st.file|) == Stop
    ensures Scan(read, st, |st.file|, valid) == (st, valid)
  {
  }

  /** The last turn of a scan over a frame that reaches the end of the file. */
  lemma ScanLast(c: Codec, st: Store, off: nat, r: Rec)
    requires Faithful(c) && Framable(c, r) && off <= |st.file| && st.file[off..] == Frame(c, r)
    ensures Scan(ReaderOf(c), st, off, off) == (Load(st, r), off + |Frame(c, r)| % U32)
  {
    var n := |Frame(c, r)| - HEADER;
    ReadsWhole(c, r, st.file, off);
    ScanUnfold(ReaderOf(c), st, off, off, r, n);
    ScanAtEnd(ReaderOf(c), Load(st, r), off + (HEADER + n) % U32);
  }

  /** Whole frames, then one that reaches the end of the file. */
  lemma FramesThenLast(c: Codec, st: Store, frames: seq<Bytes>, recs: seq<Rec>, r: Rec)
    requires Faithful(c) && Framable(c, r) && AllReadable(ReaderOf(c), frames, recs)
             && st.file == Concat(frames) + Frame(c, r)
    ensures Scan(ReaderOf(c), st, 0, 0).1 == |Concat(frames)| + |Frame(c, r)| % U32
  {
    assert st.file[0..] == st.file;
    ScanFrames(ReaderOf(c), st, 0, frames, recs, Frame(c, r));
    LoadKeepsFile(st, recs);
    ScanLast(c, LoadAll(st, recs), |Concat(frames)|, r);
  }

  lemma OversizeScan(c: Codec, recs: seq<Rec>, r: Rec)
    requires Faithful(c) && AllFit(c, recs) && Framable(c, r)
    ensures Scan(ReaderOf(c), EMPTY.(file := FileOf(c, recs + [r])), 0, 0).1 == |FileOf(c, recs)| + |Frame(c, r)| % U32
  {
    FileSnoc(c, recs, r);
    FramesReadable(c, recs);
    FramesThenLast(c, EMPTY.(file := FileOf(c, recs + [r])), Frames(c, recs), recs, r);
  }

  lemma CutInside(whole: Bytes, f: Bytes, k: nat)
    requires k <= |f|
    ensures (whole + f)[..|whole| + k] == whole + f[..k]
  {
  }

  /** Recovering a log whose last record is too long: it is indexed, but the cut computed in 32 bits falls
      inside its header. */
  lemma OversizeCut(c: Codec, recs: seq<Rec>, r: Rec) returns (kept: nat)
    requires Faithful(c) && AllFit(c, recs) && Framable(c, r) && !Fits(c, r)
    ensures kept < HEADER <= |Frame(c, r)|
    ensures Recover(c, FileOf(c, recs + [r])).file == FileOf(c, recs) + Frame(c, r)[..kept]
  {
    FrameFields(c, r);
    kept := |Frame(c, r)| - U32;
    Wraps(|Frame(c, r)|);
    OversizeScan(c, recs, r);
    FileSnoc(c, recs, r);
    CutInside(FileOf(c, recs), Frame(c, r), kept);
  }

  /** Whether the log still holds all records after two reopenings. */
  ghost predicate SurvivesTwice(c: Codec, recs: seq<Rec>) {
    Recover(c, Recover(c, FileOf(c, recs)).file).order == Ids(recs)
  }

  lemma {:induction false} LoadedOrder(st: Store, recs: seq<Rec>)
    ensures LoadAll(st, recs).order == st.order + Ids(recs)
    decreases |recs|
  {
    if recs != [] {
      LoadedOrder(Load(st, recs[0]), recs[1..]);
      assert Ids(recs) == [recs[0].tx.txId] + Ids(recs[1..]);
    }
  }

  lemma HeaderEnds(c: Codec, torn: Bytes)
    requires |torn| < HEADER
    ensures Ends(ReaderOf(c), torn)
  {
  }

  /** No proper prefix of an encoding decodes, as for any JSON object. */
  ghost predicate PrefixFree(c: Codec) {
    forall tx: Tx, k: nat :: k < |c.encode(tx)| ==> c.decode(c.encode(tx)[..k]) == None
  }

  /** A payload of 2^32 bytes or more announces a length that leaves part of it out, and what is left does not
      decode. */
  lemma HugeEnds(c: Codec, r: Rec)
    requires PrefixFree(c) && |c.encode(r.tx)| >= U32
    ensures Ends(ReaderOf(c), Frame(c, r))
  {
    var f, p := Frame(c, r), c.encode(r.tx);
    FrameFields(c, r);
    var n := FromBigEndian(f[12..16]);
    EncodedBytes(|p|, 4);
    BytesRoundTrip(BigEndian(|p|, 4));
    Powers();
    assert p[..n] == f[HEADER..HEADER + n];
    forall file: Bytes, off: nat | Stands(file, off, f) && off + |f| == |file| ensures ReaderOf(c)(file, off) == Stop {
      StandsSlice(file, off, f, 12, 16);
      StandsSlice(file, off, f, HEADER, HEADER + n);
    }
  }

  /** Bytes that end the scan are gone after two reopenings. */
  lemma Unread(c: Codec, recs: seq<Rec>, torn: Bytes)
    requires Faithful(c) && AllFit(c, recs) && Ends(ReaderOf(c), torn)
    ensures Recover(c, Recover(c, FileOf(c, recs) + torn).file).order == Ids(recs)
  {
    NothingEnds(c);
    RecoverFrames(c, recs, torn);
    assert FileOf(c, recs) + [] == FileOf(c, recs);
    RecoverFrames(c, recs, []);
    LoadedOrder(EMPTY, recs);
  }

  /** A record appended to a sound log survives repeated reopening exactly when its payload is shorter than
      2^32 - 20 bytes, the largest length the 32-bit offset arithmetic of recovery can carry. */
  lemma DurableExactly(c: Codec, recs: seq<Rec>, r: Rec)
    requires Faithful(c) && AllFit(c, recs) && r.seq_ < U64 && (|c.encode(r.tx)| < U32 || PrefixFree(c))
    ensures SurvivesTwice(c, recs + [r]) <==> |c.encode(r.tx)| < U32 - HEADER
  {
    assert |Ids(recs)| != |Ids(recs + [r])|;
    if Fits(c, r) {
      NothingEnds(c);
      assert FileOf(c, recs + [r]) + [] == FileOf(c, recs + [r]);
      FitSnoc(c, recs, r);
      Unread(c, recs + [r], []);
    } else if Framable(c, r) {
      var kept := OversizeCut(c, recs, r);
      HeaderEnds(c, Frame(c, r)[..kept]);
      RecoverFrames(c, recs, Frame(c, r)[..kept]);
      LoadedOrder(EMPTY, recs);
    } else {
      HugeEnds(c, r);
      FileSnoc(c, recs, r);
      Unread(c, recs, Frame(c, r));
    }
  }
}
