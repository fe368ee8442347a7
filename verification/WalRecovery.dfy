/** Crash recovery of the log: what survives a cut at any byte, and what survives any number of crashes. */
module WalRecovery {
  import opened Sums
  import opened BigEndians
  import opened WalModel
  import opened WalScan

  /** A record whose numbers fit their header fields. */
  predicate Framable(c: Codec, r: Rec) {
    |c.encode(r.tx)| < U32 && r.seq_ < U64
  }

  /** A record the 32-bit length arithmetic of recovery can handle. */
  predicate Fits(c: Codec, r: Rec) {
    |c.encode(r.tx)| < U32 - HEADER && r.seq_ < U64
  }

  ghost predicate AllFit(c: Codec, recs: seq<Rec>) {
    forall i :: 0 <= i < |recs| ==> Fits(c, recs[i])
  }

  function Frames(c: Codec, recs: seq<Rec>): seq<Bytes> {
    seq(|recs|, i requires 0 <= i < |recs| => Frame(c, recs[i]))
  }

  function FileOf(c: Codec, recs: seq<Rec>): Bytes {
    Concat(Frames(c, recs))
  }

  lemma Powers()
    ensures Pow256(4) == U32 && Pow256(8) == U64
  {
    assert Pow256(2) == 256 * 256;
    assert Pow256(4) == 256 * 256 * Pow256(2);
    assert Pow256(6) == 256 * 256 * Pow256(4);
    assert Pow256(8) == 256 * 256 * Pow256(6);
  }

  lemma FrameParts(m: Bytes, a: Bytes, b: Bytes, d: Bytes, p: Bytes)
    requires |m| == 4 && |a| == 8 && |b| == 4 && |d| == 4
    ensures var f := m + a + b + d + p;
            && |f| == 20 + |p|
            && f[..4] == m && f[4..12] == a && f[12..16] == b && f[16..20] == d && f[20..] == p
  {
  }

  /** The fields of a frame sit where recovery looks for them. */
  lemma FrameFields(c: Codec, r: Rec)
    ensures var p := c.encode(r.tx);
            var f := Frame(c, r);
            && |f| == HEADER + |p|
            && f[..4] == MAGIC && f[4..12] == BigEndian(r.seq_, 8) && f[12..16] == BigEndian(|p|, 4)
            && f[16..HEADER] == BigEndian(c.crc(p), 4) && f[HEADER..] == p
  {
    var p := c.encode(r.tx);
    FrameParts(MAGIC, BigEndian(r.seq_, 8), BigEndian(|p|, 4), BigEndian(c.crc(p), 4), p);
  }

  /** Reading the numbers of a frame gives back what was written. */
  lemma FrameNumbers(c: Codec, r: Rec)
    requires Faithful(c) && Framable(c, r)
    ensures var p := c.encode(r.tx);
            var f := Frame(c, r);
            && |f| == HEADER + |p|
            && f[..4] == MAGIC && FromBigEndian(f[4..12]) == r.seq_ && FromBigEndian(f[12..16]) == |p|
            && FromBigEndian(f[16..HEADER]) == c.crc(p) && f[HEADER..] == p
  {
    var p := c.encode(r.tx);
    FrameFields(c, r);
    Powers();
    NumberRoundTrip(r.seq_, 8);
    NumberRoundTrip(|p|, 4);
    NumberRoundTrip(c.crc(p), 4);
  }

  /** A slice of a file at a place where `f` stands is a slice of `f`. */
  lemma StandsSlice(file: Bytes, off: nat, f: Bytes, i: nat, j: nat)
    requires Stands(file, off, f) && i <= j <= |f|
    ensures file[off + i..off + j] == f[i..j]
  {
    forall k | 0 <= k < j - i ensures file[off + i..off + j][k] == f[i..j][k] {
      assert file[off + i..off + j][k] == file[off..off + |f|][i + k];
    }
  }

  lemma ReadWhole(c: Codec, f: Bytes, p: Bytes, r: Rec, file: Bytes, off: nat)
    requires Stands(file, off, f) && |f| == HEADER + |p| && f[..4] == MAGIC && FromBigEndian(f[4..12]) == r.seq_
    requires FromBigEndian(f[12..16]) == |p| && FromBigEndian(f[16..HEADER]) == c.crc(p) && f[HEADER..] == p
    requires c.decode(p) == Some(r.tx)
    ensures ReadFrame(c, file, off) == Got(r, |p|)
  {
    StandsSlice(file, off, f, 0, 4);
    StandsSlice(file, off, f, 4, 12);
    StandsSlice(file, off, f, 12, 16);
    StandsSlice(file, off, f, 16, HEADER);
    StandsSlice(file, off, f, HEADER, |f|);
  }

  lemma FrameReadable(c: Codec, r: Rec)
    requires Faithful(c) && Fits(c, r)
    ensures Readable(ReaderOf(c), Frame(c, r), r)
  {
    var f, p := Frame(c, r), c.encode(r.tx);
    FrameNumbers(c, r);
    forall file: Bytes, off: nat | Stands(file, off, f) ensures ReaderOf(c)(file, off) == Got(r, |f| - HEADER) {
      ReadWhole(c, f, p, r, file, off);
    }
  }

  /** A frame that lost its last bytes is not read: the header or the payload it announces is incomplete. */
  lemma ReadTorn(c: Codec, t: Bytes, n: nat, file: Bytes, off: nat)
    requires Stands(file, off, t) && off + |t| == |file|
    requires |t| >= HEADER ==> FromBigEndian(t[12..16]) == n && |t| < HEADER + n
    ensures ReadFrame(c, file, off) == Stop
  {
    if |t| >= HEADER { StandsSlice(file, off, t, 12, 16); }
  }

  lemma TornEnds(c: Codec, r: Rec, k: nat)
    requires Faithful(c) && Fits(c, r) && k < |Frame(c, r)|
    ensures Ends(ReaderOf(c), Frame(c, r)[..k])
  {
    var f := Frame(c, r);
    var t := f[..k];
    FrameNumbers(c, r);
    if k >= HEADER { assert t[12..16] == f[12..16]; }
    forall file: Bytes, off: nat | Stands(file, off, t) && off + |t| == |file| ensures ReaderOf(c)(file, off) == Stop {
      ReadTorn(c, t, |c.encode(r.tx)|, file, off);
    }
  }

  lemma NothingEnds(c: Codec)
    ensures Ends(ReaderOf(c), [])
  {
  }

  lemma FramesReadable(c: Codec, recs: seq<Rec>)
    requires Faithful(c) && AllFit(c, recs)
    ensures AllReadable(ReaderOf(c), Frames(c, recs), recs)
  {
    forall i | 0 <= i < |recs| ensures Readable(ReaderOf(c), Frames(c, recs)[i], recs[i]) {
      FrameReadable(c, recs[i]);
    }
  }

  /** Opening a log of whole frames followed by bytes that end the scan. */
  lemma RecoverFrames(c: Codec, recs: seq<Rec>, torn: Bytes)
    requires Faithful(c) && AllFit(c, recs) && Ends(ReaderOf(c), torn)
    ensures Recover(c, FileOf(c, recs) + torn) == LoadAll(EMPTY, recs).(file := FileOf(c, recs))
  {
    var file := FileOf(c, recs) + torn;
    FramesReadable(c, recs);
    ScanAll(ReaderOf(c), EMPTY.(file := file), Frames(c, recs), recs, torn);
    assert file[..|FileOf(c, recs)|] == FileOf(c, recs);
    LoadIgnoresFile(EMPTY, recs, file);
  }

  /** How many records lie wholly before the cut. */
  function Survivors(c: Codec, recs: seq<Rec>, cut: nat): nat {
    Whole(Frames(c, recs), cut)
  }

  /** Cutting a log at any byte and reopening it restores exactly the records whose frames lie wholly before the cut,
      and truncates the file right behind them. */
  lemma CrashRecovery(c: Codec, recs: seq<Rec>, cut: nat)
    requires Faithful(c) && AllFit(c, recs) && cut <= |FileOf(c, recs)|
    ensures var k := Survivors(c, recs, cut);
            && k <= |recs|
            && Recover(c, FileOf(c, recs)[..cut]) == LoadAll(EMPTY, recs[..k]).(file := FileOf(c, recs[..k]))
  {
    var k := Survivors(c, recs, cut);
    var torn := CutFrames(Frames(c, recs), cut);
    assert Frames(c, recs[..k]) == Frames(c, recs)[..k];
    if torn == [] { NothingEnds(c); } else { TornEnds(c, recs[k], |torn|); }
    RecoverFrames(c, recs[..k], torn);
  }
}
