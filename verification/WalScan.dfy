/** Scanning a concatenation of frames that was cut somewhere, for any notion of frame. */
module WalScan {
  import opened BigEndians
  import opened WalModel

  function Concat(frames: seq<Bytes>): Bytes {
    if frames == [] then [] else frames[0] + Concat(frames[1..])
  }

  function LoadAll(st: Store, recs: seq<Rec>): Store
    decreases |recs|
  {
    if recs == [] then st else LoadAll(Load(st, recs[0]), recs[1..])
  }

  /** How many frames lie wholly before the cut. */
  function Whole(frames: seq<Bytes>, cut: nat): (k: nat)
    ensures k <= |frames|
    decreases |frames|
  {
    if frames == [] || |frames[0]| > cut then 0 else 1 + Whole(frames[1..], cut - |frames[0]|)
  }

  /** The bytes `f` stand in the file at `off`. */
  ghost predicate Stands(file: Bytes, off: nat, f: Bytes) {
    off + |f| <= |file| && file[off..off + |f|] == f
  }

  /** A frame that is read back wherever it stands. */
  ghost predicate Readable(read: Reader, f: Bytes, r: Rec) {
    && HEADER <= |f| < U32
    && forall file: Bytes, off: nat {:trigger Stands(file, off, f)} ::
         Stands(file, off, f) ==> read(file, off) == Got(r, |f| - HEADER)
  }

  /** Bytes that end the scan wherever they are the rest of the file. */
  ghost predicate Ends(read: Reader, torn: Bytes) {
    forall file: Bytes, off: nat {:trigger Stands(file, off, torn)} ::
      Stands(file, off, torn) && off + |torn| == |file| ==> read(file, off) == Stop
  }

  ghost predicate AllReadable(read: Reader, frames: seq<Bytes>, recs: seq<Rec>) {
    |frames| == |recs| && forall i :: 0 <= i < |recs| ==> Readable(read, frames[i], recs[i])
  }

  lemma ScanStep(read: Reader, st: Store, off: nat, f: Bytes, r: Rec)
    requires Readable(read, f, r) && Stands(st.file, off, f)
    ensures Scan(read, st, off, off) == Scan(read, Load(st, r), off + |f|, off + |f|)
  {
    ScanUnfold(read, st, off, off, r, |f| - HEADER);
  }

  lemma SplitRest(file: Bytes, off: nat, f: Bytes, post: Bytes)
    requires off <= |file| && file[off..] == f + post
    ensures Stands(file, off, f) && file[off + |f|..] == post
  {
    assert file[off..off + |f|] == file[off..][..|f|];
    assert file[off + |f|..] == file[off..][|f|..];
  }

  lemma ReadableRest(read: Reader, frames: seq<Bytes>, recs: seq<Rec>)
    requires AllReadable(read, frames, recs) && frames != []
    ensures Readable(read, frames[0], recs[0]) && AllReadable(read, frames[1..], recs[1..])
  {
    forall i | 0 <= i < |recs[1..]| ensures Readable(read, frames[1..][i], recs[1..][i]) {
      assert Readable(read, frames[i + 1], recs[i + 1]);
    }
  }

  lemma NoFrames(torn: Bytes)
    ensures Concat([]) + torn == torn && |Concat([])| == 0
  {
  }

  lemma ScanEnd(read: Reader, st: Store, off: nat, torn: Bytes)
    requires Ends(read, torn) && off <= |st.file| && st.file[off..] == torn
    ensures Scan(read, st, off, off) == (st, off)
  {
    assert Stands(st.file, off, torn);
  }

  /** One turn of the loop over the first frame of the rest of the file. */
  lemma ScanFirst(read: Reader, st: Store, off: nat, frames: seq<Bytes>, r: Rec, torn: Bytes)
    requires frames != [] && Readable(read, frames[0], r)
    requires off <= |st.file| && st.file[off..] == Concat(frames) + torn
    ensures var next := off + |frames[0]|;
            && next <= |st.file| && st.file[next..] == Concat(frames[1..]) + torn
            && Scan(read, st, off, off) == Scan(read, Load(st, r), next, next)
  {
    var f, post := frames[0], Concat(frames[1..]) + torn;
    assert Concat(frames) + torn == f + post;
    SplitRest(st.file, off, f, post);
    ScanStep(read, st, off, f, r);
  }

  lemma LoadFirst(st: Store, recs: seq<Rec>, frames: seq<Bytes>)
    requires recs != [] && frames != []
    ensures LoadAll(st, recs) == LoadAll(Load(st, recs[0]), recs[1..])
    ensures |Concat(frames)| == |frames[0]| + |Concat(frames[1..])|
  {
  }

  /** Scanning over whole frames indexes them in order, whatever follows them. */
  lemma {:induction false} ScanFrames(read: Reader, st: Store, off: nat, frames: seq<Bytes>, recs: seq<Rec>,
                                      rest: Bytes)
    requires AllReadable(read, frames, recs)
    requires off <= |st.file| && st.file[off..] == Concat(frames) + rest
    ensures var end := off + |Concat(frames)|;
            && end <= |st.file| && st.file[end..] == rest
            && Scan(read, st, off, off) == Scan(read, LoadAll(st, recs), end, end)
    decreases |frames|
  {
    if frames == [] {
      NoFrames(rest);
    } else {
      var next, st' := off + |frames[0]|, Load(st, recs[0]);
      ReadableRest(read, frames, recs);
      ScanFirst(read, st, off, frames, recs[0], rest);
      LoadFirst(st, recs, frames);
      ScanFrames(read, st', next, frames[1..], recs[1..], rest);
    }
  }

  lemma {:induction false} LoadKeepsFile(st: Store, recs: seq<Rec>)
    ensures LoadAll(st, recs).file == st.file
    decreases |recs|
  {
    if recs != [] { LoadKeepsFile(Load(st, recs[0]), recs[1..]); }
  }

  /** Scanning a file of whole frames and a torn end indexes exactly the whole ones and stops behind them. */
  lemma ScanAll(read: Reader, st: Store, frames: seq<Bytes>, recs: seq<Rec>, torn: Bytes)
    requires AllReadable(read, frames, recs) && Ends(read, torn) && st.file == Concat(frames) + torn
    ensures Scan(read, st, 0, 0) == (LoadAll(st, recs), |Concat(frames)|)
  {
    assert st.file[0..] == st.file;
    ScanFrames(read, st, 0, frames, recs, torn);
    LoadKeepsFile(st, recs);
    ScanEnd(read, LoadAll(st, recs), |Concat(frames)|, torn);
  }

  /** A cut leaves the whole frames before it and a proper prefix of the next one, or nothing of it. */
  lemma {:induction false} CutFrames(frames: seq<Bytes>, cut: nat) returns (torn: Bytes)
    requires cut <= |Concat(frames)|
    ensures var k := Whole(frames, cut);
            && Concat(frames)[..cut] == Concat(frames[..k]) + torn
            && (torn == [] || (k < |frames| && |torn| < |frames[k]| && torn == frames[k][..|torn|]))
    decreases |frames|
  {
    var k := Whole(frames, cut);
    if frames == [] {
      torn := [];
    } else if |frames[0]| > cut {
      torn := frames[0][..cut];
      assert frames[..0] == [];
    } else {
      torn := CutFrames(frames[1..], cut - |frames[0]|);
      TakeFirst(frames, k);
      assert Concat(frames)[..cut] == frames[0] + Concat(frames[1..])[..cut - |frames[0]|];
    }
  }

  lemma TakeFirst(frames: seq<Bytes>, k: nat)
    requires 0 < k <= |frames|
    ensures Concat(frames[..k]) == frames[0] + Concat(frames[1..][..k - 1])
  {
    assert frames[..k][1..] == frames[1..][..k - 1];
  }

  lemma {:induction false} LoadIgnoresFile(st: Store, recs: seq<Rec>, file: Bytes)
    ensures LoadAll(st.(file := file), recs) == LoadAll(st, recs).(file := file)
    decreases |recs|
  {
    if recs != [] { LoadIgnoresFile(Load(st, recs[0]), recs[1..], file); }
  }

  /** The frame read at `off` ends before `v`. */
  ghost predicate Contained(read: Reader, file: Bytes, off: nat, v: nat) {
    read(file, off).Got? && off + HEADER + read(file, off).length <= v <= |file|
  }

  /** Reading looks at nothing behind the frame, and needs a whole header. */
  ghost predicate Local(read: Reader) {
    && Bounded(read)
    && (forall file: Bytes, off: nat :: off + HEADER > |file| ==> read(file, off) == Stop)
    && (forall file: Bytes, off: nat, v: nat {:trigger Contained(read, file, off, v)} ::
          Contained(read, file, off, v) ==> read(file[..v], off) == read(file, off))
  }

  /** The last frame the scan reads is so long that its end is not representable in 32 bits. */
  ghost predicate LastOversize(read: Reader, file: Bytes, off: nat)
    requires Bounded(read)
    decreases |file| - off
  {
    off <= |file| && read(file, off).Got? &&
    var next := off + HEADER + read(file, off).length;
    if read(file, next).Got? then LastOversize(read, file, next) else HEADER + read(file, off).length >= U32
  }

  /** Scanning from `off` really ends at `v`; scanning the file cut at `v` gives the same records and the same end. */
  ghost predicate Stable(read: Reader, st: Store, off: nat, valid: nat, v: nat) {
    && off <= v <= |st.file| && (v == off <==> read(st.file, off) == Stop)
    && Scan(read, st, off, valid).1 == (if v == off then valid else v)
    && Scan(read, st.(file := st.file[..v]), off, valid).1 == (if v == off then valid else v)
    && Scan(read, st.(file := st.file[..v]), off, valid).0 == Scan(read, st, off, valid).0.(file := st.file[..v])
  }

  /** The first turn of the loop is the same in the file cut anywhere behind the frame. */
  lemma CutStep(read: Reader, st: Store, off: nat, valid: nat, v: nat)
    requires Local(read) && off <= |st.file| && Contained(read, st.file, off, v)
    ensures var got := read(st.file, off);
            var next, cut := off + HEADER + got.length, off + (HEADER + got.length) % U32;
            && Scan(read, st, off, valid) == Scan(read, Load(st, got.rec), next, cut)
            && Scan(read, st.(file := st.file[..v]), off, valid)
               == Scan(read, Load(st, got.rec).(file := st.file[..v]), next, cut)
  {
    var got, short := read(st.file, off), st.(file := st.file[..v]);
    ScanUnfold(read, st, off, valid, got.rec, got.length);
    ScanUnfold(read, short, off, valid, got.rec, got.length);
    assert Load(short, got.rec) == Load(st, got.rec).(file := st.file[..v]);
  }

  lemma StableStep(read: Reader, st: Store, off: nat, valid: nat, v: nat)
    requires Local(read) && off <= |st.file| && read(st.file, off).Got? && !LastOversize(read, st.file, off)
    requires var got := read(st.file, off);
             Stable(read, Load(st, got.rec), off + HEADER + got.length, off + (HEADER + got.length) % U32, v)
    ensures Stable(read, st, off, valid, v)
  {
    assert Contained(read, st.file, off, v);
    CutStep(read, st, off, valid, v);
  }

  lemma StableEnd(read: Reader, st: Store, off: nat, valid: nat)
    requires Local(read) && off <= |st.file| && read(st.file, off) == Stop
    ensures Stable(read, st, off, valid, off)
  {
    assert read(st.file[..off], off) == Stop;
  }

  lemma {:induction false} ScanStable(read: Reader, st: Store, off: nat, valid: nat) returns (v: nat)
    requires Local(read) && off <= |st.file| && !LastOversize(read, st.file, off)
    ensures Stable(read, st, off, valid, v)
    decreases |st.file| - off
  {
    var got := read(st.file, off);
    if got.Got? {
      v := ScanStable(read, Load(st, got.rec), off + HEADER + got.length, off + (HEADER + got.length) % U32);
      StableStep(read, st, off, valid, v);
    } else {
      v := off;
      StableEnd(read, st, off, valid);
    }
  }

  /** Lengths in this file are 32-bit numbers. */
  ghost predicate Short(read: Reader, file: Bytes) {
    forall off: nat :: read(file, off).Got? ==> read(file, off).length < U32
  }

  /** Scanning chooses the cut `v`, and scanning the file cut there finds fewer records. */
  ghost predicate Drops(read: Reader, st: Store, off: nat, valid: nat, v: nat) {
    && off <= v <= |st.file| && Scan(read, st, off, valid).1 == v
    && |Scan(read, st.(file := st.file[..v]), off, valid).0.order| < |Scan(read, st, off, valid).0.order|
  }

  lemma DropsStep(read: Reader, st: Store, off: nat, valid: nat, v: nat)
    requires Local(read) && off <= |st.file| && read(st.file, off).Got?
    requires var got := read(st.file, off);
             Drops(read, Load(st, got.rec), off + HEADER + got.length, off + (HEADER + got.length) % U32, v)
    ensures Drops(read, st, off, valid, v)
  {
    assert Contained(read, st.file, off, v);
    CutStep(read, st, off, valid, v);
  }

  lemma Wraps(n: nat)
    requires U32 <= n < U32 + HEADER
    ensures n % U32 == n - U32
  {
  }

  /** An oversize last frame: the cut falls inside its header. */
  lemma DropsLast(read: Reader, st: Store, off: nat, valid: nat)
    requires Local(read) && off <= |st.file| && read(st.file, off).Got? && read(st.file, off).length < U32
    requires HEADER + read(st.file, off).length >= U32 && !read(st.file, off + HEADER + read(st.file, off).length).Got?
    ensures Drops(read, st, off, valid, off + (HEADER + read(st.file, off).length) % U32)
  {
    var got := read(st.file, off);
    var v := off + (HEADER + got.length) % U32;
    Wraps(HEADER + got.length);
    ScanUnfold(read, st, off, valid, got.rec, got.length);
    assert read(st.file[..v], off) == Stop;
  }

  lemma {:induction false} ScanDrops(read: Reader, st: Store, off: nat, valid: nat) returns (v: nat)
    requires Local(read) && Short(read, st.file) && LastOversize(read, st.file, off)
    ensures Drops(read, st, off, valid, v)
    decreases |st.file| - off
  {
    var got := read(st.file, off);
    var next, cut := off + HEADER + got.length, off + (HEADER + got.length) % U32;
    if read(st.file, next).Got? {
      v := ScanDrops(read, Load(st, got.rec), next, cut);
      DropsStep(read, st, off, valid, v);
    } else {
      v := cut;
      DropsLast(read, st, off, valid);
    }
  }
}
