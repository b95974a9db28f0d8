// VBUSCAP capture files: the recorder that prints them and the replayer that parses them
// (vbus/src/taps/recorder.cpp).
module Capture {
  import opened Arith
  import opened Bytes

  datatype Frame = Frame(proto: U8, tag: U64, tsNs: U64, payload: seq<U8>)

  // "VBUSCAP"
  const MAGIC: seq<U8> := [0x56, 0x42, 0x55, 0x53, 0x43, 0x41, 0x50]
  const HEADER_SIZE := 16
  const RECORD_SIZE := 32

  // The bytes the compiler leaves between the fields of a record header: 4 after `Reserved`,
  // so that `Tag` is aligned, and 4 after `Len`. Their contents are unspecified.
  type Padding = p: seq<U8> | |p| == 8 witness [0, 0, 0, 0, 0, 0, 0, 0]

  const HEADER: seq<U8> := MAGIC + [0] + Le4(1) + Le4(0)

  // Proto, Flags, Reserved, padding, Tag, Ts_ns, Len, padding.
  function RecordHeader(f: Frame, pad: Padding): (b: seq<U8>)
    ensures |b| == RECORD_SIZE
  {
    [f.proto, 0, 0, 0] + pad[..4] + Le8(f.tag) + Le8(f.tsNs) + Le4(|f.payload| % TWO32) + pad[4..]
  }

  // What one Write appends: `Len` is 32 bits wide and only that many payload bytes follow.
  function EncodeRecord(f: Frame, pad: Padding): (b: seq<U8>)
    ensures |b| == RECORD_SIZE + |f.payload| % TWO32
  {
    RecordHeader(f, pad) + f.payload[..|f.payload| % TWO32]
  }

  function Join(chunks: seq<seq<U8>>): seq<U8> {
    if chunks == [] then [] else chunks[0] + Join(chunks[1..])
  }

  function Records(frames: seq<Frame>, pads: seq<Padding>): (chunks: seq<seq<U8>>)
    requires |frames| == |pads|
    ensures |chunks| == |frames|
  {
    seq(|frames|, i requires 0 <= i < |frames| => EncodeRecord(frames[i], pads[i]))
  }

  function EncodeAll(frames: seq<Frame>, pads: seq<Padding>): seq<U8>
    requires |frames| == |pads|
  {
    Join(Records(frames, pads))
  }

  // The result of trying to read one frame: its bytes run out, or a frame and its length in bytes.
  datatype Read = Cut | Got(frame: Frame, used: nat)

  function PayloadLength(b: seq<U8>): U32
    requires |b| >= RECORD_SIZE
  {
    FromLe4(b[24..28])
  }

  function ReadOne(b: seq<U8>): (r: Read)
    ensures r.Got? ==> RECORD_SIZE <= r.used <= |b|
  {
    if |b| < RECORD_SIZE || |b| < RECORD_SIZE + PayloadLength(b) then Cut
    else
      var end := RECORD_SIZE + PayloadLength(b);
      Got(Frame(b[0], FromLe8(b[8..16]), FromLe8(b[16..24]), b[RECORD_SIZE..end]), end)
  }

  // All frames that the bytes after the file header hold, up to the first incomplete one.
  function FramesIn(b: seq<U8>): (frames: seq<Frame>)
    decreases |b|
  {
    var r := ReadOne(b);
    if r.Cut? then [] else [r.frame] + FramesIn(b[r.used..])
  }

  lemma FramesInNext(b: seq<U8>)
    requires ReadOne(b).Got?
    ensures FramesIn(b) == [ReadOne(b).frame] + FramesIn(b[ReadOne(b).used..])
  {}

  // What Open accepts.
  predicate OpensAsCapture(file: seq<U8>) {
    |file| >= HEADER_SIZE && file[..7] == MAGIC && FromLe4(file[8..12]) == 1
  }

  /** What opens is exactly this: 16 bytes at least, which begin with the letters VBUSCAP and have the
      32-bit number 1 from the ninth byte on; the other bytes of the header do not matter. Every new
      recording begins so. */
  lemma OpensExactly(file: seq<U8>)
    ensures OpensAsCapture(file) <==>
            && |file| >= 16
            && (forall i :: 0 <= i < 7 ==> file[i] == "VBUSCAP"[i] as int)
            && file[8] == 1 && file[9] == 0 && file[10] == 0 && file[11] == 0
    ensures HEADER == [0x56, 0x42, 0x55, 0x53, 0x43, 0x41, 0x50, 0, 1, 0, 0, 0, 0, 0, 0, 0]
  {
    if |file| >= 16 {
      LowestFirst(file[8..12]);
      assert file[..7] == MAGIC <==> forall i :: 0 <= i < 7 ==> file[i] == MAGIC[i];
      assert forall i :: 0 <= i < 7 ==> MAGIC[i] == "VBUSCAP"[i] as int;
    }
  }

  // The frames of a capture file.
  function Contents(file: seq<U8>): seq<Frame>
    requires OpensAsCapture(file)
  {
    FramesIn(file[HEADER_SIZE..])
  }

  // ---------- the two ends ----------

  class Recorder {
    var out: seq<U8>
    var isOpen: bool
    var good: bool

    constructor ()
      ensures !isOpen && good && out == []
    {
      out, isOpen, good := [], false, true;
    }

    // `created` says whether the file could be opened for writing. A stream that is open already
    // fails; one that had failed is good again once it opens. What was in the file is gone.
    method Open(created: bool) returns (ok: bool)
      modifies this
      ensures ok == (!old(isOpen) && created) == good
      ensures isOpen == (old(isOpen) || created)
      ensures out == if ok then HEADER else old(out)
    {
      if isOpen || !created {
        good := false;
        return false;
      }
      isOpen, good := true, true;
      out := MAGIC + [0] + Le4(1) + Le4(0);
      return good;
    }

    // Closing a good stream that is not open makes it fail; a failed one is left alone.
    method Close()
      modifies this
      ensures out == old(out)
      ensures isOpen == (old(isOpen) && !old(good))
      ensures good == (old(isOpen) && old(good))
    {
      if good {
        if !isOpen {
          good := false;
        }
        isOpen := false;
      }
    }

    // A write after Close fails and leaves the file alone.
    method Write(f: Frame, pad: Padding) returns (ok: bool)
      modifies this
      ensures ok == (old(isOpen) && old(good)) == good
      ensures isOpen == old(isOpen)
      ensures out == if ok then old(out) + EncodeRecord(f, pad) else old(out)
    {
      if !good {
        return false;
      }
      if !isOpen {
        good := false;
        return false;
      }
      var len := |f.payload| % TWO32;
      out := out + RecordHeader(f, pad);
      if len > 0 {
        out := out + f.payload[..len];
      } else {
        assert f.payload[..len] == [];
      }
      assert out == old(out) + EncodeRecord(f, pad);
      return good;
    }
  }

  class Replayer {
    var input: seq<U8>
    var pos: nat
    var isOpen: bool
    var good: bool

    ghost predicate Valid()
      reads this
    {
      pos <= |input|
    }

    constructor ()
      ensures Valid() && !isOpen
    {
      input, pos, isOpen, good := [], 0, false, true;
    }

    // istream::read: what is left of the file, and a failed stream if that is too little.
    method Take(n: nat) returns (data: seq<U8>)
      requires Valid()
      modifies `pos, `good
      ensures Valid()
      ensures !old(good) ==> data == [] && pos == old(pos) && !good
      ensures old(good) && n <= |input| - old(pos) ==>
                good && pos == old(pos) + n && data == input[old(pos)..pos]
      ensures old(good) && n > |input| - old(pos) ==>
                !good && pos == |input| && data == input[old(pos)..]
    {
      if !good {
        return [];
      }
      var end := pos + n;
      if end > |input| {
        good := false;
        end := |input|;
      }
      data := input[pos..end];
      pos := end;
    }

    // `present` says whether the file is there and can be read. A stream that is open already fails.
    method Open(file: seq<U8>, present: bool) returns (ok: bool)
      requires Valid()
      modifies this
      ensures Valid()
      ensures ok <==> !old(isOpen) && present && OpensAsCapture(file)
      ensures ok ==> good && input == file && pos == HEADER_SIZE
    {
      if isOpen || !present {
        good := false;
        return false;
      }
      isOpen, good := true, true;
      input, pos := file, 0;
      var header := Take(HEADER_SIZE);
      if !good {
        return false;
      }
      assert header[..7] == file[..7] && header[8..12] == file[8..12];
      if header[..7] != MAGIC {
        return false;
      }
      if FromLe4(header[8..12]) != 1 {
        return false;
      }
      return true;
    }

    // `fIn` is the caller's frame before the call; a failed read may leave it half overwritten.
    method Next(fIn: Frame) returns (ok: bool, f: Frame)
      requires Valid()
      modifies `pos, `good
      ensures Valid()
      ensures !old(good) ==> !ok && !good && pos == old(pos)
      ensures old(good) ==>
                var r := ReadOne(input[old(pos)..]);
                ok == good == r.Got? && (ok ==> f == r.frame && pos == old(pos) + r.used)
    {
      f := fIn;
      if !good {
        return false, f;
      }
      ghost var rest := input[pos..];
      var r := Take(RECORD_SIZE);
      if !good {
        return false, f;
      }
      SamePrefix(rest, r);
      var len := FromLe4(r[24..28]);
      f := Frame(r[0], FromLe8(r[8..16]), FromLe8(r[16..24]), Resized(f.payload, len));
      if len > 0 {
        var data := Take(len);
        f := f.(payload := data + f.payload[|data|..]);
        assert good ==> f.payload == rest[RECORD_SIZE..RECORD_SIZE + len];
      }
      ok := good;
    }

    // The loop every replay command runs: Next until it fails.
    method ReadAll() returns (frames: seq<Frame>)
      requires Valid() && good
      modifies `pos, `good
      ensures Valid() && !good
      ensures frames == FramesIn(input[old(pos)..])
    {
      ghost var rest := input[pos..];
      ghost var all, left := FramesIn(rest), FramesIn(rest);
      frames := [];
      var f := Frame(0, 0, 0, []);
      var ok := true;
      while ok
        invariant Valid() && ok == good && rest == input[pos..]
        invariant all == frames + left
        invariant left == if ok then FramesIn(rest) else []
        decreases ok, |rest|
      {
        ok, f, left := Advance(f, rest, left);
        rest := input[pos..];
        if ok {
          Regrouped(frames, f, left);
          frames := frames + [f];
        }
      }
    }

    // The loop's condition.
    method Advance(fIn: Frame, ghost rest: seq<U8>, ghost left: seq<Frame>)
      returns (ok: bool, f: Frame, ghost left': seq<Frame>)
      requires Valid() && good && rest == input[pos..] && left == FramesIn(rest)
      modifies `pos, `good
      ensures Valid() && ok == good
      ensures ok ==> pos > old(pos) && left == [f] + left' && left' == FramesIn(input[pos..])
      ensures !ok ==> left == left' == []
    {
      ghost var start := pos;
      left' := [];
      ok, f := Next(fIn);
      if ok {
        FramesInNext(rest);
        assert rest[pos - start..] == input[pos..];
        left' := left[1..];
      }
    }
  }

  // vector::resize: keep what fits, fill with zeros.
  function Resized(s: seq<U8>, n: nat): (r: seq<U8>)
    ensures |r| == n
  {
    if |s| >= n then s[..n] else s + seq(n - |s|, _ => 0)
  }

  // ---------- printing and parsing undo each other ----------

  // A frame as a capture keeps it: a payload of 2^32 bytes or more loses its multiple of 2^32.
  function Kept(f: Frame): Frame {
    f.(payload := f.payload[..|f.payload| % TWO32])
  }

  function AllKept(frames: seq<Frame>): (r: seq<Frame>)
    ensures |r| == |frames|
  {
    seq(|frames|, i requires 0 <= i < |frames| => Kept(frames[i]))
  }

  // Two byte strings that agree on a record header agree on its fields.
  lemma SamePrefix(b: seq<U8>, r: seq<U8>)
    requires |r| >= RECORD_SIZE && |b| >= RECORD_SIZE && b[..RECORD_SIZE] == r[..RECORD_SIZE]
    ensures b[0] == r[0] && b[8..16] == r[8..16] && b[16..24] == r[16..24] && b[24..28] == r[24..28]
  {
    var h := b[..RECORD_SIZE];
    assert b[0] == h[0] && b[8..16] == h[8..16] && b[16..24] == h[16..24] && b[24..28] == h[24..28];
    assert r[0] == h[0] && r[8..16] == h[8..16] && r[16..24] == h[16..24] && r[24..28] == h[24..28];
  }

  lemma Slices(a: seq<U8>, b: seq<U8>, c: seq<U8>, d: seq<U8>, e: seq<U8>)
    requires |a| == 8 && |b| == 8 && |c| == 8 && |d| == 4
    ensures var s := a + b + c + d + e;
            |s| >= 28 && s[..8] == a && s[8..16] == b && s[16..24] == c && s[24..28] == d
  {}

  lemma HeaderFields(f: Frame, pad: Padding)
    ensures var b := RecordHeader(f, pad);
            && b[0] == f.proto && b[1] == b[2] == b[3] == 0
            && FromLe8(b[8..16]) == f.tag
            && FromLe8(b[16..24]) == f.tsNs
            && FromLe4(b[24..28]) == |f.payload| % TWO32
  {
    Slices([f.proto, 0, 0, 0] + pad[..4], Le8(f.tag), Le8(f.tsNs), Le4(|f.payload| % TWO32), pad[4..]);
    Le8ReadsBack(f.tag);
    Le8ReadsBack(f.tsNs);
    Le4ReadsBack(|f.payload| % TWO32);
  }

  /** Whatever the padding, the next read of a written record yields its frame and stops
      exactly at its end. */
  lemma ReadOneWritten(f: Frame, pad: Padding, rest: seq<U8>)
    ensures ReadOne(EncodeRecord(f, pad) + rest) == Got(Kept(f), RECORD_SIZE + |f.payload| % TWO32)
  {
    var h := RecordHeader(f, pad);
    var len := |f.payload| % TWO32;
    var b := EncodeRecord(f, pad) + rest;
    HeaderFields(f, pad);
    SamePrefix(b, h);
    assert b[RECORD_SIZE..RECORD_SIZE + len] == f.payload[..len];
  }

  // A reader for which a chunk is one frame, whatever follows it, and none when it is cut.
  // The lemmas about lists of chunks hold for every such reader.
  ghost predicate ReadsAs(reader: seq<U8> -> seq<Frame>, chunk: seq<U8>, f: Frame) {
    && (forall rest :: reader(chunk + rest) == [f] + reader(rest))
    && (forall n :: 0 <= n < |chunk| ==> reader(chunk[..n]) == [])
  }

  lemma RecordReads(f: Frame, pad: Padding)
    ensures ReadsAs(FramesIn, EncodeRecord(f, pad), Kept(f))
  {
    var chunk := EncodeRecord(f, pad);
    forall rest ensures FramesIn(chunk + rest) == [Kept(f)] + FramesIn(rest) {
      ReadOneWritten(f, pad, rest);
      assert (chunk + rest)[|chunk|..] == rest;
    }
    forall n | 0 <= n < |chunk| ensures FramesIn(chunk[..n]) == [] {
      assert chunk + [] == chunk;
      ReadOneOfCut(chunk, n);
      ReadOneWritten(f, pad, []);
    }
  }

  ghost predicate AllRead(reader: seq<U8> -> seq<Frame>, chunks: seq<seq<U8>>, frames: seq<Frame>) {
    && |chunks| == |frames|
    && forall i :: 0 <= i < |chunks| ==> ReadsAs(reader, chunks[i], frames[i])
  }

  lemma {:induction false} ReadsJoined(reader: seq<U8> -> seq<Frame>, chunks: seq<seq<U8>>, frames: seq<Frame>,
                                       rest: seq<U8>)
    requires AllRead(reader, chunks, frames)
    ensures reader(Join(chunks) + rest) == frames + reader(rest)
  {
    if chunks == [] {
      assert Join(chunks) + rest == rest;
    } else {
      var tail := Join(chunks[1..]);
      assert ReadsAs(reader, chunks[0], frames[0]);
      assert Join(chunks) + rest == chunks[0] + (tail + rest);
      ReadsJoined(reader, chunks[1..], frames[1..], rest);
    }
  }

  lemma RecordsRead(frames: seq<Frame>, pads: seq<Padding>)
    requires |frames| == |pads|
    ensures AllRead(FramesIn, Records(frames, pads), AllKept(frames))
  {
    forall i | 0 <= i < |frames| ensures ReadsAs(FramesIn, Records(frames, pads)[i], AllKept(frames)[i]) {
      RecordReads(frames[i], pads[i]);
    }
  }

  predicate Short(f: Frame) {
    |f.payload| < TWO32
  }

  lemma KeptWhole(frames: seq<Frame>)
    ensures AllKept(frames) == frames <==> forall i :: 0 <= i < |frames| ==> Short(frames[i])
  {
    if i :| 0 <= i < |frames| && !Short(frames[i]) {
      assert |AllKept(frames)[i].payload| < TWO32;
    } else {
      assert forall i :: 0 <= i < |frames| ==> Short(frames[i]) && AllKept(frames)[i] == frames[i];
    }
  }

  /** A written capture reads back as exactly the frames written if and only if every payload
      is shorter than 2^32 bytes. */
  lemma RoundTrip(frames: seq<Frame>, pads: seq<Padding>)
    requires |frames| == |pads|
    ensures FramesIn(EncodeAll(frames, pads)) == frames <==> forall i :: 0 <= i < |frames| ==> Short(frames[i])
  {
    RecordsRead(frames, pads);
    ReadsJoined(FramesIn, Records(frames, pads), AllKept(frames), []);
    assert EncodeAll(frames, pads) + [] == EncodeAll(frames, pads);
    KeptWhole(frames);
  }

  lemma HeaderOpens(rest: seq<U8>, n: nat)
    requires n <= |HEADER + rest|
    ensures OpensAsCapture((HEADER + rest)[..n]) <==> n >= HEADER_SIZE
  {
    if n >= HEADER_SIZE {
      var file := (HEADER + rest)[..n];
      Le4ReadsBack(1);
      assert file[..7] == MAGIC;
      assert file[8..12] == Le4(1);
    }
  }

  /** A whole capture file opens, and reads back as what was written. */
  lemma WholeFile(frames: seq<Frame>, pads: seq<Padding>)
    requires |frames| == |pads|
    ensures var file := HEADER + EncodeAll(frames, pads);
            OpensAsCapture(file) && Contents(file) == AllKept(frames)
  {
    var body := EncodeAll(frames, pads);
    Uncut(HEADER, body);
    HeaderOpens(body, |HEADER + body|);
    RecordsRead(frames, pads);
    ReadsJoined(FramesIn, Records(frames, pads), AllKept(frames), []);
    Uncut(body, []);
  }

  lemma Uncut(a: seq<U8>, b: seq<U8>)
    ensures (a + b)[..|a + b|] == a + b && (a + b)[|a|..] == b && a + [] == a
  {}

  // The number of whole chunks among the first n bytes.
  function Whole(chunks: seq<seq<U8>>, n: nat): (k: nat)
    ensures k <= |chunks|
    ensures |Join(chunks[..k])| <= n
    ensures k < |chunks| ==> |Join(chunks[..k + 1])| > n
  {
    if chunks == [] then 0
    else if n < |chunks[0]| then
      assert chunks[..1][1..] == [];
      0
    else
      var k := 1 + Whole(chunks[1..], n - |chunks[0]|);
      assert chunks[..k][1..] == chunks[1..][..k - 1];
      assert k < |chunks| ==> chunks[..k + 1][1..] == chunks[1..][..k];
      k
  }

  lemma {:induction false} JoinSplit(chunks: seq<seq<U8>>, k: nat)
    requires k <= |chunks|
    ensures Join(chunks) == Join(chunks[..k]) + Join(chunks[k..])
  {
    if k == 0 {
      assert chunks[..0] == [] && chunks[0..] == chunks;
    } else {
      assert chunks[..k][0] == chunks[0] && chunks[..k][1..] == chunks[1..][..k - 1];
      assert chunks[k..] == chunks[1..][k - 1..];
      JoinSplit(chunks[1..], k - 1);
    }
  }

  lemma CutOfSum(a: seq<U8>, b: seq<U8>, c: seq<U8>, n: nat)
    requires |a| <= n <= |a| + |b|
    ensures (a + (b + c))[..n] == a + b[..n - |a|]
  {}

  // A cut leaves some whole chunks and a proper part of the next.
  lemma CutJoined(chunks: seq<seq<U8>>, n: nat)
    requires n < |Join(chunks)|
    ensures var k := Whole(chunks, n);
            && k < |chunks| && n - |Join(chunks[..k])| < |chunks[k]|
            && Join(chunks)[..n] == Join(chunks[..k]) + chunks[k][..n - |Join(chunks[..k])|]
  {
    var k := Whole(chunks, n);
    assert k < |chunks| by {
      assert chunks[..|chunks|] == chunks;
    }
    assert chunks[..k + 1] == chunks[..k] + [chunks[k]];
    JoinAppend(chunks[..k], chunks[k]);
    JoinSplit(chunks, k);
    assert chunks[k..][1..] == chunks[k + 1..];
    CutOfSum(Join(chunks[..k]), chunks[k], Join(chunks[k + 1..]), n);
  }

  lemma {:induction false} WholeOfAll(chunks: seq<seq<U8>>)
    ensures Join(chunks[..Whole(chunks, |Join(chunks)|)]) == Join(chunks)
  {
    var k := Whole(chunks, |Join(chunks)|);
    if chunks != [] {
      WholeOfAll(chunks[1..]);
      assert chunks[..k][0] == chunks[0] && chunks[..k][1..] == chunks[1..][..k - 1];
    }
  }

  lemma ReadsCut(reader: seq<U8> -> seq<Frame>, chunks: seq<seq<U8>>, frames: seq<Frame>, n: nat)
    requires AllRead(reader, chunks, frames) && reader([]) == []
    requires n <= |Join(chunks)|
    ensures reader(Join(chunks)[..n]) == frames[..Whole(chunks, n)]
  {
    var k := Whole(chunks, n);
    var tail: seq<U8> := [];
    if n < |Join(chunks)| {
      CutJoined(chunks, n);
      tail := chunks[k][..n - |Join(chunks[..k])|];
      assert ReadsAs(reader, chunks[k], frames[k]);
    } else {
      WholeOfAll(chunks);
      assert Join(chunks)[..n] == Join(chunks[..k]) + tail;
    }
    ReadsJoined(reader, chunks[..k], frames[..k], tail);
  }

  /** A capture cut at any byte reads as the longest run of its frames that is still whole. */
  lemma CutCapture(frames: seq<Frame>, pads: seq<Padding>, n: nat) returns (k: nat)
    requires |frames| == |pads|
    requires n <= |EncodeAll(frames, pads)|
    ensures k <= |frames|
    ensures |EncodeAll(frames[..k], pads[..k])| <= n
    ensures k < |frames| ==> n < |EncodeAll(frames[..k + 1], pads[..k + 1])|
    ensures FramesIn(EncodeAll(frames, pads)[..n]) == AllKept(frames[..k])
  {
    var chunks := Records(frames, pads);
    k := Whole(chunks, n);
    RecordsRead(frames, pads);
    ReadsCut(FramesIn, chunks, AllKept(frames), n);
    RecordsPrefix(frames, pads, k);
    if k < |frames| {
      RecordsPrefix(frames, pads, k + 1);
    }
  }

  lemma RecordsPrefix(frames: seq<Frame>, pads: seq<Padding>, k: nat)
    requires k <= |frames| == |pads|
    ensures Records(frames, pads)[..k] == Records(frames[..k], pads[..k])
    ensures AllKept(frames)[..k] == AllKept(frames[..k])
  {}

  lemma CutHeader(header: seq<U8>, body: seq<U8>, n: nat)
    requires |header| <= n <= |header| + |body|
    ensures (header + body)[..n][|header|..] == body[..n - |header|]
  {}

  /** The whole file: cut anywhere, it opens exactly when its header is complete, and then
      yields the longest run of whole frames. */
  lemma CutFile(frames: seq<Frame>, pads: seq<Padding>, n: nat) returns (k: nat)
    requires |frames| == |pads|
    requires n <= |HEADER| + |EncodeAll(frames, pads)|
    ensures OpensAsCapture((HEADER + EncodeAll(frames, pads))[..n]) <==> n >= HEADER_SIZE
    ensures n >= HEADER_SIZE ==>
              && k <= |frames|
              && |HEADER| + |EncodeAll(frames[..k], pads[..k])| <= n
              && (k < |frames| ==> n < |HEADER| + |EncodeAll(frames[..k + 1], pads[..k + 1])|)
              && FramesIn((HEADER + EncodeAll(frames, pads))[..n][HEADER_SIZE..]) == AllKept(frames[..k])
  {
    var body := EncodeAll(frames, pads);
    HeaderOpens(body, n);
    k := 0;
    if n >= HEADER_SIZE {
      k := CutCapture(frames, pads, n - HEADER_SIZE);
      CutHeader(HEADER, body, n);
    }
  }

  /** On arbitrary bytes every frame read costs at least a record header. */
  lemma {:induction false} ReadingConsumes(b: seq<U8>)
    ensures RECORD_SIZE * |FramesIn(b)| <= |b|
    decreases |b|
  {
    var r := ReadOne(b);
    if r.Got? {
      ReadingConsumes(b[r.used..]);
    }
  }

  lemma ReadOneOfCut(b: seq<U8>, n: nat)
    requires n <= |b|
    ensures ReadOne(b[..n]) == var r := ReadOne(b); if r.Got? && r.used <= n then r else Cut
  {
    if n >= RECORD_SIZE {
      SamePrefix(b, b[..n]);
      var end := RECORD_SIZE + PayloadLength(b);
      if end <= n {
        assert b[..n][RECORD_SIZE..end] == b[RECORD_SIZE..end];
      }
    }
  }

  /** Cutting arbitrary bytes can only drop frames from the end. */
  lemma {:induction false} CutIsPrefix(b: seq<U8>, n: nat)
    requires n <= |b|
    ensures FramesIn(b[..n]) <= FramesIn(b)
    decreases |b|
  {
    ReadOneOfCut(b, n);
    var r := ReadOne(b);
    if r.Got? && r.used <= n {
      assert b[..n][r.used..] == b[r.used..][..n - r.used];
      CutIsPrefix(b[r.used..], n - r.used);
      FramesInNext(b);
      FramesInNext(b[..n]);
      LongerPrefix(r.frame, FramesIn(b[..n][r.used..]), FramesIn(b[r.used..]));
    }
  }

  lemma LongerPrefix(f: Frame, a: seq<Frame>, b: seq<Frame>)
    requires a <= b
    ensures [f] + a <= [f] + b
  {}

  lemma {:induction false} JoinAppend(chunks: seq<seq<U8>>, chunk: seq<U8>)
    ensures Join(chunks + [chunk]) == Join(chunks) + chunk
  {
    if chunks == [] {
      assert Join([chunk]) == chunk + Join([]);
    } else {
      assert (chunks + [chunk])[1..] == chunks[1..] + [chunk];
      JoinAppend(chunks[1..], chunk);
    }
  }

  /** Writing one more frame to a capture is capturing one more frame. */
  lemma EncodeAppend(frames: seq<Frame>, pads: seq<Padding>, f: Frame, pad: Padding)
    requires |frames| == |pads|
    ensures EncodeAll(frames + [f], pads + [pad]) == EncodeAll(frames, pads) + EncodeRecord(f, pad)
  {
    assert Records(frames + [f], pads + [pad]) == Records(frames, pads) + [EncodeRecord(f, pad)];
    JoinAppend(Records(frames, pads), EncodeRecord(f, pad));
  }

  /** The same for the whole file. */
  lemma FileAppend(frames: seq<Frame>, pads: seq<Padding>, f: Frame, pad: Padding)
    requires |frames| == |pads|
    ensures (HEADER + EncodeAll(frames, pads)) + EncodeRecord(f, pad) == HEADER + EncodeAll(frames + [f], pads + [pad])
  {
    EncodeAppend(frames, pads, f, pad);
    Regroup(HEADER, EncodeAll(frames, pads), EncodeRecord(f, pad));
  }

  lemma Regroup(a: seq<U8>, b: seq<U8>, c: seq<U8>)
    ensures (a + b) + c == a + (b + c)
  {}
}
