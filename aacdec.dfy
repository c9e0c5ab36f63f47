/**
 * The raw ADTS AAC demuxer: the probe that scores a byte prefix by chaining
 * ADTS frame headers (ISO/IEC 13818-7, section 6.2: a 12-bit syncword 0xFFF,
 * a 2-bit layer of 00 and a 13-bit frame_length that counts the header), the
 * header reader that creates the single audio stream, and the demuxer's
 * descriptor.
 */
module AacDemuxer {
  import opened Rationals

  /** AV_RB16: a big-endian 16-bit read. */
  function RB16(buf: seq<bv8>, p: int): bv16
    requires 0 <= p && p + 2 <= |buf|
  {
    ((buf[p] as bv16) << 8) | (buf[p + 1] as bv16)
  }

  /** AV_RB32: a big-endian 32-bit read. */
  function RB32(buf: seq<bv8>, p: int): bv32
    requires 0 <= p && p + 4 <= |buf|
  {
    ((buf[p] as bv32) << 24) | ((buf[p + 1] as bv32) << 16) | ((buf[p + 2] as bv32) << 8) | (buf[p + 3] as bv32)
  }

  /** A 16-bit word made of a high and a low byte has the value 256 * high + low. */
  lemma Join16(w: bv16, hi: bv8, lo: bv8)
    requires w == ((hi as bv16) << 8) | (lo as bv16)
    ensures w as int == 0x100 * (hi as int) + lo as int
  {
  }

  /** A 32-bit word made of a high and a low half has the value 65536 * high + low. */
  lemma Join32(w: bv32, hi: bv16, lo: bv16)
    requires w == ((hi as bv32) << 16) | (lo as bv32)
    ensures w as int == 0x1_0000 * (hi as int) + lo as int
  {
  }

  /** AV_RB16 reads the two bytes as a big-endian number: the first byte is the high one. */
  lemma RB16Value(buf: seq<bv8>, p: int)
    requires 0 <= p && p + 2 <= |buf|
    ensures RB16(buf, p) as int == 0x100 * (buf[p] as int) + buf[p + 1] as int
  {
    Join16(RB16(buf, p), buf[p], buf[p + 1]);
  }

  /** AV_RB32 is the big-endian 16-bit word at p followed by the one at p + 2. */
  lemma RB32Halves(buf: seq<bv8>, p: int)
    requires 0 <= p && p + 4 <= |buf|
    ensures RB32(buf, p) as int == 0x1_0000 * (RB16(buf, p) as int) + RB16(buf, p + 2) as int
  {
    assert RB32(buf, p) == ((RB16(buf, p) as bv32) << 16) | (RB16(buf, p + 2) as bv32);
    Join32(RB32(buf, p), RB16(buf, p), RB16(buf, p + 2));
  }

  /** AV_RB32 reads the four bytes as a big-endian number. */
  lemma RB32Value(buf: seq<bv8>, p: int)
    requires 0 <= p && p + 4 <= |buf|
    ensures RB32(buf, p) as int ==
      0x100_0000 * (buf[p] as int) + 0x1_0000 * (buf[p + 1] as int) + 0x100 * (buf[p + 2] as int) + buf[p + 3] as int
  {
    RB32Halves(buf, p);
    RB16Value(buf, p);
    RB16Value(buf, p + 2);
  }

  /** The syncword and layer of an ADTS header in its first 16 bits; the ID and protection_absent bits are ignored. */
  predicate IsSyncWord(header: bv16) {
    header & 0xFFF6 == 0xFFF0
  }

  /** The 13-bit frame_length field in the 32 bits read from the fourth header byte on. */
  function LengthField(word: bv32): (n: nat)
    ensures n < 0x2000
  {
    ((word >> 13) & 0x1FFF) as int
  }

  predicate SyncAt(buf: seq<bv8>, p: int)
    requires 0 <= p && p + 2 <= |buf|
  {
    IsSyncWord(RB16(buf, p))
  }

  /**
   * A header starts at p exactly when its first byte is 0xFF and its second is
   * 1111 ?00?: the twelve syncword bits set and the two layer bits clear.
   */
  lemma SyncAtBytes(buf: seq<bv8>, p: int)
    requires 0 <= p && p + 2 <= |buf|
    ensures SyncAt(buf, p) <==> buf[p] == 0xFF && buf[p + 1] & 0xF6 == 0xF0
  {
  }

  /** The frame_length of the header at p, which starts 30 bits into the header. */
  function FrameLength(buf: seq<bv8>, p: int): (n: nat)
    requires 0 <= p && p + 7 <= |buf|
    ensures n < 0x2000
  {
    LengthField(RB32(buf, p + 3))
  }

  /** A run of frames continues at p: a header is there and its length covers at least the 7-byte header. */
  predicate FrameAt(buf: seq<bv8>, p: int)
    requires 0 <= p && p + 7 <= |buf|
  {
    SyncAt(buf, p) && FrameLength(buf, p) >= 7
  }

  /** `end`: only offsets below |buf| - 7 are examined, so all 7 header bytes of an examined frame are inside the buffer. */
  function End(buf: seq<bv8>): int {
    |buf| - 7
  }

  /** One pass of the inner loop: how many frames chain from a start, and the offset where the chain stops. */
  datatype Run = Run(frames: nat, stop: nat)

  /**
   * The inner loop from offset p: count frames while the offset is below End
   * and a frame is there, advancing by each frame's length.
   */
  function RunFrom(buf: seq<bv8>, p: nat): (r: Run)
    ensures r.stop >= p + 7 * r.frames
    ensures r.frames == 0 <==> r.stop == p
    decreases |buf| - p
  {
    if p < End(buf) && FrameAt(buf, p) then
      var rest := RunFrom(buf, p + FrameLength(buf, p));
      Run(rest.frames + 1, rest.stop)
    else
      Run(0, p)
  }

  function Max(a: nat, b: nat): nat {
    if a < b then b else a
  }

  /**
   * The outer loop from start offset p: the longest run over the start offsets
   * it visits, each one past where the previous run stopped.
   */
  function MaxRunFrom(buf: seq<bv8>, p: nat): (r: nat)
    ensures p >= End(buf) ==> r == 0
    ensures p < End(buf) ==> RunFrom(buf, p).frames <= r
    decreases |buf| - p
  {
    if p < End(buf) then Max(RunFrom(buf, p).frames, MaxRunFrom(buf, RunFrom(buf, p).stop + 1))
    else 0
  }

  /**
   * The start offsets the outer loop from p visits: p itself when it is below
   * the end, then each offset one past where the previous run stopped.
   */
  predicate Visited(buf: seq<bv8>, p: nat, q: nat)
    decreases |buf| - p
  {
    p < End(buf) && (q == p || Visited(buf, RunFrom(buf, p).stop + 1, q))
  }

  /** first_frames: the run from offset 0, set only when offset 0 is examined. */
  function FirstFrames(buf: seq<bv8>): (r: nat)
    ensures r <= MaxFrames(buf)
  {
    if 0 < End(buf) then RunFrom(buf, 0).frames else 0
  }

  /** max_frames */
  function MaxFrames(buf: seq<bv8>): nat {
    MaxRunFrom(buf, 0)
  }

  /** The final ladder from the two counts to a score on the scale AVPROBE_SCORE_MAX. */
  function Score(firstFrames: nat, maxFrames: nat, scoreMax: int): (r: int)
    ensures r in {0, 1, scoreMax / 4, scoreMax / 2, scoreMax / 2 + 1}
    ensures scoreMax >= 4 ==> (r == 0 <==> firstFrames < 3 && maxFrames == 0)
  {
    if firstFrames >= 3 then scoreMax / 2 + 1
    else if maxFrames > 500 then scoreMax / 2
    else if maxFrames >= 3 then scoreMax / 4
    else if maxFrames >= 1 then 1
    else 0
  }

  /** What adts_aac_probe returns for a buffer, given AVPROBE_SCORE_MAX. */
  function ProbeScore(buf: seq<bv8>, scoreMax: int): (r: int)
    ensures scoreMax >= 4 ==> (r == 0 <==> MaxFrames(buf) == 0)
  {
    Score(FirstFrames(buf), MaxFrames(buf), scoreMax)
  }

  /** AV_RB16 on the array. */
  method ReadRB16(buf: array<bv8>, p: int) returns (w: bv16)
    requires 0 <= p && p + 2 <= buf.Length
    ensures w == RB16(buf[..], p)
    ensures w as int == 0x100 * (buf[p] as int) + buf[p + 1] as int
  {
    w := ((buf[p] as bv16) << 8) | (buf[p + 1] as bv16);
    RB16Value(buf[..], p);
  }

  /** AV_RB32 on the array. */
  method ReadRB32(buf: array<bv8>, p: int) returns (w: bv32)
    requires 0 <= p && p + 4 <= buf.Length
    ensures w == RB32(buf[..], p)
    ensures w as int ==
      0x100_0000 * (buf[p] as int) + 0x1_0000 * (buf[p + 1] as int) + 0x100 * (buf[p + 2] as int) + buf[p + 3] as int
  {
    w := ((buf[p] as bv32) << 24) | ((buf[p + 1] as bv32) << 16) | ((buf[p + 2] as bv32) << 8) | (buf[p + 3] as bv32);
    RB32Value(buf[..], p);
  }

  /**
   * The inner loop of adts_aac_probe: from offset start, count the frames that
   * chain while the offset stays below end; return the count and where it stopped.
   */
  method ChainFrames(buf: array<bv8>, start: nat) returns (frames: nat, pos: nat)
    ensures Run(frames, pos) == RunFrom(buf[..], start)
  {
    ghost var s := buf[..];
    var end := buf.Length - 7;
    pos, frames := start, 0;
    while pos < end
      invariant start <= pos
      invariant RunFrom(s, start) == Run(frames + RunFrom(s, pos).frames, RunFrom(s, pos).stop)
      decreases buf.Length - pos
    {
      var found, fsize := FrameHere(buf, pos);
      if !found {
        RunStop(s, pos);
        return;
      }
      RunAdvance(s, start, pos, frames);
      pos := pos + fsize;
      frames := frames + 1;
    }
    RunStop(s, pos);
  }

  /** The two tests of the inner loop at pos: a syncword there, and a frame_length of at least 7. */
  method FrameHere(buf: array<bv8>, pos: nat) returns (found: bool, fsize: nat)
    requires pos + 7 <= buf.Length
    ensures found <==> FrameAt(buf[..], pos)
    ensures found ==> fsize == FrameLength(buf[..], pos) && fsize >= 7
  {
    var header := ReadRB16(buf, pos);
    if !IsSyncWord(header) {
      return false, 0;
    }
    var word := ReadRB32(buf, pos + 3);
    fsize := LengthField(word);
    found := fsize >= 7;
  }

  /** The invariant of the inner loop survives one more frame. */
  lemma RunAdvance(buf: seq<bv8>, start: nat, p: nat, frames: nat)
    requires p < End(buf) && FrameAt(buf, p)
    requires RunFrom(buf, start) == Run(frames + RunFrom(buf, p).frames, RunFrom(buf, p).stop)
    ensures var q := p + FrameLength(buf, p);
      RunFrom(buf, start) == Run(frames + 1 + RunFrom(buf, q).frames, RunFrom(buf, q).stop)
  {
    RunStep(buf, p);
  }

  /** A run ends at the first offset that is past the end or holds no frame. */
  lemma {:induction false} RunStopsAtNoFrame(buf: seq<bv8>, p: nat)
    ensures RunFrom(buf, p).stop >= End(buf) || !FrameAt(buf, RunFrom(buf, p).stop)
    decreases |buf| - p
  {
    if p < End(buf) && FrameAt(buf, p) {
      RunStopsAtNoFrame(buf, p + FrameLength(buf, p));
    }
  }

  /** Where no frame continues the chain, the run from there is empty and stops there. */
  lemma RunStop(buf: seq<bv8>, p: nat)
    requires !(p < End(buf) && FrameAt(buf, p))
    ensures RunFrom(buf, p) == Run(0, p)
  {
  }

  /** A frame at p adds one to the run that follows it and stops where that run stops. */
  lemma RunStep(buf: seq<bv8>, p: nat)
    requires p < End(buf) && FrameAt(buf, p)
    ensures RunFrom(buf, p) ==
      Run(RunFrom(buf, p + FrameLength(buf, p)).frames + 1, RunFrom(buf, p + FrameLength(buf, p)).stop)
  {
  }

  /**
   * adts_aac_probe. The buffer is read and never written (there is no
   * modifies clause), and every read stays inside it.
   */
  method AdtsAacProbe(buf: array<bv8>, scoreMax: int) returns (score: int)
    ensures score == ProbeScore(buf[..], scoreMax)
  {
    ghost var s := buf[..];
    var maxFrames, firstFrames := 0, 0;
    var end := buf.Length - 7;
    var start := 0;
    while start < end
      invariant Max(maxFrames, MaxRunFrom(s, start)) == MaxFrames(s)
      invariant start == 0 ==> maxFrames == 0 && firstFrames == 0
      invariant start > 0 ==> firstFrames == FirstFrames(s)
      decreases buf.Length - start
    {
      var frames, stop := ChainFrames(buf, start);
      maxFrames := Max(maxFrames, frames);
      if start == 0 {
        firstFrames := frames;
      }
      start := stop + 1;
    }
    if firstFrames >= 3 {
      score := scoreMax / 2 + 1;
    } else if maxFrames > 500 {
      score := scoreMax / 2;
    } else if maxFrames >= 3 {
      score := scoreMax / 4;
    } else if maxFrames >= 1 {
      score := 1;
    } else {
      score := 0;
    }
  }

  /**
   * The probe returns one of five values, fixed by first_frames and max_frames
   * alone, and a run of three frames from offset 0 outranks everything else.
   */
  lemma ProbeScoreLevels(buf: seq<bv8>, scoreMax: int)
    ensures ProbeScore(buf, scoreMax) in {0, 1, scoreMax / 4, scoreMax / 2, scoreMax / 2 + 1}
    ensures FirstFrames(buf) >= 3 ==> ProbeScore(buf, scoreMax) == scoreMax / 2 + 1
    ensures FirstFrames(buf) < 3 && MaxFrames(buf) > 500 ==> ProbeScore(buf, scoreMax) == scoreMax / 2
    ensures FirstFrames(buf) < 3 && 3 <= MaxFrames(buf) <= 500 ==> ProbeScore(buf, scoreMax) == scoreMax / 4
    ensures FirstFrames(buf) < 3 && 1 <= MaxFrames(buf) < 3 ==> ProbeScore(buf, scoreMax) == 1
    ensures MaxFrames(buf) == 0 ==> ProbeScore(buf, scoreMax) == 0
  {
  }

  /** A buffer of fewer than 8 bytes has no offset below its end and scores 0. */
  lemma ShortBufferScoresZero(buf: seq<bv8>, scoreMax: int)
    requires |buf| < 8
    ensures FirstFrames(buf) == 0 && MaxFrames(buf) == 0
    ensures ProbeScore(buf, scoreMax) == 0
  {
  }

  /** Every start the outer loop from p visits has a run no longer than the longest one. */
  lemma {:induction false} MaxRunCoversRun(buf: seq<bv8>, p: nat, q: nat)
    requires Visited(buf, p, q)
    ensures RunFrom(buf, q).frames <= MaxRunFrom(buf, p)
    decreases |buf| - p
  {
    if q != p {
      MaxRunCoversRun(buf, RunFrom(buf, p).stop + 1, q);
    }
  }

  /** The longest run is the run of some start the outer loop from p visits. */
  lemma {:induction false} MaxRunAttained(buf: seq<bv8>, p: nat)
    requires p < End(buf)
    ensures exists q :: Visited(buf, p, q) && RunFrom(buf, q).frames == MaxRunFrom(buf, p)
    decreases |buf| - p
  {
    var next := RunFrom(buf, p).stop + 1;
    if next < End(buf) && RunFrom(buf, p).frames < MaxRunFrom(buf, next) {
      MaxRunAttained(buf, next);
      var q :| Visited(buf, next, q) && RunFrom(buf, q).frames == MaxRunFrom(buf, next);
      assert Visited(buf, p, q);
    } else {
      assert Visited(buf, p, p);
    }
  }

  /** max_frames is the longest run over the start offsets the scan from 0 visits. */
  lemma MaxFramesIsLongest(buf: seq<bv8>)
    ensures forall q :: Visited(buf, 0, q) ==> RunFrom(buf, q).frames <= MaxFrames(buf)
    ensures 0 < End(buf) ==> exists q :: Visited(buf, 0, q) && RunFrom(buf, q).frames == MaxFrames(buf)
  {
    forall q | Visited(buf, 0, q)
      ensures RunFrom(buf, q).frames <= MaxFrames(buf)
    {
      MaxRunCoversRun(buf, 0, q);
    }
    if 0 < End(buf) {
      MaxRunAttained(buf, 0);
    }
  }

  /**
   * The outer scan from p finds a frame if and only if a frame header starts at
   * some offset from p up to the last examined one.
   */
  lemma {:induction false} MaxRunPositiveIff(buf: seq<bv8>, p: nat)
    ensures MaxRunFrom(buf, p) > 0 <==> exists q :: p <= q < End(buf) && FrameAt(buf, q)
    decreases |buf| - p
  {
    if p < End(buf) {
      var r := RunFrom(buf, p);
      MaxRunPositiveIff(buf, r.stop + 1);
      if r.frames == 0 {
        assert r.stop + 1 == p + 1;
        if exists q :: p <= q < End(buf) && FrameAt(buf, q) {
          var q :| p <= q < End(buf) && FrameAt(buf, q);
          assert q != p;
        }
      } else {
        assert FrameAt(buf, p);
      }
    }
  }

  /** The probe scores 0 exactly when no ADTS frame starts at any examined offset. */
  lemma ProbeZeroIffNoFrame(buf: seq<bv8>, scoreMax: int)
    requires scoreMax >= 4
    ensures ProbeScore(buf, scoreMax) == 0 <==> forall q :: 0 <= q < End(buf) ==> !FrameAt(buf, q)
  {
    MaxRunPositiveIff(buf, 0);
  }

  /** Three chained frames from offset 0 give the strongest score. */
  lemma ThreeFramesFromStart(buf: seq<bv8>, scoreMax: int)
    requires 0 < End(buf) && FrameAt(buf, 0)
    requires FrameLength(buf, 0) < End(buf) && FrameAt(buf, FrameLength(buf, 0))
    requires FrameLength(buf, 0) + FrameLength(buf, FrameLength(buf, 0)) < End(buf)
    requires FrameAt(buf, FrameLength(buf, 0) + FrameLength(buf, FrameLength(buf, 0)))
    ensures ProbeScore(buf, scoreMax) == scoreMax / 2 + 1
  {
    var p1 := FrameLength(buf, 0);
    var p2 := p1 + FrameLength(buf, p1);
    RunStep(buf, p2);
    RunStep(buf, p1);
    RunStep(buf, 0);
  }

  /** The ADTS sampling frequencies (ISO/IEC 13818-7, table 35). */
  const ADTS_SAMPLE_RATES: seq<nat> :=
    [96000, 88200, 64000, 48000, 44100, 32000, 24000, 22050, 16000, 12000, 11025, 8000, 7350]

  /** The timebase denominator read_header sets. */
  const AAC_TIMEBASE_DEN: nat := 28224000

  /** 28224000 is a common multiple of every ADTS sampling rate, so a sample lasts a whole number of ticks. */
  lemma TimebaseDividesByEveryRate()
    ensures forall r | r in ADTS_SAMPLE_RATES :: AAC_TIMEBASE_DEN % r == 0
  {
  }

  /**
   * 28224000 is the least common multiple of the ADTS sampling rates: any
   * common multiple of them is a multiple of it. 64000 and 44100 alone force
   * this, since 64000 * 82 - 44100 * 119 == 100 == gcd(64000, 44100).
   */
  lemma TimebaseIsLeast(m: int)
    requires forall r | r in ADTS_SAMPLE_RATES :: m % r == 0
    ensures m % AAC_TIMEBASE_DEN == 0
  {
    assert m % 64000 == 0 && m % 44100 == 0 by {
      assert 64000 in ADTS_SAMPLE_RATES && 44100 in ADTS_SAMPLE_RATES;
    }
    var a, b := m / 64000, m / 44100;
    assert m == 64000 * a && m == 44100 * b;
    // 100 * m == m * (64000 * 82 - 44100 * 119)
    assert 100 * m == 82 * 64000 * (44100 * b) - 119 * 44100 * (64000 * a);
    assert 100 * m == 100 * AAC_TIMEBASE_DEN * (82 * b - 119 * a);
    assert m == AAC_TIMEBASE_DEN * (82 * b - 119 * a);
    DivModUnique(m, AAC_TIMEBASE_DEN, 82 * b - 119 * a, 0);
  }

  /** AVMEDIA_TYPE_* */
  datatype MediaType = Video | Audio | Data | Subtitle | Attachment | Unknown

  /** The codec ids this model names (CODEC_ID_*). */
  datatype CodecId = CodecNone | CodecAac

  /** AVSTREAM_PARSE_* */
  datatype ParseMode = ParseNone | ParseFull | ParseHeaders | ParseTimestamps

  /** The AVInputFormat fields that describe the demuxer. */
  datatype InputFormat = InputFormat(
    name: string, longName: string, extensions: string, genericIndex: bool, value: CodecId)

  /** ff_aac_demuxer; its probe, header and packet readers are AdtsAacProbe, ReadHeader and (not modelled) ff_raw_read_partial_packet. */
  const AAC_DEMUXER: InputFormat := InputFormat("aac", "raw ADTS AAC", "aac", true, CodecAac)

  /**
   * Opening a raw AAC file with ff_aac_demuxer: a context for the descriptor,
   * whose read_header is adts_aac_read_header.
   */
  method OpenAac(streamAllocated: bool) returns (ctx: FormatContext, ret: int)
    ensures fresh(ctx) && ctx.iformat == AAC_DEMUXER
    ensures !streamAllocated ==> ret == AVERROR_ENOMEM && ctx.streams == []
    ensures streamAllocated ==> ret == 0 && |ctx.streams| == 1
    ensures streamAllocated ==> var st := ctx.streams[0];
      st.index == 0 && st.codecType == Audio && st.codecId == CodecAac && st.needParsing == ParseFull
      && st.timeBase == Rational(1, AAC_TIMEBASE_DEN)
  {
    ctx := new FormatContext(AAC_DEMUXER);
    ret := ctx.ReadHeader(streamAllocated);
  }

  /** AVERROR(ENOMEM) on Linux. */
  const AVERROR_ENOMEM: int := -12

  /** An AVStream: the fields read_header and av_set_pts_info set. */
  class Stream {
    const index: nat
    const id: int
    var codecType: MediaType
    var codecId: CodecId
    var needParsing: ParseMode
    var ptsWrapBits: int
    var timeBase: Rational

    /** av_new_stream(s, id): a stream with the next index and no codec yet. */
    constructor (index: nat, id: int)
      ensures this.index == index && this.id == id
      ensures codecType == Unknown && codecId == CodecNone && needParsing == ParseNone
    {
      this.index := index;
      this.id := id;
      codecType := Unknown;
      codecId := CodecNone;
      needParsing := ParseNone;
      ptsWrapBits := 33;
      timeBase := Rational(0, 1);
    }
  }

  /** An AVFormatContext: the input format it was opened with and its streams. */
  class FormatContext {
    const iformat: InputFormat
    var streams: seq<Stream>

    constructor (iformat: InputFormat)
      ensures this.iformat == iformat && streams == []
    {
      this.iformat := iformat;
      streams := [];
    }

    /**
     * adts_aac_read_header. `streamAllocated` says whether av_new_stream found
     * memory; the ID3v1 tag read that follows is I/O and is not modelled.
     */
    method ReadHeader(streamAllocated: bool) returns (ret: int)
      modifies this
      ensures !streamAllocated ==> ret == AVERROR_ENOMEM && streams == old(streams)
      ensures streamAllocated ==> ret == 0 && |streams| == |old(streams)| + 1
      ensures streamAllocated ==> streams[..|old(streams)|] == old(streams)
      ensures streamAllocated ==> var st := streams[|streams| - 1];
        fresh(st) && st.index == |old(streams)| && st.id == 0
        && st.codecType == Audio && st.codecId == iformat.value && st.needParsing == ParseFull
        && st.ptsWrapBits == 64 && st.timeBase == Rational(1, AAC_TIMEBASE_DEN)
    {
      if !streamAllocated {
        return AVERROR_ENOMEM;
      }
      var st := new Stream(|streams|, 0);
      streams := streams + [st];
      st.codecType := Audio;
      st.codecId := iformat.value;
      st.needParsing := ParseFull;
      // av_set_pts_info(st, 64, 1, 28224000): 1/28224000 is already reduced
      st.ptsWrapBits := 64;
      st.timeBase := Rational(1, AAC_TIMEBASE_DEN);
      ret := 0;
    }
  }
}
