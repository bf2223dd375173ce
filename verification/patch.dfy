/** The patch record `voiceData` (every parameter a patch saves) and its flat
    40-byte dump, laid out field by field in declaration order, little-endian,
    with no padding, as the 8-bit target lays out the struct. */
module Patch {
  import opened Fixed
  import opened Rom

  type Waves4 = s: seq<Wave> | |s| == 4 witness [WaveUnset, WaveUnset, WaveUnset, WaveUnset]
  type Envelopes4 = s: seq<Envelope> | |s| == 4 witness [EnvUnset, EnvUnset, EnvUnset, EnvUnset]

  /** `struct voiceData`, field for field. */
  datatype VoiceData = VoiceData(
    mods: I16x4,         // MOD: pitch-modulation depth per voice, 0 = none
    fmod: i16,           // FMOD: filter-modulation depth, stored but never read
    wavs: Waves4,        // wave table per voice
    envs: Envelopes4,    // envelope table per voice
    eftw: U16x4,         // EFTW: envelope rate per voice
    octave: I8x4,        // semitone offset per voice, applied by mTrigger
    cutoff: u8,          // CUTOFF: 254 and 255 bypass the filter
    resonance: u8)       // RESONANCE: filter feedback

  /** The initial `voiceData`: the initialisers of the struct, zero elsewhere. */
  function Default(): (p: VoiceData)
    ensures p.cutoff == 255 && p.resonance == 0 && p.fmod == 64
    ensures forall v :: 0 <= v < 4 ==> p.wavs[v] == WaveUnset && p.envs[v] == EnvUnset
  {
    VoiceData([20, 0, 64, 127], 64,
              [WaveUnset, WaveUnset, WaveUnset, WaveUnset],
              [EnvUnset, EnvUnset, EnvUnset, EnvUnset],
              [10, 10, 10, 10], [0, 0, 0, 0], 255, 0)
  }

  /** `sizeof(voiceData)`: 4 + 1 + 4 + 4 + 4 two-byte words, 4 + 2 single bytes. */
  const DumpSize: u8 := 40

  // ---------------------------------------------------------------------------
  // Field encodings

  /** A 16-bit word as it sits in memory: low byte first. */
  function WordBytes(w: u16): (b: seq<u8>)
    ensures |b| == 2 && b[0] + 0x100 * (b[1] as int) == w
  {
    [LowByte(w), HighByte(w)]
  }

  /** The 16-bit word stored at offset `i`. */
  function WordAt(b: seq<u8>, i: nat): u16
    requires i + 1 < |b|
  {
    b[i] + 0x100 * (b[i + 1] as int)
  }

  /** Reinterpreting a stored word as `int`. */
  function Int16Of(w: u16): (x: i16)
    ensures ToU16(x) == w
  {
    if w < 0x8000 then w else w - 0x1_0000
  }

  /** Storing an `int` and reading it back gives the same value. */
  lemma Int16RoundTrip(x: i16)
    ensures Int16Of(ToU16(x)) == x
  {
  }

  /** Reinterpreting a stored byte as `int8_t`. */
  function Int8Of(b: u8): (x: i8)
    ensures ToU8(x) == b
  {
    if b < 0x80 then b else b - 0x100
  }

  /** Storing an `int8_t` and reading it back gives the same value. */
  lemma Int8RoundTrip(x: i8)
    ensures Int8Of(ToU8(x)) == x
  {
  }

  /** The word a wave selector is stored as: 0 for the unset selector, one
      above the wave's id otherwise. */
  function WaveCode(w: Wave): (c: u16)
    ensures c <= 6
    ensures w != WaveUnset ==> c == WaveId(w) + 1
  {
    if w == WaveUnset then 0 else WaveId(w) + 1
  }

  /** The wave selector a stored word names. */
  function WaveOfCode(c: u16): (w: Wave)
    requires c <= 6
    ensures WaveCode(w) == c
  {
    match c
    case 0 => WaveUnset
    case 1 => Sine
    case 2 => Triangle
    case 3 => Square
    case 4 => Saw
    case 5 => Ramp
    case 6 => Noise
  }

  /** Distinct wave selectors are stored as distinct words. */
  lemma WaveCodeInjective(a: Wave, b: Wave)
    requires WaveCode(a) == WaveCode(b)
    ensures a == b
  {
  }

  /** The word an envelope selector is stored as: 0 for the unset selector, one
      above the table's position otherwise. */
  function EnvCode(e: Envelope): (c: u16)
    ensures c <= 4
    ensures e != EnvUnset ==> c == EnvIndex(e) + 1
  {
    if e == EnvUnset then 0 else EnvIndex(e) + 1
  }

  /** The envelope selector a stored word names. */
  function EnvOfCode(c: u16): (e: Envelope)
    requires c <= 4
    ensures EnvCode(e) == c
  {
    match c
    case 0 => EnvUnset
    case 1 => Env0
    case 2 => Env1
    case 3 => Env2
    case 4 => Env3
  }

  /** Distinct envelope selectors are stored as distinct words. */
  lemma EnvCodeInjective(a: Envelope, b: Envelope)
    requires EnvCode(a) == EnvCode(b)
    ensures a == b
  {
  }

  /** Words laid out low byte first, one after another. */
  function WordsToBytes(ws: seq<u16>): (b: seq<u8>)
    ensures |b| == 2 * |ws|
  {
    seq(2 * |ws|, i requires 0 <= i < 2 * |ws| =>
      if i % 2 == 0 then LowByte(ws[i / 2]) else HighByte(ws[i / 2]))
  }

  /** A word assembled from two bytes splits back into them. */
  lemma SplitWord(lo: u8, hi: u8)
    ensures LowByte(lo + 0x100 * hi) == lo && HighByte(lo + 0x100 * hi) == hi
  {
  }

  /** Word `j` of the laid-out bytes is `ws[j]`. */
  lemma WordOfBytes(ws: seq<u16>, j: nat)
    requires j < |ws|
    ensures WordAt(WordsToBytes(ws), 2 * j) == ws[j]
  {
    var b := WordsToBytes(ws);
    assert (2 * j) / 2 == j && (2 * j) % 2 == 0;
    assert (2 * j + 1) / 2 == j && (2 * j + 1) % 2 == 1;
    assert b[2 * j] == LowByte(ws[j]) && b[2 * j + 1] == HighByte(ws[j]);
  }

  /** Byte `i` of the words read from `b` is byte `i` of `b`. */
  lemma ReassembledByte(b: seq<u8>, ws: seq<u16>, i: nat)
    requires 2 * |ws| <= |b| && i < 2 * |ws|
    requires forall j :: 0 <= j < |ws| ==> ws[j] == WordAt(b, 2 * j)
    ensures WordsToBytes(ws)[i] == b[i]
  {
    var j := i / 2;
    assert ws[j] == b[2 * j] + 0x100 * (b[2 * j + 1] as int);
    SplitWord(b[2 * j], b[2 * j + 1]);
    if i % 2 == 0 {
      assert i == 2 * j;
      assert WordsToBytes(ws)[i] == LowByte(ws[j]);
    } else {
      assert i == 2 * j + 1;
      assert WordsToBytes(ws)[i] == HighByte(ws[j]);
    }
  }

  /** The first `n` words of a byte block. */
  function BytesToWords(b: seq<u8>, n: nat): (ws: seq<u16>)
    requires 2 * n <= |b|
    ensures |ws| == n
    ensures WordsToBytes(ws) == b[..2 * n]
  {
    var ws := seq(n, j requires 0 <= j < n => WordAt(b, 2 * j));
    forall i | 0 <= i < 2 * n
      ensures WordsToBytes(ws)[i] == b[i]
    {
      ReassembledByte(b, ws, i);
    }
    ws
  }

  /** Bytes appended after the laid-out words leave every word readable. */
  lemma WordsBeforeTail(ws: seq<u16>, tail: seq<u8>)
    ensures forall j :: 0 <= j < |ws| ==> WordAt(WordsToBytes(ws) + tail, 2 * j) == ws[j]
  {
    var wb := WordsToBytes(ws);
    forall j | 0 <= j < |ws|
      ensures WordAt(wb + tail, 2 * j) == ws[j]
    {
      assert (wb + tail)[2 * j] == wb[2 * j] && (wb + tail)[2 * j + 1] == wb[2 * j + 1];
      WordOfBytes(ws, j);
    }
  }

  /** Laying out words loses nothing: equal layouts come from equal words. */
  lemma WordsToBytesInjective(a: seq<u16>, c: seq<u16>)
    requires |a| == |c| && WordsToBytes(a) == WordsToBytes(c)
    ensures a == c
  {
    forall j | 0 <= j < |a|
      ensures a[j] == c[j]
    {
      WordOfBytes(a, j);
      WordOfBytes(c, j);
    }
  }

  // ---------------------------------------------------------------------------
  // The dump

  /** The seventeen 16-bit fields in declaration order: MOD[0..3], FMOD,
      wavs[0..3], envs[0..3], EFTW[0..3]. */
  function Words(p: VoiceData): (ws: seq<u16>)
    ensures |ws| == 17
  {
    [ToU16(p.mods[0]), ToU16(p.mods[1]), ToU16(p.mods[2]), ToU16(p.mods[3]),
     ToU16(p.fmod),
     WaveCode(p.wavs[0]), WaveCode(p.wavs[1]), WaveCode(p.wavs[2]), WaveCode(p.wavs[3]),
     EnvCode(p.envs[0]), EnvCode(p.envs[1]), EnvCode(p.envs[2]), EnvCode(p.envs[3]),
     p.eftw[0], p.eftw[1], p.eftw[2], p.eftw[3]]
  }

  /** The six single-byte fields: octave[0..3], CUTOFF, RESONANCE. */
  function Bytes(p: VoiceData): (bs: seq<u8>)
    ensures |bs| == 6
  {
    [ToU8(p.octave[0]), ToU8(p.octave[1]), ToU8(p.octave[2]), ToU8(p.octave[3]),
     p.cutoff, p.resonance]
  }

  /** The byte layout of `voiceData`:
      MOD 0..7, FMOD 8..9, wavs 10..17, envs 18..25, EFTW 26..33,
      octave 34..37, CUTOFF 38, RESONANCE 39. */
  function Encode(p: VoiceData): (b: seq<u8>)
    ensures |b| == DumpSize as int
    ensures WellFormed(b)
  {
    var ws := Words(p);
    var b := WordsToBytes(ws) + Bytes(p);
    WordsBeforeTail(ws, Bytes(p));
    SelectorWordsBounded(p);
    b
  }

  /** The selector words of every record are selector codes. */
  lemma SelectorWordsBounded(p: VoiceData)
    ensures forall j :: 5 <= j < 9 ==> Words(p)[j] <= 6
    ensures forall j :: 9 <= j < 13 ==> Words(p)[j] <= 4
  {
    var ws := Words(p);
    assert ws[5] <= 6 && ws[6] <= 6 && ws[7] <= 6 && ws[8] <= 6;
    assert ws[9] <= 4 && ws[10] <= 4 && ws[11] <= 4 && ws[12] <= 4;
  }

  /** A block of the dump size whose selector words name tables. */
  predicate WellFormed(b: seq<u8>)
  {
    && |b| == DumpSize as int
    && (forall j :: 5 <= j < 9 ==> WordAt(b, 2 * j) <= 6)
    && (forall j :: 9 <= j < 13 ==> WordAt(b, 2 * j) <= 4)
  }

  /** Four signed words read back from their stored form. */
  function Int16Quad(a: u16, b: u16, c: u16, d: u16): (q: I16x4)
    ensures ToU16(q[0]) == a && ToU16(q[1]) == b && ToU16(q[2]) == c && ToU16(q[3]) == d
  {
    [Int16Of(a), Int16Of(b), Int16Of(c), Int16Of(d)]
  }

  /** Four wave selectors read back from their codes. */
  function WaveQuad(a: u16, b: u16, c: u16, d: u16): (q: Waves4)
    requires a <= 6 && b <= 6 && c <= 6 && d <= 6
    ensures WaveCode(q[0]) == a && WaveCode(q[1]) == b && WaveCode(q[2]) == c && WaveCode(q[3]) == d
  {
    [WaveOfCode(a), WaveOfCode(b), WaveOfCode(c), WaveOfCode(d)]
  }

  /** Four envelope selectors read back from their codes. */
  function EnvQuad(a: u16, b: u16, c: u16, d: u16): (q: Envelopes4)
    requires a <= 4 && b <= 4 && c <= 4 && d <= 4
    ensures EnvCode(q[0]) == a && EnvCode(q[1]) == b && EnvCode(q[2]) == c && EnvCode(q[3]) == d
  {
    [EnvOfCode(a), EnvOfCode(b), EnvOfCode(c), EnvOfCode(d)]
  }

  /** Four signed bytes read back from their stored form. */
  function Int8Quad(a: u8, b: u8, c: u8, d: u8): (q: I8x4)
    ensures ToU8(q[0]) == a && ToU8(q[1]) == b && ToU8(q[2]) == c && ToU8(q[3]) == d
  {
    [Int8Of(a), Int8Of(b), Int8Of(c), Int8Of(d)]
  }

  /** Builds the record from its seventeen words and six bytes. */
  function FromFields(ws: seq<u16>, bs: seq<u8>): (p: VoiceData)
    requires |ws| == 17 && |bs| == 6
    requires forall j :: 5 <= j < 9 ==> ws[j] <= 6
    requires forall j :: 9 <= j < 13 ==> ws[j] <= 4
    ensures Words(p) == ws && Bytes(p) == bs
  {
    assert ws[5] <= 6 && ws[6] <= 6 && ws[7] <= 6 && ws[8] <= 6;
    assert ws[9] <= 4 && ws[10] <= 4 && ws[11] <= 4 && ws[12] <= 4;
    var p := VoiceData(
      Int16Quad(ws[0], ws[1], ws[2], ws[3]),
      Int16Of(ws[4]),
      WaveQuad(ws[5], ws[6], ws[7], ws[8]),
      EnvQuad(ws[9], ws[10], ws[11], ws[12]),
      [ws[13], ws[14], ws[15], ws[16]],
      Int8Quad(bs[0], bs[1], bs[2], bs[3]),
      bs[4], bs[5]);
    WordsFromFields(p, ws);
    BytesFromFields(p, bs);
    p
  }

  /** The words of a record whose fields each encode to the given word. */
  lemma WordsFromFields(p: VoiceData, ws: seq<u16>)
    requires |ws| == 17
    requires ToU16(p.mods[0]) == ws[0] && ToU16(p.mods[1]) == ws[1]
    requires ToU16(p.mods[2]) == ws[2] && ToU16(p.mods[3]) == ws[3]
    requires ToU16(p.fmod) == ws[4]
    requires WaveCode(p.wavs[0]) == ws[5] && WaveCode(p.wavs[1]) == ws[6]
    requires WaveCode(p.wavs[2]) == ws[7] && WaveCode(p.wavs[3]) == ws[8]
    requires EnvCode(p.envs[0]) == ws[9] && EnvCode(p.envs[1]) == ws[10]
    requires EnvCode(p.envs[2]) == ws[11] && EnvCode(p.envs[3]) == ws[12]
    requires p.eftw == ws[13..]
    ensures Words(p) == ws
  {
  }

  /** The bytes of a record whose fields each encode to the given byte. */
  lemma BytesFromFields(p: VoiceData, bs: seq<u8>)
    requires |bs| == 6
    requires ToU8(p.octave[0]) == bs[0] && ToU8(p.octave[1]) == bs[1]
    requires ToU8(p.octave[2]) == bs[2] && ToU8(p.octave[3]) == bs[3]
    requires p.cutoff == bs[4] && p.resonance == bs[5]
    ensures Bytes(p) == bs
  {
  }

  /** Reads a well-formed dump back into a record. */
  function Decode(b: seq<u8>): (p: VoiceData)
    requires WellFormed(b)
    ensures Encode(p) == b
  {
    var ws := BytesToWords(b, 17);
    assert forall j :: 0 <= j < 17 ==> ws[j] == WordAt(b, 2 * j);
    var p := FromFields(ws, b[34..]);
    assert b == b[..34] + b[34..];
    p
  }

  /** Two equal-length-four sequences that agree at every position are equal. */
  lemma SameQuad<T>(a: seq<T>, b: seq<T>)
    requires |a| == 4 && |b| == 4
    requires a[0] == b[0] && a[1] == b[1] && a[2] == b[2] && a[3] == b[3]
    ensures a == b
  {
  }

  /** The record's fields determine its words and bytes, so `Encode` is one-to-one. */
  lemma {:induction false} FieldsDetermineRecord(p: VoiceData, q: VoiceData)
    requires Words(p) == Words(q) && Bytes(p) == Bytes(q)
    ensures p == q
  {
    var wp, wq, bp, bq := Words(p), Words(q), Bytes(p), Bytes(q);
    assert wp[0] == wq[0] && wp[1] == wq[1] && wp[2] == wq[2] && wp[3] == wq[3];
    Int16RoundTrip(p.mods[0]); Int16RoundTrip(q.mods[0]);
    Int16RoundTrip(p.mods[1]); Int16RoundTrip(q.mods[1]);
    Int16RoundTrip(p.mods[2]); Int16RoundTrip(q.mods[2]);
    Int16RoundTrip(p.mods[3]); Int16RoundTrip(q.mods[3]);
    SameQuad(p.mods, q.mods);
    assert wp[4] == wq[4];
    Int16RoundTrip(p.fmod); Int16RoundTrip(q.fmod);
    assert wp[5] == wq[5] && wp[6] == wq[6] && wp[7] == wq[7] && wp[8] == wq[8];
    WaveCodeInjective(p.wavs[0], q.wavs[0]);
    WaveCodeInjective(p.wavs[1], q.wavs[1]);
    WaveCodeInjective(p.wavs[2], q.wavs[2]);
    WaveCodeInjective(p.wavs[3], q.wavs[3]);
    SameQuad(p.wavs, q.wavs);
    assert wp[9] == wq[9] && wp[10] == wq[10] && wp[11] == wq[11] && wp[12] == wq[12];
    EnvCodeInjective(p.envs[0], q.envs[0]);
    EnvCodeInjective(p.envs[1], q.envs[1]);
    EnvCodeInjective(p.envs[2], q.envs[2]);
    EnvCodeInjective(p.envs[3], q.envs[3]);
    SameQuad(p.envs, q.envs);
    assert wp[13] == wq[13] && wp[14] == wq[14] && wp[15] == wq[15] && wp[16] == wq[16];
    SameQuad(p.eftw, q.eftw);
    assert bp[0] == bq[0] && bp[1] == bq[1] && bp[2] == bq[2] && bp[3] == bq[3];
    Int8RoundTrip(p.octave[0]); Int8RoundTrip(q.octave[0]);
    Int8RoundTrip(p.octave[1]); Int8RoundTrip(q.octave[1]);
    Int8RoundTrip(p.octave[2]); Int8RoundTrip(q.octave[2]);
    Int8RoundTrip(p.octave[3]); Int8RoundTrip(q.octave[3]);
    SameQuad(p.octave, q.octave);
    assert bp[4] == bq[4] && bp[5] == bq[5];
  }

  /** Saving then loading a record gives the record back. */
  lemma {:induction false} DecodeEncode(p: VoiceData)
    ensures Decode(Encode(p)) == p
  {
    var b := Encode(p);
    var ws := BytesToWords(b, 17);
    assert b[..34] == WordsToBytes(Words(p));
    WordsToBytesInjective(ws, Words(p));
    assert b[34..] == Bytes(p);
    FieldsDetermineRecord(p, Decode(b));
  }
}
