/** The audio interrupt `SIGNAL(TIMER1_COMPA_vect)`: one call produces one
    sample. The state it reads and writes is one immutable record; one interrupt
    is the pure function `Step`, taken as one atomic transition. */
module Engine {
  import opened Fixed
  import opened Rom
  import opened Patch

  /** The filter state `t[NUM_POLES + 1]` with `NUM_POLES` = 2. */
  type I16x3 = s: seq<i16> | |s| == 3 witness [0, 0, 0]

  /** Time division: the sample-rate decimator `divider` and the heartbeat `tik`. */
  datatype Sched = Sched(divider: u8, tik: bool)

  /** Everything the interrupt touches. */
  datatype State = State(
    sched: Sched,
    pcw: U16x4,        // PCW: wave phase accumulators
    ftw: U16x4,        // FTW: wave tuning words
    amp: U8x4,         // AMP: voice amplitudes
    pitch: U16x4,      // PITCH: unmodulated tuning words
    epcw: U16x4,       // EPCW: envelope phase accumulators
    t: I16x3,          // shared filter poles and feedback input
    data: VoiceData)   // the patch

  /** One interrupt's result: the next state and the sample sent to the DAC. */
  datatype Output = Output(next: State, sample: i8)

  /** The state at power-up: the global initialisers, zero elsewhere. The
      divider starts at 4, outside the 0 .. 3 it cycles through afterwards. */
  function Init(): (s: State)
    ensures s.sched.divider == 4 && !s.sched.tik
    ensures forall v :: 0 <= v < 4 ==> IsFree(s.epcw[v])
    ensures s.data == Default()
  {
    State(Sched(4, false), [0, 0, 0, 0], [1000, 200, 300, 400], [255, 255, 255, 255],
          [500, 500, 500, 500], [0x8000, 0x8000, 0x8000, 0x8000], [0, 0, 0], Default())
  }

  // ---------------------------------------------------------------------------
  // Time division

  /** `divider++` on an `unsigned char`, then `divider &= 0x03`; a zero result
      raises `tik`, which stays up until it is polled. */
  function Advance(sc: Sched): (r: Sched)
    ensures r.divider < 4 && r.divider == (sc.divider + 1) % 4
    ensures r.tik <==> sc.tik || r.divider == 0
  {
    var d := ToU8(sc.divider + 1) % 4;
    if d == 0 then Sched(d, true) else sc.(divider := d)
  }

  /** `synthTick`: reports the heartbeat and clears it. */
  function Poll(sc: Sched): (r: (bool, Sched))
    ensures r.0 == sc.tik
    ensures !r.1.tik && r.1.divider == sc.divider
  {
    if sc.tik then (true, sc.(tik := false)) else (false, sc)
  }

  /** How many of `n` polls report a heartbeat when the control loop polls
      once after every sample. */
  function HeartbeatsSeen(sc: Sched, n: nat): nat
    decreases n
  {
    if n == 0 then 0
    else
      var p := Poll(Advance(sc));
      (if p.0 then 1 else 0) + HeartbeatsSeen(p.1, n - 1)
  }

  /** Polled once per sample, the heartbeat is seen once for each multiple of
      four the divider passes: `n` samples from divider `d` give
      `(d mod 4 + n) / 4` heartbeats. */
  lemma {:induction false} HeartbeatCount(sc: Sched, n: nat)
    requires !sc.tik
    ensures HeartbeatsSeen(sc, n) == (sc.divider % 4 + n) / 4
    decreases n
  {
    if n > 0 {
      var p := Poll(Advance(sc));
      var m := sc.divider % 4;
      NextQuarter(sc.divider);
      assert p.1.divider == (m + 1) % 4 && !p.1.tik;
      assert p.0 <==> m == 3;
      assert HeartbeatsSeen(sc, n) == (if p.0 then 1 else 0) + HeartbeatsSeen(p.1, n - 1);
      HeartbeatCount(p.1, n - 1);
      QuarterStep(m, p.1.divider, n);
    }
  }

  /** Counting modulo 4 from a reduced or an unreduced start agrees. */
  lemma NextQuarter(x: int)
    ensures (x + 1) % 4 == (x % 4 + 1) % 4
  {
    assert x + 1 == 4 * (x / 4) + (x % 4 + 1);
  }

  /** The arithmetic of one step of `HeartbeatCount`. */
  lemma QuarterStep(m: int, d: int, n: int)
    requires 0 <= m < 4 && d == (m + 1) % 4 && n > 0
    ensures (if m == 3 then 1 else 0) + (d % 4 + n - 1) / 4 == (m + n) / 4
  {
    if m == 3 {
      assert d == 0;
      assert (m + n) / 4 == 1 + (n - 1) / 4;
    } else {
      assert d % 4 == m + 1;
    }
  }

  /** Hence the heartbeat fires exactly once every four samples, from any
      divider value, the power-up value 4 included. */
  lemma OneHeartbeatPerFourSamples(sc: Sched, k: nat)
    requires !sc.tik
    ensures HeartbeatsSeen(sc, 4 * k) == k
  {
    HeartbeatCount(sc, 4 * k);
  }

  // ---------------------------------------------------------------------------
  // Volume envelope generator

  /** A voice is free (silent, ready for a new note) when bit 7 of the upper
      byte of its envelope accumulator is set. */
  function IsFree(epcw: u16): (b: bool)
    ensures b <==> epcw >= 0x8000
  {
    (HighByte(epcw) / 0x80) % 2 == 1
  }

  /** Advances the envelope of voice `d` alone: an active accumulator steps by
      the voice's rate and the amplitude is read at the upper byte of the new
      value (which may be 128 or more); a free voice is forced silent. */
  function EnvelopeStep(rom: Rom, data: VoiceData, epcw: U16x4, amp: U8x4, d: nat): (r: (U16x4, U8x4))
    requires d < 4
    ensures forall v :: 0 <= v < 4 && v != d ==> r.0[v] == epcw[v] && r.1[v] == amp[v]
    ensures !IsFree(epcw[d]) ==>
      && r.0[d] == (epcw[d] as int + data.eftw[d]) % 0x1_0000
      && r.1[d] == rom.env(data.envs[d], r.0[d] / 0x100)
    ensures IsFree(epcw[d]) ==> r.0[d] == epcw[d] && r.1[d] == 0
  {
    if !IsFree(epcw[d]) then
      var e := ToU16(epcw[d] as int + data.eftw[d]);
      (epcw[d := e], amp[d := rom.env(data.envs[d], HighByte(e))])
    else
      (epcw, amp[d := 0])
  }

  // ---------------------------------------------------------------------------
  // Oscillators and mixer

  /** `PCW[v] += FTW[v]` for all four voices, in 16-bit unsigned arithmetic. */
  function Oscillate(pcw: U16x4, ftw: U16x4): (r: U16x4)
    ensures forall v :: 0 <= v < 4 ==> (r[v] - (pcw[v] as int + ftw[v])) % 0x1_0000 == 0
  {
    [ToU16(pcw[0] as int + ftw[0]), ToU16(pcw[1] as int + ftw[1]),
     ToU16(pcw[2] as int + ftw[2]), ToU16(pcw[3] as int + ftw[3])]
  }

  /** Bounds of a signed 8-bit sample scaled by an 8-bit amplitude. */
  lemma ScaledBounds(w: i8, a: u8)
    ensures -128 * 255 <= w * a <= 127 * 255
  {
    if w >= 0 {
      assert w * a <= 127 * a;
    } else {
      assert w * a >= -128 * a;
    }
  }

  /** One voice's contribution `(sample * AMP) >> 8`; `>>` on a negative `int`
      is an arithmetic shift, which is floor division. */
  function Scaled(w: i8, a: u8): (r: int)
    ensures -128 <= r <= 126
    ensures a == 0 || w == 0 ==> r == 0
  {
    ScaledBounds(w, a);
    (w * a) / 0x100
  }

  /** The mixer: four scaled voices summed, then `>> 2` for headroom. The wave
      sample of voice `v` is read at the upper byte of its phase accumulator. */
  function Mix(rom: Rom, wavs: Waves4, pcw: U16x4, amp: U8x4): (r: i8)
    ensures -128 <= r <= 126
    ensures (forall v :: 0 <= v < 4 ==> amp[v] == 0) ==> r == 0
  {
    var sum := Scaled(rom.wave(wavs[0], HighByte(pcw[0])), amp[0])
             + Scaled(rom.wave(wavs[1], HighByte(pcw[1])), amp[1])
             + Scaled(rom.wave(wavs[2], HighByte(pcw[2])), amp[2])
             + Scaled(rom.wave(wavs[3], HighByte(pcw[3])), amp[3]);
    ToI8(sum / 4)
  }

  // ---------------------------------------------------------------------------
  // Resonant low-pass filter

  /** One pole: `x = t[i]*(255-CUTOFF) + t[i+1]*CUTOFF` in 16-bit `int`, which
      can overflow and then wraps, and `t[i] = x >> 8`. */
  function Pole(a: i16, b: i16, cutoff: u8): (r: i16)
    ensures -128 <= r <= 127
    ensures -0x8000 <= a * (255 - cutoff) + b * cutoff < 0x8000 ==>
      r == (a * (255 - cutoff) + b * cutoff) / 0x100
  {
    ToI16(a * (255 - cutoff) + b * cutoff) / 0x100
  }

  /** What the pole loop leaves in `t`: pole `i` smoothed toward the value
      `t[i+1]` had BEFORE the loop, and the last entry untouched. */
  function Poles(t: seq<i16>, cutoff: u8): (r: seq<i16>)
    ensures |r| == |t|
  {
    seq(|t|, i requires 0 <= i < |t| => if i + 1 < |t| then Pole(t[i], t[i + 1], cutoff) else t[i])
  }

  /** The pole loop `for (i = 0; i < NUM_POLES; i++) t[i] = ...` run in place
      over `NUM_POLES + 1` filter entries. Because pole `i` is written before
      pole `i + 1` is read, each pole still sees its successor's old value. */
  method RunPoles(t: seq<i16>, cutoff: u8) returns (r: seq<i16>)
    requires |t| >= 1
    ensures r == Poles(t, cutoff)
  {
    r := t;
    var i := 0;
    while i < |t| - 1
      invariant 0 <= i <= |t| - 1 && |r| == |t|
      invariant forall j :: 0 <= j < i ==> r[j] == Pole(t[j], t[j + 1], cutoff)
      invariant forall j :: i <= j < |t| ==> r[j] == t[j]
    {
      r := r[i := Pole(r[i], r[i + 1], cutoff)];
      i := i + 1;
    }
  }

  /** The feedback input `t[NUM_POLES] = sample - ((t[0] * RESONANCE) >> 8)`.
      The product and the difference are 16-bit `int`, but neither can wrap:
      the result is exact and stays within -254 .. 255. */
  function Feedback(x: i8, t0: i16, resonance: u8): (r: i16)
    requires -128 <= t0 <= 127
    ensures r == x - (t0 * resonance) / 0x100
    ensures -254 <= r <= 255
  {
    ScaledBounds(t0, resonance);
    var product := ToI16(t0 * resonance);
    assert product == t0 * resonance;
    var shifted := product / 0x100;
    assert -128 <= shifted <= 127;
    assert -0x8000 <= x - shifted < 0x8000;
    ToI16(x - shifted)
  }

  /** The filter stage's result: the new filter state and the output sample. */
  datatype Filtered = Filtered(t: I16x3, out: i8)

  /** The shared filter. `CUTOFF` of 254 or 255 bypasses it; otherwise the two
      poles are updated in index order, the feedback input `t[2]` is refilled
      from the input and the NEW first pole, and the first pole, which always
      fits in `int8_t`, is the output. */
  function Filter(t: I16x3, cutoff: u8, resonance: u8, x: i8): (r: Filtered)
    ensures cutoff >= 254 ==> r.t == t && r.out == x
    ensures cutoff < 254 ==>
      && r.t[0] == Poles(t, cutoff)[0] && r.t[1] == Poles(t, cutoff)[1]
      && r.t[2] == x - (r.t[0] * resonance) / 0x100
      && r.out == r.t[0]
  {
    if cutoff >= 254 then Filtered(t, x)
    else
      var p := Poles(t, cutoff);
      var t0 := p[0];
      Filtered([t0, p[1], Feedback(x, t0, resonance)], ToI8(t0))
  }

  /** The 16-bit `int` products in the pole update do overflow: smoothing the
      second pole toward 254 at cutoff 253 gives -4 where exact arithmetic
      would give 252. */
  lemma PoleOverflows()
    ensures 127 * (255 - 253) + 254 * 253 >= 0x8000
    ensures Pole(127, 254, 253) == -4
    ensures (127 * (255 - 253) + 254 * 253) / 0x100 == 252
  {
  }

  // ---------------------------------------------------------------------------
  // Pitch modulation engine

  /** The envelope-scaled factor `((PITCH>>6) * (EPCW>>6)) / 128`; the product
      is `unsigned int` and wraps modulo 2^16 before the division. */
  function Depth(pitch: u16, epcw: u16): (q: int)
    ensures 0 <= q < 512
    ensures epcw < 64 ==> q == 0
    ensures (pitch / 64) * (epcw / 64) < 0x1_0000 ==> q == (pitch / 64) * (epcw / 64) / 128
  {
    ToU16((pitch / 64) * (epcw / 64)) / 128
  }

  /** The unsigned product does wrap: at `PITCH` 8192 and `EPCW` 0x8000 it is
      exactly 2^16, so the bend vanishes where exact arithmetic would give a
      factor of 512. */
  lemma DepthWraps()
    ensures (8192 / 64) * (0x8000 / 64) == 0x1_0000
    ensures Depth(8192, 0x8000) == 0
    ensures (8192 / 64) * (0x8000 / 64) / 128 == 512
  {
  }

  /** `PITCH + (int)Depth * MOD`: the bend is a 16-bit `int` product, which may
      wrap, and the sum is converted to `unsigned int`. The wrap of the bend
      never matters: the result is the exact sum reduced modulo 2^16. */
  function PitchMod(pitch: u16, epcw: u16, mod: i16): (f: u16)
    ensures f == (pitch + Depth(pitch, epcw) * mod) % 0x1_0000
    ensures mod == 0 || epcw < 64 ==> f == pitch
  {
    var y := Depth(pitch, epcw) * mod;
    SameRemainder(pitch + y, pitch + ToI16(y), 0x1_0000);
    ToU16(pitch + ToI16(y))
  }

  // ---------------------------------------------------------------------------
  // The interrupt

  /** `OCR2A = OCR2B = 127 + sample`: the level written to the 8-bit PWM
      compare registers. Silence is 127; the one sample below -127 wraps to
      the top of the range. */
  function DacLevel(sample: i8): (level: u8)
    ensures sample >= -127 ==> level == 127 + sample
    ensures sample == -128 ==> level == 255
  {
    ToU8(127 + sample)
  }

  /** One interrupt, in the order of the source: time division, the envelope of
      the selected voice, all four oscillators, the mixer, the filter, and the
      pitch modulation of the selected voice. The lemmas below state what each
      stage does to the state. */
  function Step(rom: Rom, s: State): (r: Output)
    ensures r.next.sched.divider == (s.sched.divider + 1) % 4
    ensures r.next.sched.tik <==> s.sched.tik || r.next.sched.divider == 0
    ensures r.next.pitch == s.pitch && r.next.data == s.data
  {
    var sched := Advance(s.sched);
    var d := sched.divider as int;
    var env := EnvelopeStep(rom, s.data, s.epcw, s.amp, d);
    var pcw := Oscillate(s.pcw, s.ftw);
    var mixed := Mix(rom, s.data.wavs, pcw, env.1);
    var filtered := Filter(s.t, s.data.cutoff, s.data.resonance, mixed);
    var ftw := s.ftw[d := PitchMod(s.pitch[d], env.0[d], s.data.mods[d])];
    Output(State(sched, pcw, ftw, env.1, s.pitch, env.0, filtered.t, s.data), filtered.out)
  }

  /** Every oscillator advances by its tuning word, wrapping at 2^16. */
  lemma StepOscillators(rom: Rom, s: State)
    ensures forall v: Voice :: Step(rom, s).next.pcw[v] == (s.pcw[v] as int + s.ftw[v]) % 0x1_0000
  {
  }

  /** Only the envelope of the voice the divider selects moves: an active one
      advances and sets the amplitude from the envelope table, a free one is
      held and silenced. */
  lemma StepEnvelope(rom: Rom, s: State)
    ensures var r := Step(rom, s).next; var d := r.sched.divider as int;
      && (forall v: Voice :: v != d ==> r.epcw[v] == s.epcw[v] && r.amp[v] == s.amp[v])
      && (!IsFree(s.epcw[d]) ==>
            && r.epcw[d] == (s.epcw[d] as int + s.data.eftw[d]) % 0x1_0000
            && r.amp[d] == rom.env(s.data.envs[d], r.epcw[d] / 0x100))
      && (IsFree(s.epcw[d]) ==> r.epcw[d] == s.epcw[d] && r.amp[d] == 0)
  {
  }

  /** Only the tuning word of the selected voice is recomputed, from its pitch
      and its freshly advanced envelope. */
  lemma StepPitchMod(rom: Rom, s: State)
    ensures var r := Step(rom, s).next; var d := r.sched.divider as int;
      r.ftw == s.ftw[d := PitchMod(s.pitch[d], r.epcw[d], s.data.mods[d])]
  {
  }

  /** The sample is the mix of the advanced oscillators at the new amplitudes,
      passed through the filter: unchanged, with the filter state held, when
      `CUTOFF` is 254 or 255; otherwise each pole is smoothed toward its
      successor's old value, the feedback input is computed from the freshly
      updated first pole, and that pole is the output. */
  lemma StepFilter(rom: Rom, s: State)
    ensures var r := Step(rom, s); var x := Mix(rom, s.data.wavs, r.next.pcw, r.next.amp);
      && (s.data.cutoff >= 254 ==> r.next.t == s.t && r.sample == x)
      && (s.data.cutoff < 254 ==>
            && r.next.t[0] == Pole(s.t[0], s.t[1], s.data.cutoff)
            && r.next.t[1] == Pole(s.t[1], s.t[2], s.data.cutoff)
            && r.next.t[2] == x - (r.next.t[0] * s.data.resonance) / 0x100
            && r.sample == r.next.t[0])
  {
  }
}
