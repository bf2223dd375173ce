/** The control API of `class synth`: the calls the main program makes between
    interrupts. Each call is one atomic transition of the same state the
    interrupt updates; a call that only reads returns a value and leaves the
    state alone. Voice arguments that index a four-element array must be a
    voice number (the source indexes without a check); the calls that ignore
    their voice argument, and `setOctave`, which checks it, take any byte. */
module Synth {
  import opened Fixed
  import opened Rom
  import opened Patch
  import opened Engine

  // ---------------------------------------------------------------------------
  // Timing

  /** `synthTick`: true once per heartbeat, which it consumes. */
  function SynthTick(s: State): (r: (bool, State))
    ensures r.0 == s.sched.tik
    ensures !r.1.sched.tik
    ensures r.1 == s.(sched := s.sched.(tik := false))
    ensures !s.sched.tik ==> r.1 == s
  {
    var p := Poll(s.sched);
    (p.0, s.(sched := p.1))
  }

  /** Polling twice in a row never sees two heartbeats: the second call
      reports false and changes nothing. */
  lemma TickConsumed(s: State)
    ensures var r := SynthTick(s); SynthTick(r.1) == (false, r.1)
  {
  }

  /** `voiceFree`: whether the voice's envelope has run out (bit 15 of its
      accumulator, read as bit 7 of the upper byte). */
  function VoiceFree(s: State, voice: Voice): (b: bool)
    ensures b <==> s.epcw[voice] >= 0x8000
  {
    IsFree(s.epcw[voice])
  }

  // ---------------------------------------------------------------------------
  // Voice parameters

  /** `setWave`: selects the wave table by id, unknown ids giving sine. */
  function SetWave(s: State, voice: Voice, wave: u8): (r: State)
    ensures r.data.wavs[voice] == WaveFor(wave)
    ensures wave > 5 ==> r.data.wavs[voice] == Sine
    ensures forall u: Voice :: u != voice ==> r.data.wavs[u] == s.data.wavs[u]
    ensures r.(data := r.data.(wavs := s.data.wavs)) == s
  {
    s.(data := s.data.(wavs := s.data.wavs[voice := WaveFor(wave)]))
  }

  /** `setPitch`: the voice's unmodulated tuning word from the note table. */
  function SetPitch(rom: Rom, s: State, voice: Voice, note: u8): (r: State)
    requires note < 128
    ensures r.pitch[voice] == rom.pitchs(note)
    ensures forall u: Voice :: u != voice ==> r.pitch[u] == s.pitch[u]
    ensures r.(pitch := s.pitch) == s
  {
    s.(pitch := s.pitch[voice := rom.pitchs(note)])
  }

  /** `setEnvelope`: ids 2 .. 4 select the second to fourth tables; 1, 0 and
      every other id select the first. */
  function SetEnvelope(s: State, voice: Voice, env: u8): (r: State)
    ensures r.data.envs[voice] == EnvFor(env)
    ensures r.data.envs[voice] == Env0 <==> env !in {2, 3, 4}
    ensures forall u: Voice :: u != voice ==> r.data.envs[u] == s.data.envs[u]
    ensures r.(data := r.data.(envs := s.data.envs)) == s
  {
    s.(data := s.data.(envs := s.data.envs[voice := EnvFor(env)]))
  }

  /** `setLength`: the voice's envelope rate from the length table. */
  function SetLength(rom: Rom, s: State, voice: Voice, length: u8): (r: State)
    requires length < 128
    ensures r.data.eftw[voice] == rom.eftws(length)
    ensures forall u: Voice :: u != voice ==> r.data.eftw[u] == s.data.eftw[u]
    ensures r.(data := r.data.(eftw := s.data.eftw)) == s
  {
    s.(data := s.data.(eftw := s.data.eftw[voice := rom.eftws(length)]))
  }

  /** `setMod`: modulation depth centred on 64, which means none. */
  function SetMod(s: State, voice: Voice, mod: u8): (r: State)
    ensures r.data.mods[voice] as int + 64 == mod
    ensures r.data.mods[voice] == 0 <==> mod == 64
    ensures forall u: Voice :: u != voice ==> r.data.mods[u] == s.data.mods[u]
    ensures r.(data := r.data.(mods := s.data.mods)) == s
  {
    s.(data := s.data.(mods := s.data.mods[voice := mod - 64]))
  }

  /** `setFilterMod`: the shared filter-modulation depth, centred on 64; the
      voice argument is ignored. */
  function SetFilterMod(s: State, voice: u8, mod: u8): (r: State)
    ensures r.data.fmod as int + 64 == mod
    ensures r.(data := r.data.(fmod := s.data.fmod)) == s
  {
    s.(data := s.data.(fmod := mod - 64))
  }

  /** `setCutoff`: the shared filter cutoff; the voice argument is ignored. */
  function SetCutoff(s: State, voice: u8, cutoff: u8): (r: State)
    ensures r.data.cutoff == cutoff
    ensures r.(data := r.data.(cutoff := s.data.cutoff)) == s
  {
    s.(data := s.data.(cutoff := cutoff))
  }

  /** `setResonance`: the shared filter resonance; the voice argument is ignored. */
  function SetResonance(s: State, voice: u8, resonance: u8): (r: State)
    ensures r.data.resonance == resonance
    ensures r.(data := r.data.(resonance := s.data.resonance)) == s
  {
    s.(data := s.data.(resonance := resonance))
  }

  /** The calls on the shared filter act the same whatever voice they name. */
  lemma SharedSettersIgnoreVoice(s: State, a: u8, b: u8, x: u8)
    ensures SetFilterMod(s, a, x) == SetFilterMod(s, b, x)
    ensures SetCutoff(s, a, x) == SetCutoff(s, b, x)
    ensures SetResonance(s, a, x) == SetResonance(s, b, x)
  {
  }

  /** `setOctave`: the transposition in semitones, `oct * 12` narrowed to
      `int8_t`; a voice number of 4 or more is ignored. */
  function SetOctave(s: State, voice: u8, oct: i8): (r: State)
    ensures voice < 4 ==> (r.data.octave[voice] - oct * 12) % 0x100 == 0
    ensures voice < 4 && -10 <= oct <= 10 ==> r.data.octave[voice] == oct * 12
    ensures forall u: Voice :: u != voice ==> r.data.octave[u] == s.data.octave[u]
    ensures r.(data := r.data.(octave := s.data.octave)) == s
    ensures voice >= 4 ==> r == s
  {
    if voice < 4 then
      s.(data := s.data.(octave := s.data.octave[voice := ToI8(oct * 12)]))
    else
      s
  }

  /** `setupVoice`: wave, pitch, envelope, length and modulation of one voice
      in one call. `mod` arrives as an `unsigned int` and is passed on as an
      `unsigned char`, so only its low byte counts. */
  function SetupVoice(rom: Rom, s: State, voice: Voice, wave: u8, pitch: u8, env: u8,
                      length: u8, mod: u16): (r: State)
    requires pitch < 128 && length < 128
    ensures r.data.wavs[voice] == WaveFor(wave)
    ensures r.pitch[voice] == rom.pitchs(pitch)
    ensures r.data.envs[voice] == EnvFor(env)
    ensures r.data.eftw[voice] == rom.eftws(length)
    ensures r.data.mods[voice] == mod % 0x100 - 64
    ensures forall u: Voice :: u != voice ==>
      && r.pitch[u] == s.pitch[u] && r.data.wavs[u] == s.data.wavs[u]
      && r.data.envs[u] == s.data.envs[u] && r.data.eftw[u] == s.data.eftw[u]
      && r.data.mods[u] == s.data.mods[u]
    ensures r.data.fmod == s.data.fmod && r.data.octave == s.data.octave
    ensures r.data.cutoff == s.data.cutoff && r.data.resonance == s.data.resonance
    ensures r.sched == s.sched && r.pcw == s.pcw && r.ftw == s.ftw && r.amp == s.amp
    ensures r.epcw == s.epcw && r.t == s.t
  {
    var s1 := SetWave(s, voice, wave);
    var s2 := SetPitch(rom, s1, voice, pitch);
    var s3 := SetEnvelope(s2, voice, env);
    var s4 := SetLength(rom, s3, voice, length);
    SetMod(s4, voice, ToU8(mod))
  }

  /** A voice set up with a modulation value of 64 (or 64 plus a multiple of
      256) is unmodulated, so its tuning word never leaves its pitch. */
  lemma SetupWithoutModulation(rom: Rom, s: State, voice: Voice, wave: u8, pitch: u8, env: u8,
                               length: u8, mod: u16)
    requires pitch < 128 && length < 128 && mod % 0x100 == 64
    ensures SetupVoice(rom, s, voice, wave, pitch, env, length, mod).data.mods[voice] == 0
  {
  }

  // ---------------------------------------------------------------------------
  // Triggers

  /** `trigger`: restarts the voice's envelope and resets its tuning word to
      the unmodulated pitch. */
  function Trigger(s: State, voice: Voice): (r: State)
    ensures r.epcw[voice] == 0 && r.ftw[voice] == s.pitch[voice]
    ensures forall u: Voice :: u != voice ==> r.epcw[u] == s.epcw[u] && r.ftw[u] == s.ftw[u]
    ensures r.(epcw := s.epcw, ftw := s.ftw) == s
  {
    s.(epcw := s.epcw[voice := 0], ftw := s.ftw[voice := s.pitch[voice]])
  }

  /** A triggered voice is busy, whatever it was doing before. */
  lemma TriggerStartsVoice(s: State, voice: Voice)
    ensures !VoiceFree(Trigger(s, voice), voice)
  {
  }

  /** The note `mTrigger` plays: the MIDI note transposed by the voice's
      octave setting, wrapping as the `unsigned char` it is stored in. */
  function Transposed(s: State, voice: Voice, note: u8): (n: u8)
    ensures (n - (note + s.data.octave[voice])) % 0x100 == 0
    ensures 0 <= note + s.data.octave[voice] < 0x100 ==> n == note + s.data.octave[voice]
  {
    ToU8(note + s.data.octave[voice])
  }

  /** `mTrigger`: plays a MIDI note on a voice. The pitch comes from the note
      table at the transposed note, the envelope restarts, and the tuning word
      at `FTW[divider]` (the slot the interrupt modulates next, not
      necessarily the triggered voice's) is set from the new pitch with an
      envelope of 0. The transposed note must index the 128-entry table, and
      the divider must already be in 0 .. 3, which it is from the first
      interrupt on. */
  function MTrigger(rom: Rom, s: State, voice: Voice, note: u8): (r: State)
    requires Transposed(s, voice, note) < 128
    requires s.sched.divider < 4
    ensures r.pitch[voice] == rom.pitchs(Transposed(s, voice, note))
    ensures r.epcw[voice] == 0
    ensures r.ftw[s.sched.divider] == r.pitch[voice]
    ensures forall u: Voice :: u != voice ==> r.pitch[u] == s.pitch[u] && r.epcw[u] == s.epcw[u]
    ensures forall u: Voice :: u != s.sched.divider ==> r.ftw[u] == s.ftw[u]
    ensures r.(pitch := s.pitch, epcw := s.epcw, ftw := s.ftw) == s
  {
    var n := Transposed(s, voice, note);
    var pitch := s.pitch[voice := rom.pitchs(n)];
    var epcw := s.epcw[voice := 0];
    var d := s.sched.divider as int;
    s.(pitch := pitch, epcw := epcw,
       ftw := s.ftw[d := PitchMod(pitch[voice], epcw[voice], s.data.mods[voice])])
  }

  /** A voice started with `mTrigger` is busy. */
  lemma MTriggerStartsVoice(rom: Rom, s: State, voice: Voice, note: u8)
    requires Transposed(s, voice, note) < 128 && s.sched.divider < 4
    ensures !VoiceFree(MTrigger(rom, s, voice, note), voice)
  {
  }

  /** When the divider happens to select the triggered voice, `mTrigger`
      resets that voice's tuning word just as `trigger` does after `setPitch`. */
  lemma MTriggerOnSelectedVoice(rom: Rom, s: State, voice: Voice, note: u8)
    requires Transposed(s, voice, note) < 128 && s.sched.divider == voice
    ensures MTrigger(rom, s, voice, note)
         == Trigger(SetPitch(rom, s, voice, Transposed(s, voice, note)), voice)
  {
  }

  // ---------------------------------------------------------------------------
  // Patch dump

  /** `getDataLength`: the size of a dump, which is the size of every encoded
      record. */
  function DataLength(): (n: u8)
    ensures n == 40
    ensures forall p: VoiceData :: |Encode(p)| == n as int
  {
    DumpSize
  }

  /** `getDump`: copies the patch to the start of the caller's buffer when
      the stated length `len` can hold it, and leaves the buffer alone
      otherwise. The buffer holds at least `len` bytes. */
  function GetDump(s: State, buf: seq<u8>, len: u8): (r: seq<u8>)
    requires len as int <= |buf|
    ensures |r| == |buf|
    ensures len >= DumpSize ==> r[..DumpSize] == Encode(s.data) && r[DumpSize..] == buf[DumpSize..]
    ensures len < DumpSize ==> r == buf
  {
    if len >= DumpSize then Encode(s.data) + buf[DumpSize..] else buf
  }

  /** `setDump`: replaces the patch with the start of the buffer when the
      stated length is exactly the dump size, and changes nothing otherwise.
      The selector words of a dump must name tables (the source would install
      any address they hold). */
  function SetDump(s: State, buf: seq<u8>, len: u8): (r: State)
    requires len as int <= |buf|
    requires len == DumpSize ==> WellFormed(buf[..DumpSize])
    ensures len == DumpSize ==> Encode(r.data) == buf[..DumpSize]
    ensures r.(data := s.data) == s
    ensures len != DumpSize ==> r == s
  {
    if len == DumpSize then s.(data := Decode(buf[..DumpSize])) else s
  }

  /** Saving a patch and loading it back restores exactly the patch, whatever
      else the buffer held. */
  lemma {:induction false} DumpRoundTrip(s: State, buf: seq<u8>)
    requires |buf| >= DumpSize as int
    ensures var saved := GetDump(s, buf, DumpSize);
      SetDump(s.(data := Default()), saved, DumpSize).data == s.data
  {
    var saved := GetDump(s, buf, DumpSize);
    assert saved[..DumpSize] == Encode(s.data);
    DecodeEncode(s.data);
  }

  /** Loading a dump and saving the patch again writes back the same bytes. */
  lemma {:induction false} LoadSaveRoundTrip(s: State, buf: seq<u8>)
    requires |buf| >= DumpSize as int && WellFormed(buf[..DumpSize])
    ensures GetDump(SetDump(s, buf, DumpSize), buf, DumpSize) == buf
  {
    var r := SetDump(s, buf, DumpSize);
    var saved := GetDump(r, buf, DumpSize);
    assert saved[..DumpSize] == buf[..DumpSize] && saved[DumpSize..] == buf[DumpSize..];
    assert |saved| == |buf|;
    assert saved == saved[..DumpSize] + saved[DumpSize..];
  }
}
