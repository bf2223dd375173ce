/** The program-memory lookup tables the synthesizer reads, and the selectors
    that choose among them. The table contents live in a header that is not part
    of this model, so the tables are a parameter: a record of total functions
    whose result types carry the ranges the tables are known to have. */
module Rom {
  import opened Fixed

  /** A wave selector (`voiceData.wavs[v]`). The source stores the address of a
      table; the model stores which table. `WaveUnset` is the zero word a fresh
      `voiceData` holds before `setWave` runs: it addresses program memory 0,
      not a wave table. */
  datatype Wave = WaveUnset | Sine | Triangle | Square | Saw | Ramp | Noise

  /** An envelope selector (`voiceData.envs[v]`); `EnvUnset` as for `WaveUnset`. */
  datatype Envelope = EnvUnset | Env0 | Env1 | Env2 | Env3

  /** A MIDI-range index into the 128-entry note and length tables. */
  type Note = n: int | 0 <= n < 128

  /** The lookup tables, indexed as the interrupt and the setters index them.
      - `wave(w, i)`: signed sample at the upper phase byte `i` of wave `w`
      - `env(e, i)`: amplitude at the upper envelope byte `i`; `i` may exceed
        127 because the index is taken after the accumulator has advanced
      - `pitchs(n)`: tuning word of MIDI note `n` (`PITCHS`)
      - `eftws(n)`: envelope rate of length `n` (`EFTWS`) */
  datatype Rom = Rom(
    wave: (Wave, u8) -> i8,
    env: (Envelope, u8) -> u8,
    pitchs: Note -> u16,
    eftws: Note -> u16)

  /** The wave a `setWave` id selects: the ids of `SINE` .. `NOISE` (0 .. 5),
      with every other id falling back to the sine table. */
  function WaveFor(id: u8): (w: Wave)
    ensures w != WaveUnset
    ensures id > 5 ==> w == Sine
  {
    match id
    case 1 => Triangle
    case 2 => Square
    case 3 => Saw
    case 4 => Ramp
    case 5 => Noise
    case _ => Sine
  }

  /** The source's id constant for a wave table (`SINE` = 0 .. `NOISE` = 5). */
  function WaveId(w: Wave): (id: u8)
    requires w != WaveUnset
    ensures id <= 5
  {
    match w
    case Sine => 0
    case Triangle => 1
    case Square => 2
    case Saw => 3
    case Ramp => 4
    case Noise => 5
  }

  /** Every wave table has exactly one id, and an unknown id means sine. */
  lemma WaveForId(id: u8)
    ensures WaveId(WaveFor(id)) == if id <= 5 then id else 0
    ensures forall w: Wave :: w != WaveUnset ==> WaveFor(WaveId(w)) == w
  {
  }

  /** The envelope a `setEnvelope` id selects. Ids 2, 3, 4 select the second,
      third and fourth tables; 1 and every other id select the first. */
  function EnvFor(id: u8): (e: Envelope)
    ensures e != EnvUnset
    ensures e == Env0 <==> id !in {2, 3, 4}
  {
    match id
    case 1 => Env0
    case 2 => Env1
    case 3 => Env2
    case 4 => Env3
    case _ => Env0
  }

  /** Position of an envelope table (`Env0` = 0 .. `Env3` = 3). */
  function EnvIndex(e: Envelope): (k: u8)
    requires e != EnvUnset
    ensures k <= 3
  {
    match e
    case Env0 => 0
    case Env1 => 1
    case Env2 => 2
    case Env3 => 3
  }

  /** `setEnvelope` ids are one above the table positions: id `k + 1` selects
      table `k` for `k` in 1 .. 3, and every id that is not 2, 3 or 4 selects
      table 0, so the `ENVELOPE0` constant (0) and id 1 select the same table. */
  lemma EnvForIndex(id: u8)
    ensures 2 <= id <= 4 ==> EnvIndex(EnvFor(id)) == id - 1
    ensures !(2 <= id <= 4) ==> EnvIndex(EnvFor(id)) == 0
    ensures EnvFor(0) == EnvFor(1)
  {
  }
}
