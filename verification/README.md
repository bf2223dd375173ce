# MiniSynth sound engine in Dafny

This project models the four-voice wavetable synthesizer in `synth.h` of MiniSynth, an Arduino
(ATmega328, avr-gcc) library. It covers two parts:

- the 16 kHz audio interrupt `SIGNAL(TIMER1_COMPA_vect)`, which produces one sample per call;
- the `class synth` control API that the main program calls between interrupts.

Everything the interrupt and the API touch is one immutable record, `Engine.State`. It holds:

- the phase accumulators `PCW`, the tuning words `FTW`, the amplitudes `AMP` and the pitches `PITCH`;
- the envelope accumulators `EPCW`;
- the time division `divider`/`tik`;
- the filter state `t[0..2]`;
- the patch record `voiceData`.

One interrupt is the pure function `Engine.Step`. Each API call is a pure function from state to state. Both are taken as atomic transitions.

On this target `int` is 16 bits. All accumulator arithmetic is written out modulo 2^16 (`Fixed.ToU16`). The narrowings to `int8_t` and `int16_t` are two's-complement wrap-arounds (`Fixed.ToI8`, `Fixed.ToI16`). `>>` on negative values is an arithmetic shift, which is the floor division Dafny's `/` performs.

The lookup tables live in `tables.h`, which is not part of this model. They are a parameter `rom: Rom.Rom`: four total functions whose result types give the tables' ranges. The wave and envelope selectors, which the source stores as table addresses, are enumerations. `WaveUnset` and `EnvUnset` stand for the zero word that a fresh `voiceData` holds before `setWave`/`setEnvelope` run.

The patch dump is the 40-byte image of `voiceData`. It is written field by field in declaration order, little-endian, without padding. The selectors are stored as small codes: 0 for unset and table number + 1 otherwise.

Modules:

- `Fixed`: the C integer types and conversions.
- `Rom`: the selectors and the table parameter.
- `Patch`: `voiceData` and its dump encoding.
- `Engine`: one interrupt.
- `Playback`: many interrupts in a row.
- `Synth`: the API.

Where the code and its documentation disagree, the model follows the code:

- The filter is bypassed for `CUTOFF` 254 as well as 255 (synth.h:120), not only at 255.
- The envelope table is read at the upper byte of the accumulator *after* it advanced. That byte can be 128 or more (synth.h:101), so the index range is not 0 .. 127.
- `setEnvelope` switches on 1 .. 4 (synth.h:308-321), while the `ENVELOPE0` .. `ENVELOPE3` constants are 0 .. 3. As a result, `ENVELOPE0` and `ENVELOPE1` both select the first table, and the fourth table is reachable only through id 4.
- The mixed sample lies in -128 .. 126, not the ±127 the DAC comment states (synth.h:135). The one value -128 makes the DAC level `127 + sample` wrap to 255.
- `mTrigger` sets `FTW[divider]` (the voice the interrupt modulates next) rather than `FTW[voice]` (synth.h:365).
- `setupVoice` passes its `unsigned int` modulation argument to `setMod`, which takes an `unsigned char`, so only the low byte counts (synth.h:254-260).
- `divider` starts at 4 (synth.h:53), outside the 0 .. 3 it cycles through after the first interrupt.

## Model

| member | source | states |
|---|---|---|
| Fixed.ToU8 | synth.h:362 | conversion to `unsigned char`: congruent to the input modulo 256, and the input itself when it already fits |
| Fixed.ToU16 | synth.h:109 | conversion to 16-bit `unsigned int`: congruent modulo 2^16, identity on 0 .. 65535 |
| Fixed.ToI8 | synth.h:413 | narrowing to `int8_t`: congruent modulo 256, identity on -128 .. 127 |
| Fixed.ToI16 | synth.h:124 | narrowing to 16-bit `int`: congruent modulo 2^16, identity on -32768 .. 32767 |
| Fixed.HighByte | synth.h:100-101 | the byte at `((unsigned char*)&w)[1]` is the upper byte of the word: `256*r <= w < 256*r + 256` |
| Rom.WaveFor | synth.h:267-290 | `setWave`'s switch always selects a table, and every id above 5 falls back to sine |
| Rom.WaveId | synth.h:22-27 | the `SINE` .. `NOISE` constants are 0 .. 5 |
| Rom.WaveForId | synth.h:267-290 | the ids 0 .. 5 select distinct tables and every table has exactly one id; unknown ids behave like `SINE` |
| Rom.EnvFor | synth.h:304-324 | `setEnvelope` always selects a table, and it is the first table exactly when the id is not 2, 3 or 4 |
| Rom.EnvForIndex | synth.h:304-324 | id `k + 1` selects table `k` for k = 1 .. 3, every other id selects table 0, and ids 0 and 1 select the same table |
| Patch.Default | synth.h:64-78 | the struct initialisers: cutoff 255 (filter off), resonance 0, `FMOD` 64, no wave or envelope table selected |
| Patch.Encode | synth.h:420-427 | the image `getDump` copies has the dump size, and its selector words are valid selector codes |
| Patch.Decode | synth.h:433-440 | a well-formed 40-byte image loads into a record whose image is exactly those bytes |
| Patch.FieldsDetermineRecord | synth.h:64-78 | two records with the same 17 words and 6 bytes are equal, so the image determines the record |
| Patch.DecodeEncode | synth.h:420-440 | loading the image of a record gives the record back |
| Engine.Init | synth.h:41-60 | power-up state: divider 4, no heartbeat, all four voices free, the default patch |
| Engine.Advance | synth.h:92-94 | `divider` becomes `(divider + 1) mod 4` and `tik` is raised exactly when the new divider is 0; a raised `tik` stays up |
| Engine.Poll | synth.h:231-239 | the heartbeat is reported and cleared; the divider is untouched |
| Engine.HeartbeatCount | synth.h:92-94 | when the loop polls after every sample, `n` samples from divider `d` show `(d mod 4 + n) / 4` heartbeats |
| Engine.OneHeartbeatPerFourSamples | synth.h:236 | the heartbeat fires exactly once every four samples, from any start including the power-up divider 4 |
| Engine.IsFree | synth.h:100 | testing bit 7 of the upper byte of `EPCW` is the same as `EPCW >= 0x8000` |
| Engine.EnvelopeStep | synth.h:100-103 | only voice `d` changes; if active, its accumulator advances by `EFTW` modulo 2^16 and its amplitude is the envelope at the new upper byte; if free, it is held and silenced |
| Engine.Oscillate | synth.h:109-112 | every phase accumulator advances by its tuning word, modulo 2^16 |
| Engine.Scaled | synth.h:109 | `(sample * AMP) >> 8` lies in -128 .. 126 and is 0 when the amplitude or the sample is 0 |
| Engine.Mix | synth.h:108-113 | the mixed sample lies in -128 .. 126, and is 0 when every amplitude is 0 |
| Engine.Pole | synth.h:124-125 | a pole lies in -128 .. 127, and is the exact weighted average `>> 8` whenever the 16-bit sum does not overflow |
| Engine.RunPoles | synth.h:122-126 | the in-place pole loop equals the functional `Poles`: each pole is smoothed toward its successor's value from before the loop, and the last entry is untouched |
| Engine.Feedback | synth.h:127 | the feedback input is exactly `sample - ((t0 * RESONANCE) >> 8)` with no 16-bit wrap, and lies in -254 .. 255 |
| Engine.Filter | synth.h:120-129 | `CUTOFF >= 254` passes the sample through with the state held; otherwise the poles are updated in index order, the feedback uses the new first pole, and the output is the first pole |
| Engine.PoleOverflows | synth.h:124 | the 16-bit pole product does overflow: at cutoff 253, smoothing 127 toward 254 gives -4 instead of 252 |
| Engine.Depth | synth.h:141 | the envelope factor lies in 0 .. 511, is 0 while the envelope is below 64, and is the exact quotient when the unsigned product does not wrap |
| Engine.DepthWraps | synth.h:141 | the unsigned product does wrap: at `PITCH` 8192 and `EPCW` 0x8000 the envelope factor is 0 where exact arithmetic gives 512 |
| Engine.PitchMod | synth.h:141 | the new tuning word is `PITCH + Depth * MOD` reduced modulo 2^16, whatever the int wrap of the bend; it equals `PITCH` when `MOD` is 0 or the envelope is below 64 |
| Engine.DacLevel | synth.h:135 | the PWM level is `127 + sample` for samples from -127 up, and wraps to 255 for -128 |
| Engine.Step | synth.h:85-151 | one interrupt advances the divider modulo 4, raises `tik` on reaching 0, and leaves the pitches and the patch alone |
| Engine.StepOscillators | synth.h:108-113 | in one interrupt every voice's phase advances by its tuning word modulo 2^16 |
| Engine.StepEnvelope | synth.h:100-103 | in one interrupt only the envelope of the voice selected by the new divider moves, as `EnvelopeStep` describes |
| Engine.StepPitchMod | synth.h:141 | in one interrupt only `FTW` of the selected voice is recomputed, from its pitch and its freshly advanced envelope |
| Engine.StepFilter | synth.h:120-129 | the interrupt's sample is the mix of the advanced oscillators at the new amplitudes; at `CUTOFF >= 254` it passes unchanged with the filter state held, otherwise each pole is smoothed toward its successor's old value, the feedback input uses the new first pole, and the sample is that pole |
| Playback.StepKeepsFree | synth.h:100-103 | an interrupt leaves a free voice's envelope accumulator where it was |
| Playback.FreeStaysFree | synth.h:100-103 | a free voice stays free through any number of interrupts, so only a trigger restarts it |
| Playback.StepKeepsSilent | synth.h:100-103 | an interrupt keeps a free, silenced voice free and silent |
| Playback.SilentStaysSilent | synth.h:100-103 | a free, silenced voice stays silent through any number of interrupts |
| Playback.StepKeepsTuning | synth.h:108-141 | an unmodulated voice whose tuning word is its pitch keeps it through an interrupt, and its phase advances by the pitch |
| Playback.AccumulateIsModular | synth.h:109-112 | `n` wrapping additions of a tuning word `t` give `a + n*t` modulo 2^16 |
| Playback.FullCycle | synth.h:109-112 | with tuning word 256 from phase 0, sample `k` of 1 .. 256 reads wave entry `k mod 256`, so 256 samples read each entry exactly once |
| Synth.SynthTick | synth.h:231-239 | returns whether the heartbeat was up and clears it; without a heartbeat the state is unchanged |
| Synth.TickConsumed | synth.h:231-239 | a second poll right after a first reports no heartbeat and changes nothing |
| Synth.VoiceFree | synth.h:241-246 | a voice is free exactly when its envelope accumulator is at least 0x8000 |
| Synth.SetWave | synth.h:267-290 | sets this voice's wave to the table its id selects (sine for unknown ids); every other voice and field is unchanged |
| Synth.SetPitch | synth.h:295-298 | this voice's pitch becomes the note table entry; nothing else changes |
| Synth.SetEnvelope | synth.h:304-324 | this voice's envelope is the first table exactly when the id is not 2 .. 4; nothing else changes |
| Synth.SetLength | synth.h:330-333 | this voice's envelope rate becomes the length table entry; nothing else changes |
| Synth.SetMod | synth.h:339-343 | the stored depth plus 64 is the argument, so 64 and only 64 means no modulation; nothing else changes |
| Synth.SetFilterMod | synth.h:349-354 | the stored filter depth plus 64 is the argument; nothing else changes |
| Synth.SetCutoff | synth.h:392-395 | stores the cutoff; nothing else changes |
| Synth.SetResonance | synth.h:401-404 | stores the resonance; nothing else changes |
| Synth.SharedSettersIgnoreVoice | synth.h:349-404 | `setFilterMod`, `setCutoff` and `setResonance` give the same state whatever voice they are passed |
| Synth.SetOctave | synth.h:410-414 | for a voice below 4, stores `oct * 12` modulo 256, exactly for octaves -10 .. 10; any other voice number changes nothing |
| Synth.SetupVoice | synth.h:254-261 | sets wave, pitch, envelope, length and modulation (low byte of `mod`) of the voice; the other voices' settings and every shared field are unchanged |
| Synth.SetupWithoutModulation | synth.h:254-261 | a voice set up with modulation 64 (modulo 256) gets depth 0, i.e. no pitch modulation |
| Synth.Trigger | synth.h:456-461 | restarts the voice's envelope and resets its tuning word to its pitch; nothing else changes |
| Synth.TriggerStartsVoice | synth.h:456-461 | a triggered voice is not free |
| Synth.Transposed | synth.h:362 | the played note is `note + octave` wrapped to an `unsigned char` |
| Synth.MTrigger | synth.h:360-366 | the voice's pitch is the note table at the transposed note, its envelope restarts, and `FTW[divider]` (not `FTW[voice]`) becomes that pitch; nothing else changes |
| Synth.MTriggerStartsVoice | synth.h:360-366 | a voice started by `mTrigger` is not free |
| Synth.MTriggerOnSelectedVoice | synth.h:360-366 | when the divider selects the triggered voice, `mTrigger` is `setPitch` of the transposed note followed by `trigger` |
| Synth.DataLength | synth.h:446-449 | the dump size is 40, the size of every record's image |
| Synth.GetDump | synth.h:420-427 | with room for 40 bytes, the buffer starts with the patch image and keeps its tail; with less, it is untouched |
| Synth.SetDump | synth.h:433-440 | a length of exactly 40 loads the patch whose image is the buffer's first 40 bytes; any other length changes nothing; only the patch ever changes |
| Synth.DumpRoundTrip | synth.h:420-440 | saving a patch and loading it back restores exactly that patch, whatever else the buffer held |
| Synth.LoadSaveRoundTrip | synth.h:420-440 | loading a well-formed dump and saving again writes back the very same buffer |

## Left out

- `begin`, `begin(d)`, `suspend`, `resume`, `disable`, the `PORTD` timing-pin toggles and the `OCR2A`/`OCR2B` register write are timer and PWM register I/O. The DAC level is exposed as the pure `Engine.DacLevel` instead.
- `setFrequency` and `setTime` compute with floating point, which is not modelled.
- The `volatile` sharing between the interrupt and the main program (torn reads, `sei()`) is not modelled. Every interrupt and every API call is one atomic transition.
- The contents of `tables.h` (`PITCHS`, `EFTWS`, the wave and envelope tables) are not part of this model. The tables are a parameter known only by their ranges.
- Raw table addresses in `wavs`/`envs` are replaced by selector enumerations. The byte extraction `((unsigned char*)&x)[1]` is replaced by division by 256.
- The `tim` counter is only ever incremented and never read, so the state does not carry it.
- Filter modulation is a TODO in the interrupt (synth.h:144-148). `FMOD` is stored and dumped but has no effect.
- Synth.SetWave, Synth.SetPitch, Synth.SetEnvelope, Synth.SetLength, Synth.SetMod, Synth.Trigger, Synth.MTrigger and Synth.VoiceFree take a voice of type `Voice` (0 .. 3). The source indexes its four-element arrays without a check, so a larger voice number writes outside them.
- Synth.SetPitch, Synth.SetLength and Synth.SetupVoice require notes and lengths below 128. The source reads past its 128-entry tables otherwise.
- Synth.MTrigger requires the transposed note to be below 128, for the same reason. It also requires the divider to be below 4: before the first interrupt the divider is 4 and `FTW[divider]` lies outside the array.
- Synth.SetDump requires the selector words of a 40-byte buffer to be valid selector codes. The source copies whatever addresses the bytes hold into the patch.
- Engine.Step states only the time division and the untouched fields. The other stages are stated by Engine.StepOscillators, Engine.StepEnvelope, Engine.StepPitchMod and Engine.StepFilter.
- Playback.StepKeepsTuning covers one interrupt. The accumulated phase of an unmodulated voice over many interrupts is stated through Playback.AccumulateIsModular on the accumulator alone, not over a run of full interrupts.
- A triggered voice becoming free again when its envelope crosses 0x8000 is not proved over a run of interrupts. VoiceFree and StepEnvelope state it for one reading and one step.
