/** The interrupt run for many samples in a row: what the phase accumulators
    and the free voices do over time. */
module Playback {
  import opened Fixed
  import opened Rom
  import opened Engine

  // ---------------------------------------------------------------------------
  // Iteration

  /** `f` applied `n` times to `x`. */
  function Iterate(f: State -> State, x: State, n: nat): State
    decreases n
  {
    if n == 0 then x else Iterate(f, f(x), n - 1)
  }

  /** A property that `f` preserves holds after any number of applications. */
  lemma {:induction false} Invariant(f: State -> State, p: State -> bool, x: State, n: nat)
    requires p(x)
    requires forall y :: p(y) ==> p(f(y))
    ensures p(Iterate(f, x, n))
    decreases n
  {
    if n > 0 {
      Invariant(f, p, f(x), n - 1);
    }
  }

  /** One interrupt, as a state transition. */
  function Next(rom: Rom): State -> State
  {
    s => Step(rom, s).next
  }

  /** The state after `n` interrupts. */
  function Steps(rom: Rom, s: State, n: nat): State
  {
    Iterate(Next(rom), s, n)
  }

  // ---------------------------------------------------------------------------
  // Free voices

  /** One interrupt leaves a free voice's envelope where it was. */
  lemma StepKeepsFree(rom: Rom, s: State, v: Voice)
    requires IsFree(s.epcw[v])
    ensures Step(rom, s).next.epcw[v] == s.epcw[v]
  {
    StepEnvelope(rom, s);
  }

  /** A free voice stays free: no interrupt moves its envelope accumulator,
      so only a trigger can start it again. */
  lemma FreeStaysFree(rom: Rom, s: State, v: Voice, n: nat)
    requires IsFree(s.epcw[v])
    ensures Steps(rom, s, n).epcw[v] == s.epcw[v]
  {
    var e := s.epcw[v];
    var held := (y: State) => y.epcw[v] == e;
    forall y | held(y)
      ensures held(Next(rom)(y))
    {
      StepKeepsFree(rom, y, v);
    }
    Invariant(Next(rom), held, s, n);
  }

  /** One interrupt leaves a free, silent voice free and silent. */
  lemma StepKeepsSilent(rom: Rom, s: State, v: Voice)
    requires IsFree(s.epcw[v]) && s.amp[v] == 0
    ensures Step(rom, s).next.epcw[v] == s.epcw[v] && Step(rom, s).next.amp[v] == 0
  {
    StepEnvelope(rom, s);
  }

  /** A free voice that has been silenced stays silent. */
  lemma SilentStaysSilent(rom: Rom, s: State, v: Voice, n: nat)
    requires IsFree(s.epcw[v]) && s.amp[v] == 0
    ensures Steps(rom, s, n).amp[v] == 0
  {
    var e := s.epcw[v];
    var silent := (y: State) => y.epcw[v] == e && y.amp[v] == 0;
    forall y | silent(y)
      ensures silent(Next(rom)(y))
    {
      StepKeepsSilent(rom, y, v);
    }
    Invariant(Next(rom), silent, s, n);
  }

  // ---------------------------------------------------------------------------
  // Phase accumulation

  /** An unmodulated voice whose tuning word is its pitch keeps it through an
      interrupt, and its phase accumulator advances by the pitch. */
  lemma StepKeepsTuning(rom: Rom, s: State, v: Voice)
    requires s.ftw[v] == s.pitch[v] && s.data.mods[v] == 0
    ensures var s1 := Step(rom, s).next;
      && s1.ftw[v] == s1.pitch[v] == s.pitch[v]
      && s1.data == s.data
      && s1.pcw[v] == Accumulate(s.pcw[v], s.pitch[v], 1)
  {
    StepOscillators(rom, s);
    StepPitchMod(rom, s);
  }

  /** A phase accumulator after `n` additions of tuning word `t`. */
  function Accumulate(a: u16, t: u16, n: nat): u16
    decreases n
  {
    if n == 0 then a else Accumulate((a as int + t) % 0x1_0000, t, n - 1)
  }

  /** The arithmetic of one step of `AccumulateIsModular`. */
  lemma OneMoreAddition(a: u16, t: u16, n: nat)
    requires n > 0
    ensures (((a as int + t) % 0x1_0000) + (n - 1) * t) % 0x1_0000 == (a + n * t) % 0x1_0000
  {
    var m := (n - 1) * t;
    ReduceLeft(a as int + t, m);
    assert a + t + m == a + n * t;
  }

  /** Accumulation is exact modular addition: `n` wrapping additions of `t`
      give `a + n * t` modulo 2^16. */
  lemma {:induction false} AccumulateIsModular(a: u16, t: u16, n: nat)
    ensures Accumulate(a, t, n) == (a + n * t) % 0x1_0000
    decreases n
  {
    if n > 0 {
      AccumulateIsModular((a as int + t) % 0x1_0000, t, n - 1);
      OneMoreAddition(a, t, n);
    }
  }

  /** The phase after `k` additions of 256 from 0, for `k` up to a full cycle. */
  lemma CycleArithmetic(k: nat)
    requires 1 <= k <= 256
    ensures ((k * 256) % 0x1_0000) / 0x100 == k % 256
  {
    if k == 256 {
      assert (k * 256) % 0x1_0000 == 0;
    } else {
      assert (k * 256) % 0x1_0000 == k * 256;
    }
  }

  /** With a tuning word of 256 from phase 0, sample `k` (1 .. 256) reads wave
      entry `k mod 256`: 256 samples read every table entry exactly once. */
  lemma FullCycle(k: nat)
    requires 1 <= k <= 256
    ensures HighByte(Accumulate(0, 256, k)) == k % 256
  {
    AccumulateIsModular(0, 256, k);
    CycleArithmetic(k);
  }
}
