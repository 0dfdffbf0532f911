/** The PWM beeper: writing a frequency to sysfs programs a square wave of that
    pitch, and frequency 0 silences it. */
module PwmBeeper {
  import opened Wrappers
  import opened Errno
  import opened Arith

  const NsecPerSec: nat := 1_000_000_000

  /** The kernel's 64-bit unsigned range, which the period and duty fields use. */
  const U64Limit: nat := 0x1_0000_0000_0000_0000

  datatype Polarity = Normal | Inversed

  /** The PWM state the driver keeps and hands to the PWM core: period and
      active time in nanoseconds, output polarity, on/off. */
  datatype PwmState = PwmState(period: nat, dutyCycle: nat, polarity: Polarity, enabled: bool)

  /** Unsigned division rounded to the nearest integer, halves rounded up:
      the kernel's round-closest macro for unsigned operands. */
  function DivRoundClosest(x: nat, d: nat): nat
    requires d > 0
  {
    (x + d / 2) / d
  }

  /** The period, in nanoseconds, of one cycle at `freq` hertz. */
  function PeriodNs(freq: u32): (p: nat)
    requires freq > 0
    ensures p < U64Limit
  {
    DivisionBounds(NsecPerSec + freq / 2, freq);
    DivRoundClosest(NsecPerSec, freq)
  }

  /** The state a nonzero frequency programs: the rounded period, half of it
      active, the board's polarity, output on. */
  function Tone(freq: u32, polarity: Polarity): (s: PwmState)
    requires freq > 0
    ensures s.enabled && s.dutyCycle <= s.period && s.polarity == polarity
    ensures s.period == PeriodNs(freq)
    ensures 2 * s.dutyCycle <= s.period <= 2 * s.dutyCycle + 1
  {
    var p := PeriodNs(freq);
    PwmState(p, p / 2, polarity, true)
  }

  /** The rounded quotient lies within half a divisor of the exact one. */
  lemma RoundClosestBounds(x: nat, d: nat)
    requires d > 0
    ensures DivRoundClosest(x, d) * d <= x + d / 2 < DivRoundClosest(x, d) * d + d
  {
    DivisionBounds(x + d / 2, d);
  }

  /** The period is the nearest whole number of nanoseconds: no other count of
      nanoseconds `q` gives a cycle closer to one second. */
  lemma {:induction false} PeriodIsNearest(freq: u32, q: nat)
    requires freq > 0
    ensures var e := PeriodNs(freq) * freq - NsecPerSec;
            var e' := q * freq - NsecPerSec;
            (if e < 0 then -e else e) <= (if e' < 0 then -e' else e')
  {
    var p := PeriodNs(freq);
    RoundClosestBounds(NsecPerSec, freq);
    var e := p * freq - NsecPerSec;
    assert -(freq - freq / 2) < e <= freq / 2;
    if q > p {
      MulMonotone(freq, 1, q - p);
      assert q * freq - NsecPerSec == e + (q - p) * freq;
    } else if q < p {
      MulMonotone(freq, 1, p - q);
      assert q * freq - NsecPerSec == e - (p - q) * freq;
    }
  }

  /** Frequencies above two billion round the period down to zero. */
  lemma PeriodZeroIff(freq: u32)
    requires freq > 0
    ensures PeriodNs(freq) == 0 <==> freq > 2 * NsecPerSec
  {
    var p := PeriodNs(freq);
    RoundClosestBounds(NsecPerSec, freq);
    if freq > 2 * NsecPerSec {
      assert NsecPerSec + freq / 2 < freq;
      if p >= 1 {
        MulMonotone(freq, 1, p);
      }
    } else {
      assert p * freq > 0;
    }
  }

  /** Sample periods: 1 Hz is one second, 440 Hz rounds 2272727.27 ns down,
      3 Hz rounds 333333333.3 ns down and 2 GHz rounds a half up. */
  lemma PeriodExamples()
    ensures PeriodNs(1) == NsecPerSec
    ensures PeriodNs(440) == 2272727
    ensures PeriodNs(3) == 333333333
    ensures PeriodNs(7) == 142857143
    ensures PeriodNs(2 * NsecPerSec) == 1
  {
  }

  /** The driver data: the PWM state it owns, the state last applied to the
      hardware, and the frequency shown back through sysfs. `boardPolarity` is
      the polarity the PWM lookup provides when the state is re-initialised. */
  class Beeper {
    var state: PwmState
    var applied: PwmState
    var freq: u32
    const boardPolarity: Polarity

    /** Duty never exceeds the period; a silent beeper is disabled, a sounding
        one holds exactly the tone for its frequency. */
    predicate Valid()
      reads this
    {
      state.dutyCycle <= state.period &&
      (freq == 0 ==> !state.enabled) &&
      (freq != 0 ==> state == Tone(freq, boardPolarity))
    }

    /** Probe: zero-filled driver data; `hardware` is whatever the PWM was
        left in, since probing applies nothing. */
    constructor Probe(polarity: Polarity, hardware: PwmState)
      ensures state == PwmState(0, 0, Normal, false) && freq == 0
      ensures applied == hardware && boardPolarity == polarity
      ensures Valid()
    {
      state := PwmState(0, 0, Normal, false);
      applied := hardware;
      freq := 0;
      boardPolarity := polarity;
    }

    /** Store to `freq`: `input` is the parsed number, None when the text does
        not parse. */
    method FreqStore(input: Option<u32>) returns (r: Result<()>)
      requires Valid()
      modifies this
      ensures Valid()
      ensures input.None? ==> r == Err(EInval) && state == old(state) && applied == old(applied) && freq == old(freq)
      ensures input == Some(0) ==>
                r == Ok(()) && freq == 0 && state == old(state).(enabled := false) && applied == state
      ensures input.Some? && input.value != 0 ==>
                r == Ok(()) && freq == input.value && state == Tone(freq, boardPolarity) && applied == state
    {
      if input.None? {
        return Err(EInval);
      }
      var f := input.value;
      if f == 0 {
        state := state.(enabled := false);
        applied := state;
        freq := 0;
        return Ok(());
      }
      var period := (NsecPerSec + f / 2) / f;
      // Re-initialising from the board's reference state fixes the polarity;
      // period, duty and the enable bit are then overwritten.
      state := PwmState(period, period / 2, boardPolarity, true);
      applied := state;
      freq := f;
      r := Ok(());
    }

    /** Remove: switch the output off and apply that. */
    method Remove()
      modifies this
      ensures state == old(state).(enabled := false) && applied == state && freq == old(freq)
    {
      state := state.(enabled := false);
      applied := state;
    }
  }

  /** Silencing then choosing the same pitch again restores the same tone. */
  method SilenceAndResume(b: Beeper, f: u32)
    requires b.Valid() && f > 0
    modifies b
    ensures b.Valid() && b.applied == Tone(f, b.boardPolarity) && b.freq == f
  {
    var _ := b.FreqStore(Some(0));
    assert !b.applied.enabled;
    var _ := b.FreqStore(Some(f));
  }
}
