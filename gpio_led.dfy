/** The RGB blink driver: a timer toggles an on/off phase and three GPIO lines
    show the configured colour while the phase is on. Sysfs stores change the
    blink period and the colour. */
module GpioLed {
  import opened Wrappers
  import opened Errno

  /** Values the probe routine puts in the freshly zeroed driver data. */
  const DefaultPeriodMs: u32 := 500
  const DefaultColor: u32 := 0

  /** Shortest blink period a store may set, so the timer cannot run wild. */
  const MinPeriodMs: u32 := 10

  /** The colour is a three-bit mask: bit 1 red, bit 2 green, bit 4 blue. */
  const MaxColor: u32 := 7
  const RedBit: nat := 1
  const GreenBit: nat := 2
  const BlueBit: nat := 4

  /** `color & bit` is nonzero, for a single-bit mask. */
  predicate HasBit(color: nat, bit: nat)
    requires bit == RedBit || bit == GreenBit || bit == BlueBit
  {
    (color / bit) % 2 == 1
  }

  /** The three line levels. */
  datatype Rgb = Rgb(red: bool, green: bool, blue: bool)

  const Dark := Rgb(false, false, false)

  /** What the lines show in a given phase: a channel is high exactly when the
      phase is on and its colour bit is set. */
  function Drive(state: bool, color: nat): Rgb
  {
    Rgb(state && HasBit(color, RedBit), state && HasBit(color, GreenBit), state && HasBit(color, BlueBit))
  }

  /** The period a store keeps: the parsed value, raised to the minimum. */
  function ClampPeriod(v: u32): (p: u32)
    ensures p >= MinPeriodMs
    ensures v >= MinPeriodMs ==> p == v
    ensures v < MinPeriodMs ==> p == MinPeriodMs
  {
    if v < MinPeriodMs then MinPeriodMs else v
  }

  /** The colour a store keeps: the parsed value when it names a colour, black otherwise. */
  function ValidColor(v: u32): (c: u32)
    ensures c <= MaxColor
    ensures v <= MaxColor ==> c == v
    ensures v > MaxColor ==> c == 0
  {
    if v <= MaxColor then v else 0
  }

  /** Clamping never shortens an accepted period and is idempotent. */
  lemma ClampIsMonotoneAndIdempotent(v: u32, w: u32)
    ensures v <= w ==> ClampPeriod(v) <= ClampPeriod(w)
    ensures ClampPeriod(ClampPeriod(v)) == ClampPeriod(v)
    ensures ClampPeriod(v) == v <==> v >= MinPeriodMs
  {
  }

  /** With the phase off every line is low, whatever the colour. */
  lemma OffIsDark(color: nat)
    ensures Drive(false, color) == Dark
  {
  }

  /** In the on phase the lines spell out the colour: two colours in 0..7 that
      light the same lines are the same colour. */
  lemma {:induction false} DriveIdentifiesColor(c1: nat, c2: nat)
    requires c1 <= MaxColor && c2 <= MaxColor
    ensures Drive(true, c1) == Drive(true, c2) <==> c1 == c2
  {
    if Drive(true, c1) == Drive(true, c2) {
      assert c1 == (c1 / 4) % 2 * 4 + (c1 / 2) % 2 * 2 + c1 % 2;
      assert c2 == (c2 / 4) % 2 * 4 + (c2 / 2) % 2 * 2 + c2 % 2;
    }
  }

  /** Colour 0 shows nothing and colour 7 shows every line in the on phase. */
  lemma DriveExamples()
    ensures Drive(true, 0) == Dark
    ensures Drive(true, 7) == Rgb(true, true, true)
    ensures Drive(true, 1) == Rgb(true, false, false)
    ensures Drive(true, 2) == Rgb(false, true, false)
    ensures Drive(true, 4) == Rgb(false, false, true)
  {
  }

  /** The driver data of one LED: blink period, colour, phase and the levels
      last written to the three GPIO lines. `timerArmed` records whether the
      blink timer is pending. */
  class Led {
    var periodMs: u32
    var color: u32
    var state: bool
    var red: bool
    var green: bool
    var blue: bool
    var timerArmed: bool

    function Lines(): Rgb
      reads this
    {
      Rgb(red, green, blue)
    }

    /** The bound device: period at least the minimum, colour in range, the
        timer pending, and the lines showing the colour in the current phase. */
    predicate Valid()
      reads this
    {
      periodMs >= MinPeriodMs && color <= MaxColor && timerArmed &&
      Lines() == Drive(state, color)
    }

    /** Probe: zeroed data, default period and colour, lines requested low,
        timer armed. */
    constructor Probe()
      ensures periodMs == DefaultPeriodMs && color == DefaultColor
      ensures !state && Lines() == Dark && timerArmed
      ensures Valid()
    {
      periodMs := DefaultPeriodMs;
      color := DefaultColor;
      state := false;
      red, green, blue := false, false, false;
      timerArmed := true;
    }

    /** Store to `period_ms`: `input` is the parsed number, None when the text
        does not parse. The timer is re-armed with the new period. */
    method PeriodStore(input: Option<u32>) returns (r: Result<()>)
      requires Valid()
      modifies this
      ensures Valid()
      ensures input.None? ==> r == Err(EInval) && periodMs == old(periodMs)
      ensures input.Some? ==> r == Ok(()) && periodMs == ClampPeriod(input.value)
      ensures color == old(color) && state == old(state) && Lines() == old(Lines())
    {
      if input.None? {
        return Err(EInval);
      }
      var v := input.value;
      if v < MinPeriodMs {
        v := MinPeriodMs;
      }
      periodMs := v;
      timerArmed := true;
      r := Ok(());
    }

    /** Store to `rgb_color`: an out-of-range number selects black; the lines
        are rewritten at once only while the phase is on. */
    method ColorStore(input: Option<u32>) returns (r: Result<()>)
      requires Valid()
      modifies this
      ensures Valid()
      ensures input.None? ==> r == Err(EInval) && color == old(color) && Lines() == old(Lines())
      ensures input.Some? ==> r == Ok(()) && color == ValidColor(input.value)
      ensures input.Some? && state ==> Lines() == Drive(true, color)
      ensures !state ==> Lines() == old(Lines())
      ensures periodMs == old(periodMs) && state == old(state)
    {
      if input.None? {
        return Err(EInval);
      }
      var v := input.value;
      if v <= MaxColor {
        color := v;
      } else {
        color := 0;
      }
      if state {
        red := HasBit(color, RedBit);
        green := HasBit(color, GreenBit);
        blue := HasBit(color, BlueBit);
      }
      r := Ok(());
    }

    /** The timer callback: flip the phase, drive each line from its colour
        bit, re-arm. */
    method TimerTick()
      requires Valid()
      modifies this
      ensures Valid()
      ensures state == !old(state)
      ensures Lines() == Drive(state, color)
      ensures periodMs == old(periodMs) && color == old(color)
    {
      state := !state;
      red := if HasBit(color, RedBit) then state else false;
      green := if HasBit(color, GreenBit) then state else false;
      blue := if HasBit(color, BlueBit) then state else false;
    }

    /** Remove: stop the timer and drive every line low. */
    method Remove()
      modifies this
      ensures !timerArmed && Lines() == Dark
      ensures periodMs == old(periodMs) && color == old(color) && state == old(state)
    {
      timerArmed := false;
      red := false;
      green := false;
      blue := false;
    }
  }

  /** A colour store in the off phase leaves the lines dark, and the next tick
      shows the new colour. */
  method StoreThenTick(led: Led, v: u32)
    requires led.Valid() && !led.state
    modifies led
    ensures led.Valid() && led.state
    ensures led.Lines() == Drive(true, ValidColor(v))
  {
    var _ := led.ColorStore(Some(v));
    assert led.Lines() == Dark;
    led.TimerTick();
  }
}
