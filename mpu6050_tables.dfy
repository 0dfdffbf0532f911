/** The MPU-6050 driver's pure parts: the two scale tables and their lookups, the
    sample-rate conversion in both directions, the signed 16-bit sample decoding and the
    lists the driver advertises through read_avail. */
module Mpu6050Tables {
  import opened Wrappers
  import opened Errno
  import opened Mpu6050Regs
  import opened Arith

  /** A scale as IIO_VAL_INT_PLUS_MICRO: an integer part and a micro part. */
  datatype Scale = Scale(val: int, val2: int)

  /** m/s^2 per LSB for the ±2g, ±4g, ±8g and ±16g ranges. */
  const AccelScales: seq<Scale> := [Scale(0, 599), Scale(0, 1197), Scale(0, 2394), Scale(0, 4788)]

  /** rad/s per LSB for the ±250, ±500, ±1000 and ±2000 dps ranges. */
  const GyroScales: seq<Scale> := [Scale(0, 133), Scale(0, 266), Scale(0, 533), Scale(0, 1065)]

  /** The sample rates advertised to user space. */
  const SamplingFreqs: seq<int> := [10, 20, 25, 50, 100, 200, 250, 500, 1000]

  /** The table of a measurement type; none for a type the driver does not handle. */
  function ScaleTable(t: ChanType): (r: Option<seq<Scale>>)
    ensures r.Some? <==> t != OtherType
    ensures r.Some? ==> |r.value| == 4
    ensures r.Some? ==> forall i :: 0 <= i < 4 ==> r.value[i].val == 0
  {
    match t
    case Accel => Some(AccelScales)
    case AnglVel => Some(GyroScales)
    case OtherType => None
  }

  /** The position of the first entry equal to s, or |table| when there is none: the
      search set_scale performs. */
  function ScaleIndexOf(table: seq<Scale>, s: Scale): (i: nat)
    ensures i <= |table|
    ensures forall j :: 0 <= j < i ==> table[j] != s
    ensures i < |table| ==> table[i] == s
    ensures i == |table| <==> s !in table
  {
    if table == [] then 0
    else if table[0] == s then 0
    else 1 + ScaleIndexOf(table[1..], s)
  }

  /** get_scale's conversion of a configuration register value into a scale, for a type
      with a table: the FS_SEL field indexes the table. */
  function ScaleOfConfig(t: ChanType, regval: bv8): (s: Scale)
    requires t != OtherType
    ensures s in ScaleTable(t).value && s.val == 0
  {
    ScaleTable(t).value[FsIndex(regval)]
  }

  /** Both tables list four distinct scales, strictly increasing: searching for entry i
      finds i. */
  lemma TablesStrictlyIncreasing(t: ChanType, i: nat, j: nat)
    requires t != OtherType && i < j < 4
    ensures ScaleTable(t).value[i].val2 < ScaleTable(t).value[j].val2
  {
  }

  /** The search finds every entry of a table at its own index. */
  lemma {:induction false} ScaleIndexOfEntry(t: ChanType, i: nat)
    requires t != OtherType && i < 4
    ensures ScaleIndexOf(ScaleTable(t).value, ScaleTable(t).value[i]) == i
  {
    var table := ScaleTable(t).value;
    var k := ScaleIndexOf(table, table[i]);
    if k != i {
      TablesStrictlyIncreasing(t, k, i);
      assert false;
    }
  }

  /** The scale round trip: writing table entry i into a configuration register through
      regmap_update_bits, then reading that register's scale back, yields entry i; the
      register's other bits are untouched. */
  lemma ScaleRoundTrip(t: ChanType, regval: bv8, i: nat)
    requires t != OtherType && i < 4
    ensures var s := ScaleTable(t).value[i];
      ScaleOfConfig(t, UpdateBits(regval, FsSelMask, FsBits(ScaleIndexOf(ScaleTable(t).value, s)))) == s
    ensures UpdateBits(regval, FsSelMask, FsBits(i)) & !FsSelMask == regval & !FsSelMask
  {
    ScaleIndexOfEntry(t, i);
    FsSelectRoundTrip(regval, i);
  }

  /** get_samp_freq: the output rate for a divisor register value, 1000 / (1 + div). */
  function RateOf(div: bv8): (hz: int)
    ensures 3 <= hz <= BaseRateHz
  {
    RateBounds(1 + div as int);
    BaseRateHz / (1 + div as int)
  }

  /** The rate is 1000 / (1 + div) rounded down: the largest rate whose period in base
      ticks fits. */
  lemma RateIsQuotient(div: bv8)
    ensures RateOf(div) * (1 + div as int) <= BaseRateHz < (RateOf(div) + 1) * (1 + div as int)
  {
    RateBounds(1 + div as int);
  }

  lemma RateBounds(n: int)
    requires 1 <= n <= 256
    ensures 3 <= BaseRateHz / n <= BaseRateHz
    ensures (BaseRateHz / n) * n <= BaseRateHz < (BaseRateHz / n + 1) * n
  {
    var q := BaseRateHz / n;
    DivisionBounds(BaseRateHz, n);
    assert (q + 1) * n == q * n + n;
    MulMonotone(q + 1, n, 256);
    MulMonotone(q, 1, n);
  }

  /** set_samp_freq's validation and conversion: the divisor for hz, or none when hz is
      not a rate the chip produces exactly with an 8-bit divisor. */
  function DivisorFor(hz: int): (d: Option<bv8>)
    ensures d.Some? <==> 0 < hz <= BaseRateHz && BaseRateHz % hz == 0 && BaseRateHz / hz - 1 <= 255
  {
    if hz <= 0 || hz > BaseRateHz then None
    else if BaseRateHz % hz != 0 then None
    else
      var div := BaseRateHz / hz - 1;
      if div < 0 || div > 255 then None
      else
        DivisionBounds(BaseRateHz, hz);
        ByteRoundTrip(div);
        Some(div as bv8)
  }

  /** An accepted rate times one plus its divisor is exactly the base rate. */
  lemma DivisorIsExact(hz: int)
    requires DivisorFor(hz).Some?
    ensures (1 + DivisorFor(hz).value as int) * hz == BaseRateHz
  {
    DivisionBounds(BaseRateHz, hz);
    ByteRoundTrip(BaseRateHz / hz - 1);
  }

  /** The rate round trip: every accepted rate is produced exactly by its divisor. */
  lemma RateRoundTrip(hz: int)
    requires DivisorFor(hz).Some?
    ensures RateOf(DivisorFor(hz).value) == hz
  {
    var n := 1 + DivisorFor(hz).value as int;
    assert n * hz == BaseRateHz by {
      DivisorIsExact(hz);
    }
    assert BaseRateHz / n == hz by {
      ExactQuotient(BaseRateHz, n, hz);
    }
  }

  /** The divisor round trip: a divisor whose rate is exact is the one set_samp_freq
      writes for that rate. */
  lemma DivisorRoundTrip(div: bv8)
    requires BaseRateHz % (1 + div as int) == 0
    ensures DivisorFor(RateOf(div)) == Some(div)
  {
    var n := 1 + div as int;
    var hz := RateOf(div);
    assert hz * n == BaseRateHz by {
      DivisionBounds(BaseRateHz, n);
    }
    assert BaseRateHz / hz == n && BaseRateHz % hz == 0 by {
      ExactQuotient(BaseRateHz, hz, n);
      DivisionBounds(BaseRateHz, hz);
    }
    assert (n - 1) as bv8 == div by {
      ByteValueRoundTrip(div);
    }
  }

  lemma ByteValueRoundTrip(b: bv8)
    ensures (b as int) as bv8 == b
  {
  }

  /** Accepted rates are exactly the divisors of 1000 from 4 up: 1 and 2 need a divisor
      above 255, 3 does not divide 1000, 100 Hz is divisor 9 and 7 Hz is refused. */
  lemma DivisorExamples()
    ensures DivisorFor(1).None? && DivisorFor(2).None? && DivisorFor(3).None?
    ensures DivisorFor(4) == Some(249)
    ensures DivisorFor(100) == Some(9)
    ensures DivisorFor(7).None?
  {
  }

  /** Every advertised sample rate is accepted by set_samp_freq and read back unchanged. */
  lemma AvailableRatesAccepted(k: nat)
    requires k < |SamplingFreqs|
    ensures DivisorFor(SamplingFreqs[k]).Some?
    ensures RateOf(DivisorFor(SamplingFreqs[k]).value) == SamplingFreqs[k]
  {
    RateRoundTrip(SamplingFreqs[k]);
  }

  /** read_u16be's reconstruction: the two's-complement value of the 16-bit word hi:lo. */
  function DecodeS16(hi: bv8, lo: bv8): int
  {
    var u := hi as int * 0x100 + lo as int;
    if u < 0x8000 then u else u - 0x1_0000
  }

  /** The decoded sample is a signed 16-bit value congruent to the word hi:lo modulo
      2^16. */
  lemma DecodeIsTwosComplement(hi: bv8, lo: bv8)
    ensures -0x8000 <= DecodeS16(hi, lo) < 0x8000
    ensures DecodeS16(hi, lo) % 0x1_0000 == hi as int * 0x100 + lo as int
  {
    WordBounds(hi, lo);
  }

  /** The high and low register bytes the chip holds for a signed 16-bit sample v. */
  function HighByte(v: int): bv8
    requires -0x8000 <= v < 0x8000
  {
    ((if v < 0 then v + 0x1_0000 else v) / 0x100) as bv8
  }

  function LowByte(v: int): bv8
    requires -0x8000 <= v < 0x8000
  {
    ((if v < 0 then v + 0x1_0000 else v) % 0x100) as bv8
  }

  /** Every signed 16-bit sample is decoded from its two bytes. */
  lemma DecodeCovers(v: int)
    requires -0x8000 <= v < 0x8000
    ensures DecodeS16(HighByte(v), LowByte(v)) == v
  {
    var u := if v < 0 then v + 0x1_0000 else v;
    DivisionBounds(u, 0x100);
    ByteRoundTrip(u / 0x100);
    ByteRoundTrip(u % 0x100);
  }

  /** Decoding is injective: different byte pairs never decode to the same sample. */
  lemma DecodeInjective(hi1: bv8, lo1: bv8, hi2: bv8, lo2: bv8)
    requires DecodeS16(hi1, lo1) == DecodeS16(hi2, lo2)
    ensures hi1 == hi2 && lo1 == lo2
  {
    assert hi1 as int * 0x100 + lo1 as int == hi2 as int * 0x100 + lo2 as int by {
      WordBounds(hi1, lo1);
      WordBounds(hi2, lo2);
    }
    assert hi1 as int == hi2 as int && lo1 as int == lo2 as int by {
      SplitUnique(hi1 as int, lo1 as int, hi2 as int, lo2 as int);
    }
    ByteValueInjective(hi1, hi2);
    ByteValueInjective(lo1, lo2);
  }

  lemma ByteValueInjective(a: bv8, b: bv8)
    requires a as int == b as int
    ensures a == b
  {
  }

  /** The word hi:lo is an unsigned 16-bit value. */
  lemma WordBounds(hi: bv8, lo: bv8)
    ensures 0 <= hi as int * 0x100 + lo as int < 0x1_0000
  {
    MulMonotone(0x100, 0, hi as int);
    MulMonotone(0x100, hi as int, 0xFF);
  }

  lemma DecodeExamples()
    ensures DecodeS16(0xFF, 0xFF) == -1
    ensures DecodeS16(0x7F, 0xFF) == 32767
    ensures DecodeS16(0x80, 0x00) == -32768
    ensures DecodeS16(0x00, 0x01) == 1
  {
  }

  /** A table laid out as the int array read_avail hands to the IIO core: val, val2 of
      entry 0, then of entry 1, and so on. */
  function Flatten(table: seq<Scale>): (vals: seq<int>)
    ensures |vals| == 2 * |table|
    ensures forall i :: 0 <= i < |table| ==> vals[2 * i] == table[i].val && vals[2 * i + 1] == table[i].val2
  {
    if table == [] then []
    else
      var rest := Flatten(table[1..]);
      assert forall i :: 1 <= i < |table| ==> rest[2 * (i - 1)] == table[i].val;
      [table[0].val, table[0].val2] + rest
  }

  /** The info element an IIO request is about. */
  datatype InfoMask = InfoRaw | InfoScale | InfoSampFreq | InfoOther

  /** The type of an advertised list: IIO_VAL_INT or IIO_VAL_INT_PLUS_MICRO. */
  datatype ValType = ValInt | ValIntPlusMicro

  /** What read_avail returns for IIO_AVAIL_LIST: the value type and the values. */
  datatype Avail = Avail(valType: ValType, vals: seq<int>)

  /** read_avail: the scale table of the channel's type, or the sample-rate list. */
  function ReadAvail(t: ChanType, info: InfoMask): (r: Result<Avail>)
    ensures info == InfoScale ==> (r.Ok? <==> t != OtherType)
    ensures info == InfoScale && r.Ok? ==>
      r.value.valType == ValIntPlusMicro && |r.value.vals| == 8 &&
      forall i :: 0 <= i < 4 ==>
        Scale(r.value.vals[2 * i], r.value.vals[2 * i + 1]) == ScaleTable(t).value[i]
    ensures info == InfoSampFreq ==> r == Ok(Avail(ValInt, SamplingFreqs))
    ensures info == InfoRaw || info == InfoOther ==> r == Err(EInval)
  {
    match info
    case InfoScale =>
      (match t
       case Accel => Ok(Avail(ValIntPlusMicro, Flatten(AccelScales)))
       case AnglVel => Ok(Avail(ValIntPlusMicro, Flatten(GyroScales)))
       case OtherType => Err(EInval))
    case InfoSampFreq => Ok(Avail(ValInt, SamplingFreqs))
    case _ => Err(EInval)
  }

  /** Every scale pair read_avail advertises is one set_scale accepts: its integer part is
      0 and the search finds it at its own index. */
  lemma AvailableScalesAccepted(t: ChanType, i: nat)
    requires t != OtherType && i < 4
    ensures var vals := ReadAvail(t, InfoScale).value.vals;
      vals[2 * i] == 0 &&
      ScaleIndexOf(ScaleTable(t).value, Scale(0, vals[2 * i + 1])) == i
  {
    ScaleIndexOfEntry(t, i);
  }
}
