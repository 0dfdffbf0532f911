/** The MPU-6050 register map: register addresses, the identity value, the FS_SEL bit field
    and the addressing of the six data channels. All registers are 8 bits wide and so are
    their addresses. */
module Mpu6050Regs {
  import opened Wrappers

  /** A register address: the regmap is configured with 8-bit addresses. */
  type Addr = a: int | 0 <= a < 0x100

  const SmplrtDiv: Addr := 0x19
  const Config: Addr := 0x1A
  const GyroConfig: Addr := 0x1B
  const AccelConfig: Addr := 0x1C

  const AccelXoutH: Addr := 0x3B
  const GyroXoutH: Addr := 0x43

  const PwrMgmt1: Addr := 0x6B
  const WhoAmI: Addr := 0x75

  /** The value WHO_AM_I must hold for the chip to be accepted. */
  const ChipId: bv8 := 0x68

  /** FS_SEL occupies bits [4:3] of GYRO_CONFIG and ACCEL_CONFIG. */
  const FsSelMask: bv8 := 0x18
  const FsSelShift: nat := 3

  /** The internal sample rate with DLPF_CFG = 3, in Hz. */
  const BaseRateHz: int := 1000

  /** The measurement types the IIO core can ask about; OtherType stands for every type
      this driver does not handle. */
  datatype ChanType = Accel | AnglVel | OtherType

  /** The channel modifier; OtherAxis stands for every modifier other than X, Y and Z. */
  datatype Axis = X | Y | Z | OtherAxis

  /** regmap_update_bits: the bits under mask take their value from bits, the others keep
      their old value. */
  function UpdateBits(old_: bv8, mask: bv8, bits: bv8): (r: bv8)
    ensures r & mask == bits & mask
    ensures r & !mask == old_ & !mask
  {
    (old_ & !mask) | (bits & mask)
  }

  /** The FS_SEL field of a configuration register value, as a table index. */
  function FsIndex(regval: bv8): (i: nat)
    ensures i < 4
    ensures (i as bv8) << FsSelShift == regval & FsSelMask
  {
    ((regval & FsSelMask) >> FsSelShift) as nat
  }

  /** The register bits that select table index i. */
  function FsBits(i: nat): (bits: bv8)
    requires i < 4
    ensures bits & !FsSelMask == 0
    ensures bits >> FsSelShift == i as bv8
  {
    (i as bv8) << FsSelShift
  }

  /** The configuration register holding a type's FS_SEL field. */
  function ConfigRegister(t: ChanType): (r: Option<Addr>)
    ensures r.Some? <==> t != OtherType
    ensures r.Some? ==> r.value == (if t == Accel then AccelConfig else GyroConfig)
  {
    match t
    case Accel => Some(AccelConfig)
    case AnglVel => Some(GyroConfig)
    case OtherType => None
  }

  /** The first register of a type's six-byte data block. */
  function DataBase(t: ChanType): Option<Addr>
  {
    match t
    case Accel => Some(AccelXoutH)
    case AnglVel => Some(GyroXoutH)
    case OtherType => None
  }

  /** The distance of an axis's high byte from the start of the block. */
  function AxisOffset(a: Axis): Option<int>
  {
    match a
    case X => Some(0)
    case Y => Some(2)
    case Z => Some(4)
    case OtherAxis => None
  }

  /** Whether reg lies in the data block of type t: 0x3B..0x40 for acceleration,
      0x43..0x48 for angular velocity. */
  predicate InDataBlock(t: ChanType, reg: int)
  {
    match t
    case Accel => 0x3B <= reg <= 0x40
    case AnglVel => 0x43 <= reg <= 0x48
    case OtherType => false
  }

  /** The high-byte register of channel (t, a): the block base plus 0, 2 or 4. */
  function DataRegister(t: ChanType, a: Axis): (r: Option<Addr>)
    ensures r.Some? <==> t != OtherType && a != OtherAxis
    ensures r.Some? ==> InDataBlock(t, r.value) && InDataBlock(t, r.value + 1)
    ensures r.Some? ==> r.value < 0xFF
    ensures r.Some? ==> r.value == DataBase(t).value + AxisOffset(a).value
  {
    match (DataBase(t), AxisOffset(a))
    case (Some(base), Some(off)) => Some(base + off)
    case _ => None
  }

  /** The field mask is the two-bit value 3 moved to the field's position, so masking then
      shifting always yields an index into a four-entry table. */
  lemma FsSelMaskIsField(regval: bv8)
    ensures FsSelMask == 3 << FsSelShift
    ensures (regval & FsSelMask) >> FsSelShift <= 3
  {
  }

  /** Selecting index i in any register value and reading the field back gives i, and the
      bits outside the field are those of the original value. */
  lemma FsSelectRoundTrip(regval: bv8, i: nat)
    requires i < 4
    ensures FsIndex(UpdateBits(regval, FsSelMask, FsBits(i))) == i
    ensures UpdateBits(regval, FsSelMask, FsBits(i)) & !FsSelMask == regval & !FsSelMask
  {
  }

  /** The four configuration registers are consecutive and pairwise distinct, so writing
      one of them never alters another. */
  lemma ConfigRegistersDistinct()
    ensures SmplrtDiv + 1 == Config && Config + 1 == GyroConfig && GyroConfig + 1 == AccelConfig
    ensures |{SmplrtDiv, Config, GyroConfig, AccelConfig}| == 4
  {
  }

  /** Distinct channels read distinct byte pairs: the high and low registers of two
      different channels never coincide, and the two data blocks do not overlap. */
  lemma DataRegistersDisjoint(t1: ChanType, a1: Axis, t2: ChanType, a2: Axis)
    requires DataRegister(t1, a1).Some? && DataRegister(t2, a2).Some?
    requires (t1, a1) != (t2, a2)
    ensures var r1, r2 := DataRegister(t1, a1).value, DataRegister(t2, a2).value;
      r1 != r2 && r1 != r2 + 1 && r1 + 1 != r2
  {
  }

  /** The accelerometer and gyroscope blocks share no register. */
  lemma DataBlocksDisjoint(reg: int)
    ensures !(InDataBlock(Accel, reg) && InDataBlock(AnglVel, reg))
  {
  }
}
