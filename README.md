# Embedded Linux driver examples in Dafny

This project models the core of a collection of small Linux drivers and one
user-space helper. Its centre is the MPU-6050 IIO driver core. The other three
parts are smaller:

- the RGB blink LED platform driver;
- the PWM beeper platform driver;
- the frame-layout code of the BMI270 web dashboard.

## The parts

- **MPU-6050 core** (`mpu6050_regs.dfy`, `mpu6050_tables.dfy`, `mpu6050_core.dfy`).
  - **Registers.** The chip's register file is a sequence of 256 bytes reached
    through regmap read, write and update-bits calls. A bus fault is a map from
    call number to an error code, so every error path of the source can be taken.
    - Each driver routine has a specification function returning a `Step`. A
      `Step` holds the result, the regmap calls made, the new register file and
      the next call number.
    - The class `Mpu6050` carries the register file, the call counter, the mutex,
      the IIO direct-mode claim and a ghost history. Its methods perform the same
      routines step by step, and each method's `ensures` ties it to its
      specification function.
  - **Routines.**
    - `read_u16be`, `get_scale`, `set_scale` (with its table search loop),
      `get_samp_freq` and `set_samp_freq`;
    - the `read_raw`, `write_raw` and `read_avail` callbacks;
    - the register sequence of `probe`.
  - **Properties.**
    - Round trips: scale write then read, rate write then read, FS_SEL encoding,
      16-bit sample decoding.
    - Every callback path drops the mutex and the claim it took, and touches
      registers only under the mutex.
    - Probe stops at the first failing call and leaves the chip at 100 Hz, ±2 g
      and ±250 dps.
- **RGB LED** (`gpio_led.dfy`).
  - A class holding the period, the colour, the blink phase and the three line
    levels.
  - The two sysfs stores, the timer callback, probe's defaults and remove.
  - Its invariant: in every phase the lines show exactly the colour bits.
- **PWM beeper** (`pwm_beeper.dfy`).
  - A class holding the PWM state, the state last applied and the frequency.
  - The `freq` store and remove.
  - The period is proved to be the nearest whole number of nanoseconds to one
    cycle.
- **IIO scan-element type and frame layout** (`iio_type.dfy`, `iio_frame.dfy`).
  - Parsing of the `[be|le]:[s|u]bits/storagebits>>shift` type text, with
    Python's `str.split` and `int()` written out.
  - A round trip from formatted type to parsed type.
  - The channel ordering by scan index, a stable sort.
  - The aligned-offset layout loop, with the frame size, alignment and
    non-overlap properties.
  - The choice of `struct` format code.

Modelling choices worth knowing:

- **Call ordering.** Mpu6050Core.Mpu6050.ReadSample checks the channel type
  and axis together after taking the claim and the mutex. The history matches the
  driver, where either failing check drops both before returning EINVAL.
- **Probe split.** Mpu6050Core.Mpu6050.Probe performs the identity read and then
  calls Mpu6050Core.Mpu6050.Configure for the five configuration calls; the
  driver writes them inline.
- **Rate round trip.** Mpu6050Core.SampFreqWriteReadRoundTrip follows from the
  contracts of SetSampFreqStep and GetSampFreqStep without further proof steps.

`common.dfy` holds the shared `Option`, errno and `Result` types and a few
arithmetic facts.

## Model

| member | source | states |
|---|---|---|
| Mpu6050Regs.UpdateBits | 05_mpu6050_i2c/mpu6050_core.c:139 | the bits under the mask take the new value and every other bit keeps the old one |
| Mpu6050Regs.FsIndex | 05_mpu6050_i2c/mpu6050_core.c:87 | the FS_SEL index is below 4 and, shifted back, is exactly the masked field |
| Mpu6050Regs.FsBits | 05_mpu6050_i2c/mpu6050_core.c:138 | the bits for index i lie inside the FS_SEL field and shift down to i |
| Mpu6050Regs.ConfigRegister | 05_mpu6050_i2c/mpu6050_core.c:72-81 | acceleration uses ACCEL_CONFIG, angular velocity GYRO_CONFIG, any other type has no register |
| Mpu6050Regs.DataRegister | 05_mpu6050_i2c/mpu6050_core.c:189-207 | a channel has a data register iff its type and axis are known; high and low bytes both lie in the type's data block at base + 0/2/4 |
| Mpu6050Regs.FsSelMaskIsField | 05_mpu6050_i2c/mpu6050.h:21-23 | the mask 0x18 is the two-bit field at shift 3, so the extracted index never exceeds 3 (the `idx > 3` check cannot fire) |
| Mpu6050Regs.FsSelectRoundTrip | 05_mpu6050_i2c/mpu6050_core.c:87-139 | selecting index i with update-bits and reading the field back gives i; bits outside the field are untouched |
| Mpu6050Regs.ConfigRegistersDistinct | 05_mpu6050_i2c/mpu6050.h:8-11 | the four configuration registers are consecutive and distinct |
| Mpu6050Regs.DataRegistersDisjoint | 05_mpu6050_i2c/mpu6050.h:13-14 | two different channels never share a high or low data register |
| Mpu6050Regs.DataBlocksDisjoint | 05_mpu6050_i2c/mpu6050.h:13-14 | the accelerometer and gyroscope data blocks share no register |
| Mpu6050Tables.ScaleTable | 05_mpu6050_i2c/mpu6050_core.c:24-43 | exactly the two handled types have a table; each has four entries with integer part 0 |
| Mpu6050Tables.ScaleIndexOf | 05_mpu6050_i2c/mpu6050_core.c:114-131 | the search stops at the first equal entry, and returns the table length iff the entry is absent |
| Mpu6050Tables.ScaleOfConfig | 05_mpu6050_i2c/mpu6050_core.c:87-97 | the scale get_scale reports for any register value is an entry of the type's table |
| Mpu6050Tables.TablesStrictlyIncreasing | 05_mpu6050_i2c/mpu6050_core.c:24-43 | both tables are strictly increasing, so their entries are distinct |
| Mpu6050Tables.ScaleIndexOfEntry | 05_mpu6050_i2c/mpu6050_core.c:114-131 | searching for entry i finds index i |
| Mpu6050Tables.ScaleRoundTrip | 05_mpu6050_i2c/mpu6050_core.c:87-139 | writing entry i's FS_SEL bits into any register value makes get_scale report entry i again, and keeps the other bits |
| Mpu6050Tables.RateOf | 05_mpu6050_i2c/mpu6050_core.c:152 | every divisor byte gives a rate between 3 and 1000 Hz |
| Mpu6050Tables.RateIsQuotient | 05_mpu6050_i2c/mpu6050_core.c:152 | the rate is 1000 / (1 + div) rounded down |
| Mpu6050Tables.RateBounds | 05_mpu6050_i2c/mpu6050_core.c:152 | for divisors 1..256 the floor quotient of 1000 lies in 3..1000 |
| Mpu6050Tables.DivisorFor | 05_mpu6050_i2c/mpu6050_core.c:160-169 | a divisor exists iff 0 < hz <= 1000, hz divides 1000 and 1000/hz - 1 fits in a byte |
| Mpu6050Tables.DivisorIsExact | 05_mpu6050_i2c/mpu6050_core.c:164-167 | an accepted rate times one plus its divisor is exactly 1000 |
| Mpu6050Tables.RateRoundTrip | 05_mpu6050_i2c/mpu6050_core.c:152-167 | reading back the divisor stored for an accepted rate gives that rate |
| Mpu6050Tables.DivisorRoundTrip | 05_mpu6050_i2c/mpu6050_core.c:152-167 | a divisor whose rate is exact is the one set_samp_freq stores for that rate |
| Mpu6050Tables.DivisorExamples | 05_mpu6050_i2c/mpu6050_core.c:160-169 | 1, 2, 3 and 7 Hz are refused; 4 Hz gives divisor 249 and 100 Hz divisor 9 |
| Mpu6050Tables.AvailableRatesAccepted | 05_mpu6050_i2c/mpu6050_core.c:46 | every advertised sample rate is accepted and read back unchanged |
| Mpu6050Tables.DecodeIsTwosComplement | 05_mpu6050_i2c/mpu6050_core.c:61 | the decoded sample is a signed 16-bit value congruent to the word hi:lo modulo 2^16 |
| Mpu6050Tables.DecodeS16 | 05_mpu6050_i2c/mpu6050_core.c:61 | the `(s16)` cast of the word hi:lo; its range and congruence are stated by DecodeIsTwosComplement and its inverse by DecodeCovers |
| Mpu6050Tables.DecodeCovers | 05_mpu6050_i2c/mpu6050_core.c:61 | every signed 16-bit value is decoded from its own high and low bytes |
| Mpu6050Tables.DecodeInjective | 05_mpu6050_i2c/mpu6050_core.c:61 | different byte pairs never decode to the same sample |
| Mpu6050Tables.DecodeExamples | 05_mpu6050_i2c/mpu6050_core.c:61 | 0xFFFF is -1, 0x7FFF is 32767, 0x8000 is -32768, 0x0001 is 1 |
| Mpu6050Tables.Flatten | 05_mpu6050_i2c/mpu6050_core.c:293-300 | the flat list has twice the table's length and holds val, val2 of entry i at 2i, 2i+1 |
| Mpu6050Tables.ReadAvail | 05_mpu6050_i2c/mpu6050_core.c:283-315 | scale lists exist exactly for the two handled types, as int-plus-micro; the rate list is the sampling frequencies as int; any other info is EINVAL |
| Mpu6050Tables.AvailableScalesAccepted | 05_mpu6050_i2c/mpu6050_core.c:283-302 | every scale pair read_avail advertises has integer part 0 and is found by set_scale's search at its own index |
| Mpu6050Core.AccessesKeepHoldings | 05_mpu6050_i2c/mpu6050_core.c:187-211 | register calls made under the mutex do not change the mutex or the claim |
| Mpu6050Core.Bracketed | 05_mpu6050_i2c/mpu6050_core.c:183-211 | register calls between lock and unlock, optionally inside claim and release, form a serialized history |
| Mpu6050Core.ReadStep | 05_mpu6050_i2c/mpu6050_core.c:53 | a register read makes one call, leaves the registers alone and returns the byte, or the call's fault |
| Mpu6050Core.WriteStep | 05_mpu6050_i2c/mpu6050_core.c:171 | a register write makes one call and changes exactly that register; a faulting call returns its bus error unchanged and changes nothing |
| Mpu6050Core.UpdateStep | 05_mpu6050_i2c/mpu6050_core.c:139 | update-bits makes one call and changes only the masked bits of that register; a faulting call returns its bus error unchanged and changes nothing |
| Mpu6050Core.ReadU16Step | 05_mpu6050_i2c/mpu6050_core.c:48-63 | the high byte is read first and the low byte only if that succeeded; success iff both calls succeed, with the two's-complement word as value; a fault on either read returns that read's bus error |
| Mpu6050Core.GetScaleStep | 05_mpu6050_i2c/mpu6050_core.c:65-100 | an unknown type is EINVAL with no call; otherwise one read of the type's register, returning its bus error on a fault and on success the table entry its FS_SEL field selects |
| Mpu6050Core.SetScaleStep | 05_mpu6050_i2c/mpu6050_core.c:102-140 | EINVAL with no call iff the integer part is nonzero, the type unknown or the pair absent from the table; otherwise one update-bits call selecting the pair's index |
| Mpu6050Core.SelectScale | 05_mpu6050_i2c/mpu6050_core.c:138-139 | selecting index i issues the update-bits call for FS_SEL = i, after which get_scale reports entry i |
| Mpu6050Core.SetScaleEffect | 05_mpu6050_i2c/mpu6050_core.c:102-140 | an accepted set_scale makes one call that succeeds iff the bus does, after which the type reports the new scale and the other type's register is unchanged |
| Mpu6050Core.GetSampFreqStep | 05_mpu6050_i2c/mpu6050_core.c:142-154 | one read of SMPLRT_DIV, returning its bus error on a fault and on success the rate of that divisor |
| Mpu6050Core.SetSampFreqStep | 05_mpu6050_i2c/mpu6050_core.c:156-172 | EINVAL with no call iff the rate has no exact divisor; otherwise one write of the divisor, which succeeds iff the bus call does, returns its bus error on a fault, and on success leaves a register that yields that rate |
| Mpu6050Core.WriteCallStep | 05_mpu6050_i2c/mpu6050_core.c:382-406 | one configuration call, a write or an update-bits: it succeeds iff its call number is not faulted, a fault returns its bus error and changes nothing |
| Mpu6050Core.RunCalls | 05_mpu6050_i2c/mpu6050_core.c:382-406 | issuing a list of register-changing calls keeps the register file total |
| Mpu6050Core.Then | 05_mpu6050_i2c/mpu6050_core.c:382-406 | two operations made one after the other: the second's result, registers and call number, and a history as long as both together |
| Mpu6050Core.ConfigureStep | 05_mpu6050_i2c/mpu6050_core.c:382-406 | the five configuration calls written out one by one; it keeps the register file total, and ConfigureIsRunCalls shows it is the init sequence issued in order |
| Mpu6050Core.ConfigureIsRunCalls | 05_mpu6050_i2c/mpu6050_core.c:382-406 | the five configuration calls written out one by one are the init sequence issued in order |
| Mpu6050Core.ProbeStep | 05_mpu6050_i2c/mpu6050_core.c:370-406 | WHO_AM_I is read first; a failing read fails probe with its bus error, and a working read of any identity other than 0x68 fails with ENODEV, both without further calls |
| Mpu6050Core.ProbeConfigures | 05_mpu6050_i2c/mpu6050_core.c:370-406 | with the right identity and no fault all six calls are made in order, leaving the chip awake at 100 Hz with the ±2 g and ±250 dps scales |
| Mpu6050Core.RunCallsStopsAtFirstFault | 05_mpu6050_i2c/mpu6050_core.c:382-406 | the calls made are a prefix of those asked for; success iff no call faulted, otherwise the last call made is the first faulting one and its error is returned |
| Mpu6050Core.ProbeCallsArePrefix | 05_mpu6050_i2c/mpu6050_core.c:370-406 | probe's calls are always a prefix of the identity read plus the five configuration calls, and no configuration call is made unless the identity was 0x68 |
| Mpu6050Core.SampleStep | 05_mpu6050_i2c/mpu6050_core.c:182-216 | with the buffer on, EBUSY and nothing done; a bad type or axis is EINVAL after lock and claim are taken and dropped; otherwise success iff neither data read faults, with the decoded word, and a fault returns that read's bus error, with lock and claim dropped in every case |
| Mpu6050Core.ReadRawStep | 05_mpu6050_i2c/mpu6050_core.c:174-240 | per info element: raw sample as SampleStep states it; scale succeeds iff the type is known and its configuration read works, giving the table entry; rate succeeds iff the divisor read works, giving its rate; a fault returns the bus error; other info is EINVAL; registers never change |
| Mpu6050Core.WriteRawStep | 05_mpu6050_i2c/mpu6050_core.c:242-281 | raw and other info are EINVAL; a rate with a micro part is EINVAL before the claim; with the buffer on EBUSY; otherwise set_scale or set_samp_freq inside claim and lock |
| Mpu6050Core.ReadRawSerialized | 05_mpu6050_i2c/mpu6050_core.c:174-240 | every read_raw path, error or success, releases what it took and touches registers only under the mutex |
| Mpu6050Core.WriteRawSerialized | 05_mpu6050_i2c/mpu6050_core.c:242-281 | every write_raw path releases what it took and touches registers only under the mutex |
| Mpu6050Core.ScaleWriteReadRoundTrip | 05_mpu6050_i2c/mpu6050_core.c:218-260 | writing a table scale succeeds iff its bus call does, and then reading the scale on any channel of that type returns it |
| Mpu6050Core.ScaleSettingsIndependent | 05_mpu6050_i2c/mpu6050_core.c:102-140 | setting one type's scale leaves the other type's scale unchanged |
| Mpu6050Core.SampFreqWriteReadRoundTrip | 05_mpu6050_i2c/mpu6050_core.c:226-276 | writing a rate succeeds iff it has an exact divisor and the bus call works; then the rate read back is the one written |
| Mpu6050Core.FindScale | 05_mpu6050_i2c/mpu6050_core.c:114-120 | the search loop returns the first index holding the pair, or the table length when none does |
| Mpu6050Core.Mpu6050.constructor | 05_mpu6050_i2c/mpu6050_core.c:362-368 | new driver data: given registers and faults, no call made, mutex free, no claim, empty history |
| Mpu6050Core.Mpu6050.RegRead | 05_mpu6050_i2c/mpu6050_core.c:53 | performs ReadStep on the device state and records the call |
| Mpu6050Core.Mpu6050.RegWrite | 05_mpu6050_i2c/mpu6050_core.c:171 | performs WriteStep on the device state and records the call, so a fault returns its bus error unchanged |
| Mpu6050Core.Mpu6050.RegUpdateBits | 05_mpu6050_i2c/mpu6050_core.c:139 | performs UpdateStep on the device state and records the call, so a fault returns its bus error unchanged |
| Mpu6050Core.Mpu6050.MutexLock | 05_mpu6050_i2c/mpu6050_core.c:187 | takes the free mutex and records it |
| Mpu6050Core.Mpu6050.MutexUnlock | 05_mpu6050_i2c/mpu6050_core.c:210 | drops the held mutex and records it |
| Mpu6050Core.Mpu6050.ClaimDirectMode | 05_mpu6050_i2c/mpu6050_core.c:183-185 | the claim is refused with EBUSY exactly while the buffer is enabled |
| Mpu6050Core.Mpu6050.ReleaseDirectMode | 05_mpu6050_i2c/mpu6050_core.c:211 | drops the held claim and records it |
| Mpu6050Core.Mpu6050.ReadU16Be | 05_mpu6050_i2c/mpu6050_core.c:48-63 | performs ReadU16Step: a failed high-byte read stops with its error, a failed low-byte read returns its own error |
| Mpu6050Core.Mpu6050.GetScale | 05_mpu6050_i2c/mpu6050_core.c:65-100 | performs GetScaleStep, so a bus fault returns its error unchanged |
| Mpu6050Core.Mpu6050.SetScale | 05_mpu6050_i2c/mpu6050_core.c:102-140 | performs SetScaleStep, using the search loop |
| Mpu6050Core.Mpu6050.GetSampFreq | 05_mpu6050_i2c/mpu6050_core.c:142-154 | performs GetSampFreqStep, so a bus fault returns its error unchanged |
| Mpu6050Core.Mpu6050.SetSampFreq | 05_mpu6050_i2c/mpu6050_core.c:156-172 | performs SetSampFreqStep, so a bus fault returns its error unchanged |
| Mpu6050Core.Mpu6050.ReadRaw | 05_mpu6050_i2c/mpu6050_core.c:174-240 | performs ReadRawStep (success iff the bus reads work, bus errors returned unchanged), returns with the mutex and claim free, and leaves a serialized history |
| Mpu6050Core.Mpu6050.ReadSample | 05_mpu6050_i2c/mpu6050_core.c:182-216 | performs SampleStep (success iff both data reads work, a fault's bus error returned) and returns with the mutex and claim free |
| Mpu6050Core.Mpu6050.WriteRaw | 05_mpu6050_i2c/mpu6050_core.c:242-281 | performs WriteRawStep, returns with the mutex and claim free, and leaves a serialized history |
| Mpu6050Core.Mpu6050.Probe | 05_mpu6050_i2c/mpu6050_core.c:370-406 | performs ProbeStep: identity check, then the configuration calls until the first failure |
| Mpu6050Core.Mpu6050.Configure | 05_mpu6050_i2c/mpu6050_core.c:382-406 | performs ConfigureStep, each call made only if the previous one succeeded |
| GpioLed.ClampPeriod | 01_gpio_led/gpio_led.c:35-36 | the kept period is at least 10 ms, equal to the input when that is at least 10, else 10 |
| GpioLed.ValidColor | 01_gpio_led/gpio_led.c:66-70 | the kept colour is at most 7, equal to the input when that is at most 7, else 0 |
| GpioLed.HasBit | 01_gpio_led/gpio_led.c:74-76 | `color & bit` is nonzero, for one of the three single-bit masks |
| GpioLed.Drive | 01_gpio_led/gpio_led.c:89-97 | the line levels in a phase; OffIsDark and DriveIdentifiesColor state that the off phase is dark and the on phase shows exactly the colour bits |
| GpioLed.ClampIsMonotoneAndIdempotent | 01_gpio_led/gpio_led.c:35-36 | clamping is monotone and idempotent, and changes nothing iff the input is already at least 10 |
| GpioLed.OffIsDark | 01_gpio_led/gpio_led.c:89-97 | in the off phase every line is low whatever the colour |
| GpioLed.DriveIdentifiesColor | 01_gpio_led/gpio_led.c:89-97 | in the on phase two colours in 0..7 light the same lines iff they are equal |
| GpioLed.DriveExamples | 01_gpio_led/gpio_led.c:74-76 | colour 0 is dark, 7 lights all three lines, 1, 2 and 4 light red, green and blue alone |
| GpioLed.Led.Probe | 01_gpio_led/gpio_led.c:106-128 | probe starts with period 500 ms, colour 0, the phase off, lines low and the timer armed |
| GpioLed.Led.PeriodStore | 01_gpio_led/gpio_led.c:24-44 | unparsable text is EINVAL and changes nothing; otherwise the clamped period is kept; colour, phase and lines never change |
| GpioLed.Led.ColorStore | 01_gpio_led/gpio_led.c:55-80 | unparsable text is EINVAL; otherwise the validated colour is kept, shown at once in the on phase, while the off-phase lines stay as they were |
| GpioLed.Led.TimerTick | 01_gpio_led/gpio_led.c:85-99 | the tick flips the phase and the lines then show the colour in the new phase; period and colour are unchanged |
| GpioLed.Led.Remove | 01_gpio_led/gpio_led.c:148-155 | the timer is stopped and all three lines are driven low |
| GpioLed.StoreThenTick | 01_gpio_led/gpio_led.c:55-99 | a colour store during the off phase shows on the next tick |
| PwmBeeper.PeriodNs | 03_my_pwm_beeper/my_pwm_beeper.c:39 | the period for any nonzero 32-bit frequency fits the 64-bit period field |
| PwmBeeper.DivRoundClosest | 03_my_pwm_beeper/my_pwm_beeper.c:39 | unsigned division rounded to the nearest integer, halves up; RoundClosestBounds states how close it is |
| PwmBeeper.Tone | 03_my_pwm_beeper/my_pwm_beeper.c:41-44 | a tone is enabled and has the board's polarity; its period is the rounded period of the frequency and its duty cycle is half of that, rounded down |
| PwmBeeper.RoundClosestBounds | 03_my_pwm_beeper/my_pwm_beeper.c:39 | the rounded quotient lies within half a divisor of the exact one |
| PwmBeeper.PeriodIsNearest | 03_my_pwm_beeper/my_pwm_beeper.c:39 | no other whole number of nanoseconds gives a cycle closer to 1/freq seconds |
| PwmBeeper.PeriodZeroIff | 03_my_pwm_beeper/my_pwm_beeper.c:39 | the period rounds to 0 exactly for frequencies above 2 GHz |
| PwmBeeper.PeriodExamples | 03_my_pwm_beeper/my_pwm_beeper.c:39 | 1 Hz is 1e9 ns, 440 Hz 2272727 ns, 3 Hz 333333333 ns, 7 Hz 142857143 ns, 2 GHz 1 ns |
| PwmBeeper.Beeper.Probe | 03_my_pwm_beeper/my_pwm_beeper.c:59-67 | the driver data starts zeroed and silent, and the hardware state is left as found |
| PwmBeeper.Beeper.FreqStore | 03_my_pwm_beeper/my_pwm_beeper.c:21-50 | unparsable text is EINVAL with nothing changed; 0 disables and applies; any other frequency programs and applies its tone and is remembered |
| PwmBeeper.Beeper.Remove | 03_my_pwm_beeper/my_pwm_beeper.c:77-82 | the output is disabled and that state is applied |
| PwmBeeper.SilenceAndResume | 03_my_pwm_beeper/my_pwm_beeper.c:21-50 | silencing then storing the same frequency again applies the same tone |
| IioType.Split | 04_bmi270_i2c/web_app/imu_server.py:100 | `str.split` gives at least one part and no part contains the separator |
| IioType.JoinSplit | 04_bmi270_i2c/web_app/imu_server.py:100 | joining the parts with the separator gives back the text |
| IioType.SplitNoSeparator | 04_bmi270_i2c/web_app/imu_server.py:100 | text without the separator splits into itself |
| IioType.SplitAtFirst | 04_bmi270_i2c/web_app/imu_server.py:100 | splitting cuts at the first separator |
| IioType.Before | 04_bmi270_i2c/web_app/imu_server.py:106 | the first part of a split on a string separator is a prefix of the text; BeforeStopsAtSeparator and BeforeIsFirst place the cut at the first occurrence |
| IioType.BeforeStopsAtSeparator | 04_bmi270_i2c/web_app/imu_server.py:106 | the prefix is the whole text or is followed by the separator |
| IioType.BeforeIsFirst | 04_bmi270_i2c/web_app/imu_server.py:106 | the separator starts nowhere inside the prefix, so together with BeforeStopsAtSeparator the cut is at its first occurrence |
| IioType.BeforeAt | 04_bmi270_i2c/web_app/imu_server.py:106 | the first part of `a + sep + b` is `a` when `a` cannot start the separator |
| IioType.StripLeft | 04_bmi270_i2c/web_app/imu_server.py:108 | the result is a suffix starting with a non-space |
| IioType.StripRight | 04_bmi270_i2c/web_app/imu_server.py:108 | the result is a prefix ending with a non-space |
| IioType.Strip | 04_bmi270_i2c/web_app/imu_server.py:108 | stripping both ends gives text no longer than the input that neither starts nor ends with white space |
| IioType.PyInt | 04_bmi270_i2c/web_app/imu_server.py:108 | `int()` on ASCII text: PyIntRoundTrip shows it reads back every integer's decimal text |
| IioType.NatToString | 04_bmi270_i2c/web_app/imu_server.py:108 | decimal text is nonempty and all digits |
| IioType.IntToString | 04_bmi270_i2c/web_app/imu_server.py:108 | a negative number is written as a minus sign before its magnitude |
| IioType.IntToStringExcludes | 04_bmi270_i2c/web_app/imu_server.py:108 | decimal text contains no separator character |
| IioType.NatToStringValue | 04_bmi270_i2c/web_app/imu_server.py:108 | decimal text is a valid digit string whose value is the number |
| IioType.StripUnchanged | 04_bmi270_i2c/web_app/imu_server.py:108 | text without surrounding spaces is unchanged by stripping |
| IioType.PyIntRoundTrip | 04_bmi270_i2c/web_app/imu_server.py:108 | `int()` of any integer's decimal text gives back that integer |
| IioType.ParseScanType | 04_bmi270_i2c/web_app/imu_server.py:98-110 | parse_iio_type, with None for every path that raises; ParseFlags, ParseBits, ParseRejects and ParseFormat state what it returns |
| IioType.ParseFlags | 04_bmi270_i2c/web_app/imu_server.py:100-105 | a parsed type's text has a colon; it is little-endian iff the first part is `le` and signed iff the rest starts with `s` |
| IioType.ParseBits | 04_bmi270_i2c/web_app/imu_server.py:106-108 | the bit counts are `int()` of the two halves of the text before `>>` |
| IioType.ParseRejects | 04_bmi270_i2c/web_app/imu_server.py:98-110 | no colon, an empty rest, or a bits part not split in two by `/` all give None |
| IioType.BitsTextExcludes | 04_bmi270_i2c/web_app/imu_server.py:106-107 | the formatted bit counts hold no character other than digits, minus and slash |
| IioType.SplitFormatAtColon | 04_bmi270_i2c/web_app/imu_server.py:100-103 | a formatted type splits at its colon into the order word and the rest |
| IioType.TailBeforeShift | 04_bmi270_i2c/web_app/imu_server.py:106 | the text before `>>` is the bit counts |
| IioType.SplitBitsText | 04_bmi270_i2c/web_app/imu_server.py:107 | the bit counts split at `/` into the two decimal numbers |
| IioType.ParseFormat | 04_bmi270_i2c/web_app/imu_server.py:98-110 | parsing the kernel's text for any type and shift gives back that type |
| IioType.FormatExample | 04_bmi270_i2c/web_app/imu_server.py:98-110 | a signed little-endian 12-in-16-bit field shifted by 4 is written `le:s12/16>>4` |
| IioType.SplitExamples | 04_bmi270_i2c/web_app/imu_server.py:100 | `les12/16>>4` splits into itself; `le:` into `le` and an empty rest |
| IioType.ParseExamples | 04_bmi270_i2c/web_app/imu_server.py:98-110 | `le:s12/16>>4` parses to (little, signed, 12, 16); text without a colon, or with nothing after it, is None |
| IioFrame.Insert | 04_bmi270_i2c/web_app/imu_server.py:129 | inserting adds one element, and the result starts with it or with the old first element |
| IioFrame.SortByIndex | 04_bmi270_i2c/web_app/imu_server.py:129 | sorting keeps the length |
| IioFrame.InsertSorted | 04_bmi270_i2c/web_app/imu_server.py:129 | inserting into a sorted list keeps it sorted by index |
| IioFrame.InsertMembers | 04_bmi270_i2c/web_app/imu_server.py:129 | inserting adds exactly the new element to the multiset |
| IioFrame.InsertStable | 04_bmi270_i2c/web_app/imu_server.py:129 | an inserted element goes before the elements with its index |
| IioFrame.SortIsSorted | 04_bmi270_i2c/web_app/imu_server.py:129 | the items come out ordered by scan index |
| IioFrame.SortIsPermutation | 04_bmi270_i2c/web_app/imu_server.py:129 | the items come out as a permutation of those put in |
| IioFrame.SortIsStable | 04_bmi270_i2c/web_app/imu_server.py:129 | items with equal index keep their relative order |
| IioFrame.PlaceIsAligned | 04_bmi270_i2c/web_app/imu_server.py:134-136 | a field wider than a byte is placed at the smallest multiple of its size not before the running offset |
| IioFrame.Place | 04_bmi270_i2c/web_app/imu_server.py:134-136 | the start of a field after the running offset; PlaceIsAligned states that it is the first aligned offset not before it |
| IioFrame.EndOf | 04_bmi270_i2c/web_app/imu_server.py:133-139 | the running offset after the given fields; FrameEndsAfterLast, EndGrows and NoOverlap state its properties |
| IioFrame.OffsetOf | 04_bmi270_i2c/web_app/imu_server.py:133-137 | the offset recorded for field i; OffsetAligned and NoOverlap state its properties |
| IioFrame.OffsetAligned | 04_bmi270_i2c/web_app/imu_server.py:133-138 | each field is aligned to its size, placed after the previous fields, and the end of the previous fields is the previous offset plus its size |
| IioFrame.FrameEndsAfterLast | 04_bmi270_i2c/web_app/imu_server.py:138-139 | the frame size is the last field's offset plus its size |
| IioFrame.EndGrows | 04_bmi270_i2c/web_app/imu_server.py:133-138 | the running offset never decreases |
| IioFrame.NoOverlap | 04_bmi270_i2c/web_app/imu_server.py:133-138 | a field ends before any later field begins |
| IioFrame.Layout | 04_bmi270_i2c/web_app/imu_server.py:131-139 | the loop gives every field, and no other name, its aligned offset, and the frame size is the end of the last field |
| IioFrame.LayoutStep | 04_bmi270_i2c/web_app/imu_server.py:133-138 | one iteration places the next field at the aligned running offset and moves past it |
| IioFrame.LayoutAdvance | 04_bmi270_i2c/web_app/imu_server.py:137 | recording the next field's offset by name keeps every earlier field's offset, because names are distinct |
| IioFrame.UnpackFormatMeaning | 04_bmi270_i2c/web_app/imu_server.py:141-147 | a format exists exactly for 16, 32 and 64 storage bits; it is the byte-order mark and a code of that size, lower-case exactly when signed |
| IioFrame.UnpackFormat | 04_bmi270_i2c/web_app/imu_server.py:141-147 | the struct format chosen for a channel; UnpackFormatMeaning states its meaning |
| IioFrame.Entries | 04_bmi270_i2c/web_app/imu_server.py:125-128 | when the list is built it has one item per channel, carrying the channel names in the listed order |
| IioFrame.EntriesSucceed | 04_bmi270_i2c/web_app/imu_server.py:113-129 | the items are built iff every channel's index was read and its type parsed, and each item carries its channel's index |
| IioFrame.GatherEntries | 04_bmi270_i2c/web_app/imu_server.py:125-128 | the gathering loop builds exactly the item list of Entries, stopping at the first channel that cannot be used |
| IioFrame.EntriesStep | 04_bmi270_i2c/web_app/imu_server.py:125-128 | the item list grows one channel at a time, failing as soon as a channel's type did not parse or its index is missing |
| IioFrame.ParseTypes | 04_bmi270_i2c/web_app/imu_server.py:123 | every type text is parsed once, keeping the channel keys |
| IioFrame.BuildFrameParser | 04_bmi270_i2c/web_app/imu_server.py:112-139 | fails iff some channel's index could not be read or its type text does not parse; otherwise the items are the channels sorted by index, with the offsets and frame size of their layout |
| IioFrame.ChannelsGather | 04_bmi270_i2c/web_app/imu_server.py:113-129 | the seven channels gather exactly when every index was read and every type text parses |
| IioFrame.EntriesStopAtFailure | 04_bmi270_i2c/web_app/imu_server.py:125-128 | once a channel fails, the whole build fails |
| IioFrame.InsertKeepsDistinct | 04_bmi270_i2c/web_app/imu_server.py:129 | inserting a new name keeps the names distinct |
| IioFrame.SortKeepsDistinct | 04_bmi270_i2c/web_app/imu_server.py:129 | sorting keeps the names distinct |
| IioFrame.ChannelNamesDistinct | 04_bmi270_i2c/web_app/imu_server.py:125 | the seven channel names are distinct |
| IioFrame.SortedNamesDistinct | 04_bmi270_i2c/web_app/imu_server.py:125-129 | the sorted items carry seven distinct names |
| IioFrame.Bmi270Frame | 04_bmi270_i2c/web_app/imu_server.py:131-139 | six 16-bit samples and a 64-bit timestamp: the fifth sample sits at byte 10, the timestamp is aligned to 16 and the frame is 24 bytes |

## Left out

- **Input parsing.** `kstrtouint`/`kstrtou32` text parsing is not modelled. The
  stores take the parsed number, or None for text that does not parse.
- **Kernel services.**
  - Timers, jiffies and `msecs_to_jiffies` are reduced to a `timerArmed` flag;
    the blink period is stored but no clock is modelled.
  - GPIO descriptor lookup is not modelled.
  - `devm_kzalloc` failure (ENOMEM) and the `device_create_file`/`device_remove_file`
    error paths are not modelled.
  - `dev_info` logging and IIO device registration are not modelled.
  - The sysfs show callbacks are not modelled; each just prints a field.
- **Blocking.** The mutex and the direct-mode claim are modelled as held/free
  flags with a recorded history. Blocking, concurrency and other threads are not
  modelled; a method that takes the mutex requires it to be free.
- **Buses.** The regmap cache and the I2C transfer are not modelled
  (`mpu6050_i2c.c` is not part of this model). A bus fault is an error code
  chosen per call number in advance.
- **PWM core.** `pwm_init_state`, `pwm_apply_might_sleep` and `devm_pwm_get`
  belong to the PWM core:
  - applying a state is modelled as recording it as the applied state;
  - re-initialisation is modelled as taking the board's polarity;
  - errors from apply are not modelled (the driver ignores them).
- PwmBeeper.Beeper.FreqStore: does not model the PWM core's rejection of a zero
  period, which frequencies above 2 GHz produce (see PeriodZeroIff).
- **Python strings and numbers.**
  - IioType.PyInt follows Python's `int()` on ASCII text only: Unicode digits and
    Unicode whitespace are not recognised.
  - A parse exception other than the ones the text causes is not modelled.
- **Dashboard I/O.** `read_int`, `read_type`, `se_path` and the sysfs files they
  read are replaced by parameters. The index map holds None where `read_int`
  fails, and the type-text map holds whatever `read_type` returned, the empty
  text included.
- **Frame decoding.** `struct.unpack_from`, the `parse_frame` closure and
  everything else in the dashboard (sensor fusion, the web server, the device
  reader thread) are not modelled; only the format code is chosen.
- **Sorting.** `list.sort` (timsort) is modelled as a stable insertion sort.
  The two agree on every input, since both are stable sorts by the same key.
- IioFrame.BuildFrameParser: a channel whose type text does not parse raises
  TypeError when its `None` is unpacked (line 127). A channel whose index file
  could not be read raises TypeError when the sort compares `None` (line 129).
  The model does not tell the two exceptions apart: both are a `None` result.
  It also checks both conditions in the gathering loop, which no caller can
  observe.
- **Layout names.** IioFrame.Layout requires distinct field names; the dashboard
  always passes its seven distinct channel names.
