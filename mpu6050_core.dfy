/** The transport-independent MPU-6050 core: the device's register file behind the regmap
    API, the driver lock and the IIO direct-mode claim, and the driver's operations
    (read_u16be, get/set scale, get/set sample frequency, read_raw, write_raw, probe). */
module Mpu6050Core {
  import opened Wrappers
  import opened Errno
  import opened Mpu6050Regs
  import opened Mpu6050Tables

  /** One entry of a device's history: a regmap call, or a transition of the driver mutex
      or of the IIO direct-mode claim. */
  datatype Event =
    | Read(reg: Addr)
    | Write(reg: Addr, val: bv8)
    | Update(reg: Addr, mask: bv8, bits: bv8)
    | Lock | Unlock | Claim | Release

  predicate IsAccess(e: Event)
  {
    e.Read? || e.Write? || e.Update?
  }

  predicate AllAccesses(events: seq<Event>)
  {
    forall i :: 0 <= i < |events| ==> IsAccess(events[i])
  }

  /** Runs a history against the mutex and the direct-mode claim, starting from the given
      holdings: none when the mutex is taken twice or released unheld, the claim likewise,
      or a register is touched without the mutex; otherwise the holdings at the end. */
  ghost function Replay(events: seq<Event>, locked: bool, claimed: bool): Option<(bool, bool)>
    decreases |events|
  {
    if events == [] then Some((locked, claimed))
    else
      match events[0]
      case Lock => if locked then None else Replay(events[1..], true, claimed)
      case Unlock => if !locked then None else Replay(events[1..], false, claimed)
      case Claim => if claimed then None else Replay(events[1..], locked, true)
      case Release => if !claimed then None else Replay(events[1..], locked, false)
      case _ => if !locked then None else Replay(events[1..], locked, claimed)
  }

  /** A history that touches registers only under the mutex and ends holding neither the
      mutex nor the direct-mode claim. */
  ghost predicate Serialized(events: seq<Event>)
  {
    Replay(events, false, false) == Some((false, false))
  }

  /** Register accesses made while the mutex is held leave the holdings as they were. */
  lemma {:induction false} AccessesKeepHoldings(accesses: seq<Event>, rest: seq<Event>, claimed: bool)
    requires AllAccesses(accesses)
    ensures Replay(accesses + rest, true, claimed) == Replay(rest, true, claimed)
    decreases |accesses|
  {
    if accesses == [] {
      assert accesses + rest == rest;
    } else {
      var h := accesses + rest;
      assert h[0] == accesses[0] && IsAccess(accesses[0]);
      assert h[1..] == accesses[1..] + rest;
      assert Replay(h, true, claimed) == Replay(h[1..], true, claimed);
      AccessesKeepHoldings(accesses[1..], rest, claimed);
    }
  }

  // The next four lemmas only regroup sequence concatenations for the solver;
  // they state nothing about the driver.

  /** What was appended to a history is the part after its old length. */
  lemma AppendedPart(before: seq<Event>, added: seq<Event>)
    ensures (before + added)[|before|..] == added
  {
  }

  /** A history extended by claim, lock, some calls, unlock and release, one event at
      a time, is extended by the bracketed calls as one block. */
  lemma ClaimedHistory(before: seq<Event>, inner: seq<Event>)
    ensures before + [Claim] + [Lock] + inner + [Unlock] + [Release] ==
            before + ([Claim, Lock] + inner + [Unlock, Release])
  {
  }

  /** A history extended by lock, some calls and unlock, one event at a time, is
      extended by the bracketed calls as one block. */
  lemma LockedHistory(before: seq<Event>, inner: seq<Event>)
    ensures before + [Lock] + inner + [Unlock] == before + ([Lock] + inner + [Unlock])
  {
  }

  /** Extending a history in two steps is extending it by both parts at once. */
  lemma JoinedHistory(before: seq<Event>, first: seq<Event>, second: seq<Event>)
    ensures before + first + second == before + (first + second)
  {
  }

  /** Register accesses between taking and dropping the mutex, optionally inside a
      direct-mode claim, form a serialized history. */
  lemma Bracketed(accesses: seq<Event>)
    requires AllAccesses(accesses)
    ensures Serialized([Lock] + accesses + [Unlock])
    ensures Serialized([Claim, Lock] + accesses + [Unlock, Release])
  {
    var h1 := [Lock] + accesses + [Unlock];
    assert h1[1..] == accesses + [Unlock];
    AccessesKeepHoldings(accesses, [Unlock], false);
    assert [Unlock][1..] == [];
    var h2 := [Claim, Lock] + accesses + [Unlock, Release];
    assert h2[1..] == [Lock] + accesses + [Unlock, Release];
    assert ([Lock] + accesses + [Unlock, Release])[1..] == accesses + [Unlock, Release];
    AccessesKeepHoldings(accesses, [Unlock, Release], true);
    assert [Unlock, Release][1..] == [Release];
    assert [Release][1..] == [];
  }

  /** A register file holding one byte for every 8-bit address. */
  predicate Total(regs: seq<bv8>)
  {
    |regs| == 0x100
  }

  /** The effect of a register operation: its result, the regmap calls it made, the
      register file afterwards and the number of the next bus call. */
  datatype Step<+T> = Step(result: Result<T>, events: seq<Event>, regs: seq<bv8>, next: nat)

  /** regmap_read as bus call number k; it fails when faults names k. */
  function ReadStep(faults: map<nat, int>, k: nat, regs: seq<bv8>, reg: Addr): (s: Step<bv8>)
    requires Total(regs)
    ensures s.events == [Read(reg)] && s.regs == regs && s.next == k + 1
    ensures s.result == if k in faults then Err(Transport(faults[k])) else Ok(regs[reg])
  {
    if k in faults then Step(Err(Transport(faults[k])), [Read(reg)], regs, k + 1)
    else Step(Ok(regs[reg]), [Read(reg)], regs, k + 1)
  }

  /** regmap_write as bus call number k; a failed call leaves the registers as they were. */
  function WriteStep(faults: map<nat, int>, k: nat, regs: seq<bv8>, reg: Addr, val: bv8): (s: Step<()>)
    requires Total(regs)
    ensures Total(s.regs) && s.events == [Write(reg, val)] && s.next == k + 1
    ensures s.result.Ok? <==> k !in faults
    ensures k in faults ==> s.result == Err(Transport(faults[k]))
    ensures s.regs == if s.result.Ok? then regs[reg := val] else regs
  {
    if k in faults then Step(Err(Transport(faults[k])), [Write(reg, val)], regs, k + 1)
    else Step(Ok(()), [Write(reg, val)], regs[reg := val], k + 1)
  }

  /** regmap_update_bits as bus call number k: only the bits under mask change. */
  function UpdateStep(faults: map<nat, int>, k: nat, regs: seq<bv8>, reg: Addr, mask: bv8, bits: bv8): (s: Step<()>)
    requires Total(regs)
    ensures Total(s.regs) && s.events == [Update(reg, mask, bits)] && s.next == k + 1
    ensures s.result.Ok? <==> k !in faults
    ensures k in faults ==> s.result == Err(Transport(faults[k]))
    ensures s.regs == if s.result.Ok? then regs[reg := UpdateBits(regs[reg], mask, bits)] else regs
  {
    if k in faults then Step(Err(Transport(faults[k])), [Update(reg, mask, bits)], regs, k + 1)
    else Step(Ok(()), [Update(reg, mask, bits)], regs[reg := UpdateBits(regs[reg], mask, bits)], k + 1)
  }

  /** read_u16be: the high byte from reg, then (only if that succeeded) the low byte from
      reg + 1, decoded as a signed 16-bit sample; the first failure is the result. */
  function ReadU16Step(faults: map<nat, int>, k: nat, regs: seq<bv8>, reg: Addr): (s: Step<int>)
    requires Total(regs) && reg < 0xFF
    ensures s.regs == regs && AllAccesses(s.events) && 1 <= |s.events| <= 2
    ensures s.events[0] == Read(reg) && s.next == k + |s.events|
    ensures s.result.Ok? <==> k !in faults && k + 1 !in faults
    ensures s.result.Ok? ==>
      s.events == [Read(reg), Read(reg + 1)] && s.result.value == DecodeS16(regs[reg], regs[reg + 1])
    ensures k in faults ==> s.result == Err(Transport(faults[k])) && s.events == [Read(reg)]
    ensures k !in faults && k + 1 in faults ==>
      s.result == Err(Transport(faults[k + 1])) && s.events == [Read(reg), Read(reg + 1)]
  {
    var hi := ReadStep(faults, k, regs, reg);
    if hi.result.Err? then Step(Err(hi.result.error), hi.events, regs, hi.next)
    else
      var lo := ReadStep(faults, hi.next, regs, reg + 1);
      if lo.result.Err? then Step(Err(lo.result.error), hi.events + lo.events, regs, lo.next)
      else Step(Ok(DecodeS16(hi.result.value, lo.result.value)), hi.events + lo.events, regs, lo.next)
  }

  /** get_scale: the scale selected by the FS_SEL field of the type's configuration
      register; an unknown type is refused without a bus call. */
  function GetScaleStep(faults: map<nat, int>, k: nat, regs: seq<bv8>, t: ChanType): (s: Step<Scale>)
    requires Total(regs)
    ensures s.regs == regs && AllAccesses(s.events) && s.next == k + |s.events|
    ensures t == OtherType ==> s.result == Err(EInval) && s.events == []
    ensures t != OtherType ==> s.events == [Read(ConfigRegister(t).value)]
    ensures s.result.Ok? <==> t != OtherType && k !in faults
    ensures t != OtherType && k in faults ==> s.result == Err(Transport(faults[k]))
    ensures s.result.Ok? ==>
      s.result.value in ScaleTable(t).value &&
      s.result.value == ScaleTable(t).value[FsIndex(regs[ConfigRegister(t).value])]
  {
    match ConfigRegister(t)
    case None => Step(Err(EInval), [], regs, k)
    case Some(reg) =>
      var rd := ReadStep(faults, k, regs, reg);
      if rd.result.Err? then Step(Err(rd.result.error), rd.events, regs, rd.next)
      else Step(Ok(ScaleOfConfig(t, rd.result.value)), rd.events, regs, rd.next)
  }

  /** set_scale: accepted only for integer part 0 and a micro part in the type's table;
      then the table index goes into FS_SEL and nothing else changes. A refused request
      makes no bus call. */
  function SetScaleStep(faults: map<nat, int>, k: nat, regs: seq<bv8>, t: ChanType, val: int, val2: int): (s: Step<()>)
    requires Total(regs)
    ensures Total(s.regs) && AllAccesses(s.events) && s.next == k + |s.events|
    ensures s.result == Err(EInval) <==> !(val == 0 && t != OtherType && Scale(val, val2) in ScaleTable(t).value)
    ensures s.result == Err(EInval) ==> s.events == [] && s.regs == regs
    ensures s.result != Err(EInval) ==>
      var i := ScaleIndexOf(ScaleTable(t).value, Scale(val, val2));
      i < 4 && s == SelectScale(faults, k, regs, t, i)
  {
    if val != 0 then Step(Err(EInval), [], regs, k)
    else
      match ConfigRegister(t)
      case None => Step(Err(EInval), [], regs, k)
      case Some(reg) =>
        var table := ScaleTable(t).value;
        var i := ScaleIndexOf(table, Scale(val, val2));
        if i == |table| then
          assert Scale(val, val2) !in table;
          Step(Err(EInval), [], regs, k)
        else
          assert table[i] == Scale(val, val2) && Scale(val, val2) in table;
          SelectScale(faults, k, regs, t, i)
  }

  /** The update_bits call that selects entry i of t's table. */
  function SelectScale(faults: map<nat, int>, k: nat, regs: seq<bv8>, t: ChanType, i: nat): (s: Step<()>)
    requires Total(regs) && t != OtherType && i < 4
    ensures Total(s.regs) && s.next == k + 1
    ensures s.events == [Update(ConfigRegister(t).value, FsSelMask, FsBits(i))]
    ensures s.result.Ok? <==> k !in faults
    ensures s.result.Err? ==> s.result == Err(Transport(faults[k]))
    ensures s.result.Ok? ==>
      var reg := ConfigRegister(t).value;
      FsIndex(s.regs[reg]) == i &&
      s.regs[reg] & !FsSelMask == regs[reg] & !FsSelMask &&
      s.regs == regs[reg := s.regs[reg]]
    ensures s.result.Err? ==> s.regs == regs
  {
    var reg := ConfigRegister(t).value;
    FsSelectRoundTrip(regs[reg], i);
    UpdateStep(faults, k, regs, reg, FsSelMask, FsBits(i))
  }

  /** What an accepted set_scale leaves behind: the calls it made, and, when the bus
      call succeeded, a configuration register whose FS_SEL now selects exactly the
      requested scale while its other bits and every other register are unchanged. */
  lemma SetScaleEffect(faults: map<nat, int>, k: nat, regs: seq<bv8>, t: ChanType, val: int, val2: int)
    requires Total(regs)
    requires val == 0 && t != OtherType && Scale(val, val2) in ScaleTable(t).value
    ensures var s := SetScaleStep(faults, k, regs, t, val, val2);
      var reg := ConfigRegister(t).value;
      s.events == [Update(reg, FsSelMask, FsBits(ScaleIndexOf(ScaleTable(t).value, Scale(val, val2))))] &&
      (s.result.Ok? <==> k !in faults) &&
      (s.result.Ok? ==>
        ScaleOfConfig(t, s.regs[reg]) == Scale(val, val2) &&
        s.regs[reg] & !FsSelMask == regs[reg] & !FsSelMask &&
        s.regs == regs[reg := s.regs[reg]]) &&
      (s.result.Err? ==> s.result == Err(Transport(faults[k])) && s.regs == regs)
  {
    var table := ScaleTable(t).value;
    var i := ScaleIndexOf(table, Scale(val, val2));
    var s := SetScaleStep(faults, k, regs, t, val, val2);
    assert s == SelectScale(faults, k, regs, t, i);
  }

  /** get_samp_freq: the rate of the divisor held in SMPLRT_DIV. */
  function GetSampFreqStep(faults: map<nat, int>, k: nat, regs: seq<bv8>): (s: Step<int>)
    requires Total(regs)
    ensures s.regs == regs && s.events == [Read(SmplrtDiv)] && s.next == k + 1
    ensures s.result.Ok? <==> k !in faults
    ensures k in faults ==> s.result == Err(Transport(faults[k]))
    ensures s.result.Ok? ==>
      3 <= s.result.value <= BaseRateHz && s.result.value == RateOf(regs[SmplrtDiv])
  {
    var rd := ReadStep(faults, k, regs, SmplrtDiv);
    if rd.result.Err? then Step(Err(rd.result.error), rd.events, regs, rd.next)
    else Step(Ok(RateOf(rd.result.value)), rd.events, regs, rd.next)
  }

  /** set_samp_freq: an exact rate's divisor goes into SMPLRT_DIV; any other rate is
      refused without a bus call. */
  function SetSampFreqStep(faults: map<nat, int>, k: nat, regs: seq<bv8>, hz: int): (s: Step<()>)
    requires Total(regs)
    ensures Total(s.regs) && AllAccesses(s.events) && s.next == k + |s.events|
    ensures s.result == Err(EInval) <==> DivisorFor(hz).None?
    ensures DivisorFor(hz).None? ==> s.events == [] && s.regs == regs
    ensures DivisorFor(hz).Some? ==> s.events == [Write(SmplrtDiv, DivisorFor(hz).value)]
    ensures DivisorFor(hz).Some? ==> (s.result.Ok? <==> k !in faults)
    ensures DivisorFor(hz).Some? && k in faults ==> s.result == Err(Transport(faults[k]))
    ensures s.result.Ok? ==> s.regs == regs[SmplrtDiv := DivisorFor(hz).value] && RateOf(s.regs[SmplrtDiv]) == hz
    ensures s.result.Err? ==> s.regs == regs
  {
    match DivisorFor(hz)
    case None => Step(Err(EInval), [], regs, k)
    case Some(div) =>
      RateRoundTrip(hz);
      var wr := WriteStep(faults, k, regs, SmplrtDiv, div);
      assert wr.result.Ok? ==> wr.regs[SmplrtDiv] == div;
      wr
  }

  /** The five configuration calls probe makes once the chip is identified: wake up with
      the X-gyro PLL clock, DLPF_CFG = 3, divisor 9 (100 Hz), and FS_SEL = 0 for the
      accelerometer and then the gyroscope. */
  const InitSequence: seq<Event> := [
    Write(PwrMgmt1, 0x01),
    Write(Config, 0x03),
    Write(SmplrtDiv, 9),
    Update(AccelConfig, FsSelMask, 0),
    Update(GyroConfig, FsSelMask, 0)]

  /** Calls that change registers: regmap_write and regmap_update_bits. */
  predicate AllWrites(calls: seq<Event>)
  {
    forall i :: 0 <= i < |calls| ==> calls[i].Write? || calls[i].Update?
  }

  /** One register-changing call as bus call number k. */
  function WriteCallStep(faults: map<nat, int>, k: nat, regs: seq<bv8>, call: Event): (s: Step<()>)
    requires Total(regs) && (call.Write? || call.Update?)
    ensures Total(s.regs) && s.events == [call] && s.next == k + 1
    ensures s.result.Ok? <==> k !in faults
    ensures k in faults ==> s.result == Err(Transport(faults[k]))
    ensures s.result.Err? ==> s.regs == regs
  {
    if call.Write? then WriteStep(faults, k, regs, call.reg, call.val)
    else UpdateStep(faults, k, regs, call.reg, call.mask, call.bits)
  }

  /** Issues register-changing calls one after the other from bus call k, stopping at
      the first that fails. */
  function RunCalls(faults: map<nat, int>, k: nat, regs: seq<bv8>, calls: seq<Event>): (s: Step<()>)
    requires Total(regs) && AllWrites(calls)
    ensures Total(s.regs)
    decreases |calls|
  {
    if calls == [] then Step(Ok(()), [], regs, k)
    else
      var first := WriteCallStep(faults, k, regs, calls[0]);
      if first.result.Err? then first
      else
        var rest := RunCalls(faults, first.next, first.regs, calls[1..]);
        Step(rest.result, first.events + rest.events, rest.regs, rest.next)
  }

  /** The effect of an operation that made first and then second. */
  function Then<T>(first: Step<()>, second: Step<T>): (s: Step<T>)
    ensures s.result == second.result && s.regs == second.regs && s.next == second.next
    ensures |s.events| == |first.events| + |second.events|
  {
    Step(second.result, first.events + second.events, second.regs, second.next)
  }

  /** Issuing a non-empty list of calls is issuing the first and, if it succeeded, the
      rest. */
  lemma RunCallsCons(faults: map<nat, int>, k: nat, regs: seq<bv8>, call: Event, rest: seq<Event>)
    requires Total(regs) && (call.Write? || call.Update?) && AllWrites(rest)
    ensures AllWrites([call] + rest)
    ensures var first := WriteCallStep(faults, k, regs, call);
      RunCalls(faults, k, regs, [call] + rest) ==
        if first.result.Err? then first else Then(first, RunCalls(faults, first.next, first.regs, rest))
  {
    assert ([call] + rest)[1..] == rest;
  }

  /** The five configuration calls written out one after the other, as probe issues them. */
  function ConfigureStep(faults: map<nat, int>, k: nat, regs: seq<bv8>): (s: Step<()>)
    requires Total(regs)
    ensures Total(s.regs)
  {
    var s1 := WriteStep(faults, k, regs, PwrMgmt1, 0x01);
    if s1.result.Err? then s1 else
    var s2 := WriteStep(faults, s1.next, s1.regs, Config, 0x03);
    if s2.result.Err? then Then(s1, s2) else
    var s3 := WriteStep(faults, s2.next, s2.regs, SmplrtDiv, 9);
    if s3.result.Err? then Then(s1, Then(s2, s3)) else
    var s4 := UpdateStep(faults, s3.next, s3.regs, AccelConfig, FsSelMask, 0);
    if s4.result.Err? then Then(s1, Then(s2, Then(s3, s4))) else
    var s5 := UpdateStep(faults, s4.next, s4.regs, GyroConfig, FsSelMask, 0);
    Then(s1, Then(s2, Then(s3, Then(s4, s5))))
  }

  /** Writing the configuration calls out one by one is issuing InitSequence. */
  lemma ConfigureIsRunCalls(faults: map<nat, int>, k: nat, regs: seq<bv8>)
    requires Total(regs)
    ensures ConfigureStep(faults, k, regs) == RunCalls(faults, k, regs, InitSequence)
  {
    var c1, c2, c3, c4, c5 := Write(PwrMgmt1, 0x01), Write(Config, 0x03), Write(SmplrtDiv, 9),
      Update(AccelConfig, FsSelMask, 0), Update(GyroConfig, FsSelMask, 0);
    assert InitSequence == [c1] + ([c2] + ([c3] + ([c4] + ([c5] + []))));
    var s1 := WriteStep(faults, k, regs, PwrMgmt1, 0x01);
    var s2 := WriteStep(faults, s1.next, s1.regs, Config, 0x03);
    var s3 := WriteStep(faults, s2.next, s2.regs, SmplrtDiv, 9);
    var s4 := UpdateStep(faults, s3.next, s3.regs, AccelConfig, FsSelMask, 0);
    var s5 := UpdateStep(faults, s4.next, s4.regs, GyroConfig, FsSelMask, 0);
    RunCallsCons(faults, s4.next, s4.regs, c5, []);
    assert s5.events + [] == s5.events;
    RunCallsCons(faults, s3.next, s3.regs, c4, [c5] + []);
    RunCallsCons(faults, s2.next, s2.regs, c3, [c4] + ([c5] + []));
    RunCallsCons(faults, s1.next, s1.regs, c2, [c3] + ([c4] + ([c5] + [])));
    RunCallsCons(faults, k, regs, c1, [c2] + ([c3] + ([c4] + ([c5] + []))));
  }

  /** probe's register sequence: WHO_AM_I first; a failed read fails probe with its
      error and a different identity fails with ENODEV, both without further calls;
      otherwise the configuration calls follow until the first failure. */
  function ProbeStep(faults: map<nat, int>, k: nat, regs: seq<bv8>): (s: Step<()>)
    requires Total(regs)
    ensures Total(s.regs) && s.events != [] && s.events[0] == Read(WhoAmI)
    ensures k in faults ==> s == Step(Err(Transport(faults[k])), [Read(WhoAmI)], regs, k + 1)
    ensures k !in faults && regs[WhoAmI] != ChipId ==>
      s == Step(Err(ENoDev), [Read(WhoAmI)], regs, k + 1)
  {
    var id := ReadStep(faults, k, regs, WhoAmI);
    if id.result.Err? then Step(Err(id.result.error), id.events, regs, id.next)
    else if id.result.value != ChipId then Step(Err(ENoDev), id.events, regs, id.next)
    else
      var init := ConfigureStep(faults, id.next, regs);
      Step(init.result, id.events + init.events, init.regs, init.next)
  }

  /** Probe's register calls are a prefix of the identity read followed by the five
      configuration calls; with no bus fault and the right identity, all of them are
      made, in order, and the chip is left at 100 Hz with the smallest range for both
      sensors. */
  lemma ProbeConfigures(faults: map<nat, int>, k: nat, regs: seq<bv8>)
    requires Total(regs) && regs[WhoAmI] == ChipId
    requires forall j :: k <= j < k + 6 ==> j !in faults
    ensures var s := ProbeStep(faults, k, regs);
      s.result == Ok(()) && s.events == [Read(WhoAmI)] + InitSequence && s.next == k + 6 &&
      s.regs[PwrMgmt1] == 0x01 && s.regs[Config] == 0x03 && s.regs[SmplrtDiv] == 9 &&
      RateOf(s.regs[SmplrtDiv]) == 100 &&
      ScaleOfConfig(Accel, s.regs[AccelConfig]) == Scale(0, 599) &&
      ScaleOfConfig(AnglVel, s.regs[GyroConfig]) == Scale(0, 133)
  {
    ConfigureIsRunCalls(faults, k + 1, regs);
    var r3 := regs[PwrMgmt1 := 0x01][Config := 0x03][SmplrtDiv := 9];
    var r4 := r3[AccelConfig := UpdateBits(r3[AccelConfig], FsSelMask, 0)];
    var r5 := r4[GyroConfig := UpdateBits(r4[GyroConfig], FsSelMask, 0)];
    var c := ConfigureStep(faults, k + 1, regs);
    assert c.result == Ok(()) && c.regs == r5 && c.next == k + 6;
    assert c.events == InitSequence;
    FsSelectRoundTrip(r3[AccelConfig], 0);
    FsSelectRoundTrip(r4[GyroConfig], 0);
    assert FsBits(0) == 0;
    assert 1000 / 10 == 100;
  }

  /** Issuing calls stops exactly at the first failing bus call: the calls made are a
      prefix of those asked for, all succeeded except possibly the last one made, whose
      error is the result; the result is success exactly when no call faulted. */
  lemma {:induction false} RunCallsStopsAtFirstFault(faults: map<nat, int>, k: nat, regs: seq<bv8>, calls: seq<Event>)
    requires Total(regs) && AllWrites(calls)
    ensures var s := RunCalls(faults, k, regs, calls);
      var n := |s.events|;
      n <= |calls| && s.events == calls[..n] && s.next == k + n &&
      (s.result.Ok? <==> forall j :: k <= j < k + |calls| ==> j !in faults) &&
      (s.result.Ok? ==> n == |calls|) &&
      (s.result.Err? ==>
        0 < n && (forall j :: k <= j < k + n - 1 ==> j !in faults) &&
        k + n - 1 in faults && s.result == Err(Transport(faults[k + n - 1])))
    decreases |calls|
  {
    if calls != [] {
      var first := WriteCallStep(faults, k, regs, calls[0]);
      assert first.result.Err? ==> first.result == Err(Transport(faults[k]));
      if first.result.Ok? {
        assert AllWrites(calls[1..]);
        RunCallsStopsAtFirstFault(faults, k + 1, first.regs, calls[1..]);
        var rest := RunCalls(faults, k + 1, first.regs, calls[1..]);
        assert calls[..1 + |rest.events|] == [calls[0]] + calls[1..][..|rest.events|];
      }
    }
  }

  /** The calls probe makes are always a prefix of the identity read followed by the
      five configuration calls, and none of the configuration calls is made unless the
      identity read returned 0x68. */
  lemma ProbeCallsArePrefix(faults: map<nat, int>, k: nat, regs: seq<bv8>)
    requires Total(regs)
    ensures var s := ProbeStep(faults, k, regs);
      var n := |s.events|;
      1 <= n <= 6 && s.events == ([Read(WhoAmI)] + InitSequence)[..n] && s.next == k + n
    ensures var s := ProbeStep(faults, k, regs);
      |s.events| > 1 ==> k !in faults && regs[WhoAmI] == ChipId
  {
    var id := ReadStep(faults, k, regs, WhoAmI);
    if id.result.Ok? && id.result.value == ChipId {
      ConfigureIsRunCalls(faults, k + 1, regs);
      RunCallsStopsAtFirstFault(faults, k + 1, regs, InitSequence);
      var init := RunCalls(faults, k + 1, regs, InitSequence);
      assert ([Read(WhoAmI)] + InitSequence)[..1 + |init.events|] == [Read(WhoAmI)] + InitSequence[..|init.events|];
    }
  }

  /** What read_raw hands back: an integer (IIO_VAL_INT) or an integer with a micro part
      (IIO_VAL_INT_PLUS_MICRO). */
  datatype Value = IntVal(v: int) | IntPlusMicro(v: int, micro: int)

  /** The raw-sample branch of read_raw: inside a direct-mode claim and under the mutex,
      the channel's data register pair is read and decoded. */
  function SampleStep(faults: map<nat, int>, k: nat, regs: seq<bv8>, buffered: bool, t: ChanType, a: Axis): (s: Step<Value>)
    requires Total(regs)
    ensures s.regs == regs
    ensures buffered ==> s.result == Err(EBusy) && s.events == []
    ensures !buffered && DataRegister(t, a).None? ==>
      s.result == Err(EInval) && s.events == [Claim, Lock, Unlock, Release]
    ensures s.result.Ok? ==>
      var reg := DataRegister(t, a).value;
      s.events == [Claim, Lock, Read(reg), Read(reg + 1), Unlock, Release] &&
      s.result.value == IntVal(DecodeS16(regs[reg], regs[reg + 1]))
    ensures !buffered && DataRegister(t, a).Some? ==>
      (s.result.Ok? <==> k !in faults && k + 1 !in faults)
    ensures !buffered && DataRegister(t, a).Some? && k in faults ==>
      var reg := DataRegister(t, a).value;
      s.result == Err(Transport(faults[k])) && s.events == [Claim, Lock, Read(reg), Unlock, Release]
    ensures !buffered && DataRegister(t, a).Some? && k !in faults && k + 1 in faults ==>
      var reg := DataRegister(t, a).value;
      s.result == Err(Transport(faults[k + 1])) &&
      s.events == [Claim, Lock, Read(reg), Read(reg + 1), Unlock, Release]
  {
    if buffered then Step(Err(EBusy), [], regs, k)
    else
      match DataRegister(t, a)
      case None => Step(Err(EInval), [Claim, Lock, Unlock, Release], regs, k)
      case Some(reg) =>
        var rd := ReadU16Step(faults, k, regs, reg);
        var r := if rd.result.Ok? then Ok(IntVal(rd.result.value)) else Err(rd.result.error);
        Step(r, [Claim, Lock] + rd.events + [Unlock, Release], regs, rd.next)
  }

  /** read_raw for channel (t, a) and info element info, starting at bus call k, with the
      buffer enabled or not: a raw sample claims direct mode and takes the mutex around
      the two data reads; scale and sample rate take only the mutex. */
  function ReadRawStep(faults: map<nat, int>, k: nat, regs: seq<bv8>, buffered: bool,
                       t: ChanType, a: Axis, info: InfoMask): (s: Step<Value>)
    requires Total(regs)
    ensures s.regs == regs
    ensures info == InfoOther ==> s.result == Err(EInval) && s.events == []
    ensures info == InfoRaw && buffered ==> s.result == Err(EBusy) && s.events == []
    ensures info == InfoRaw && !buffered && DataRegister(t, a).None? ==>
      s.result == Err(EInval) && s.events == [Claim, Lock, Unlock, Release]
    ensures info == InfoRaw && s.result.Ok? ==>
      var reg := DataRegister(t, a).value;
      s.events == [Claim, Lock, Read(reg), Read(reg + 1), Unlock, Release] &&
      s.result.value == IntVal(DecodeS16(regs[reg], regs[reg + 1]))
    ensures info == InfoRaw && !buffered && DataRegister(t, a).Some? ==>
      (s.result.Ok? <==> k !in faults && k + 1 !in faults)
    ensures info == InfoRaw && !buffered && DataRegister(t, a).Some? && k in faults ==>
      var reg := DataRegister(t, a).value;
      s.result == Err(Transport(faults[k])) && s.events == [Claim, Lock, Read(reg), Unlock, Release]
    ensures info == InfoRaw && !buffered && DataRegister(t, a).Some? && k !in faults && k + 1 in faults ==>
      var reg := DataRegister(t, a).value;
      s.result == Err(Transport(faults[k + 1])) &&
      s.events == [Claim, Lock, Read(reg), Read(reg + 1), Unlock, Release]
    ensures info == InfoScale ==> (s.result.Ok? <==> t != OtherType && k !in faults)
    ensures info == InfoScale && t == OtherType ==> s.result == Err(EInval) && s.events == [Lock, Unlock]
    ensures info == InfoScale && t != OtherType ==> s.events == [Lock, Read(ConfigRegister(t).value), Unlock]
    ensures info == InfoScale && t != OtherType && k in faults ==> s.result == Err(Transport(faults[k]))
    ensures info == InfoScale && s.result.Ok? ==>
      t != OtherType && s.result.value.IntPlusMicro? &&
      Scale(s.result.value.v, s.result.value.micro) == ScaleOfConfig(t, regs[ConfigRegister(t).value])
    ensures info == InfoSampFreq && s.result.Ok? ==>
      s.result.value == IntVal(RateOf(regs[SmplrtDiv]))
    ensures info == InfoSampFreq ==> (s.result.Ok? <==> k !in faults)
    ensures info == InfoSampFreq ==> s.events == [Lock, Read(SmplrtDiv), Unlock]
    ensures info == InfoSampFreq && k in faults ==> s.result == Err(Transport(faults[k]))
  {
    match info
    case InfoRaw => SampleStep(faults, k, regs, buffered, t, a)
    case InfoScale =>
      var g := GetScaleStep(faults, k, regs, t);
      var r := if g.result.Ok? then Ok(IntPlusMicro(g.result.value.val, g.result.value.val2)) else Err(g.result.error);
      Step(r, [Lock] + g.events + [Unlock], regs, g.next)
    case InfoSampFreq =>
      var g := GetSampFreqStep(faults, k, regs);
      var r := if g.result.Ok? then Ok(IntVal(g.result.value)) else Err(g.result.error);
      Step(r, [Lock] + g.events + [Unlock], regs, g.next)
    case InfoOther => Step(Err(EInval), [], regs, k)
  }

  /** write_raw for channel type t: a scale or (with val2 == 0) a sample rate is written
      inside a direct-mode claim and under the mutex; anything else is refused. */
  function WriteRawStep(faults: map<nat, int>, k: nat, regs: seq<bv8>, buffered: bool,
                        t: ChanType, val: int, val2: int, info: InfoMask): (s: Step<()>)
    requires Total(regs)
    ensures Total(s.regs)
    ensures info == InfoRaw || info == InfoOther ==> s.result == Err(EInval) && s.events == [] && s.regs == regs
    ensures info == InfoSampFreq && val2 != 0 ==> s.result == Err(EInval) && s.events == [] && s.regs == regs
    ensures (info == InfoScale || (info == InfoSampFreq && val2 == 0)) && buffered ==>
      s.result == Err(EBusy) && s.events == [] && s.regs == regs
    ensures info == InfoScale && !buffered ==>
      var st := SetScaleStep(faults, k, regs, t, val, val2);
      s == Step(st.result, [Claim, Lock] + st.events + [Unlock, Release], st.regs, st.next)
    ensures info == InfoSampFreq && val2 == 0 && !buffered ==>
      var st := SetSampFreqStep(faults, k, regs, val);
      s == Step(st.result, [Claim, Lock] + st.events + [Unlock, Release], st.regs, st.next)
  {
    match info
    case InfoScale =>
      if buffered then Step(Err(EBusy), [], regs, k)
      else
        var st := SetScaleStep(faults, k, regs, t, val, val2);
        Step(st.result, [Claim, Lock] + st.events + [Unlock, Release], st.regs, st.next)
    case InfoSampFreq =>
      if val2 != 0 then Step(Err(EInval), [], regs, k)
      else if buffered then Step(Err(EBusy), [], regs, k)
      else
        var st := SetSampFreqStep(faults, k, regs, val);
        Step(st.result, [Claim, Lock] + st.events + [Unlock, Release], st.regs, st.next)
    case _ => Step(Err(EInval), [], regs, k)
  }

  /** Every path through read_raw, success or failure, drops the mutex and the
      direct-mode claim it took, and touches registers only while holding the mutex. */
  lemma ReadRawSerialized(faults: map<nat, int>, k: nat, regs: seq<bv8>, buffered: bool,
                          t: ChanType, a: Axis, info: InfoMask)
    requires Total(regs)
    ensures Serialized(ReadRawStep(faults, k, regs, buffered, t, a, info).events)
  {
    var s := ReadRawStep(faults, k, regs, buffered, t, a, info);
    match info
    case InfoRaw =>
      if !buffered {
        match DataRegister(t, a)
        case None => Bracketed([]);
        case Some(reg) =>
          var rd := ReadU16Step(faults, k, regs, reg);
          assert s.events == [Claim, Lock] + rd.events + [Unlock, Release];
          Bracketed(rd.events);
      }
    case InfoScale =>
      var g := GetScaleStep(faults, k, regs, t);
      assert s.events == [Lock] + g.events + [Unlock];
      Bracketed(g.events);
    case InfoSampFreq =>
      var g := GetSampFreqStep(faults, k, regs);
      assert s.events == [Lock] + g.events + [Unlock];
      Bracketed(g.events);
    case InfoOther =>
  }

  /** Every path through write_raw drops the mutex and the direct-mode claim it took,
      and touches registers only while holding the mutex. */
  lemma WriteRawSerialized(faults: map<nat, int>, k: nat, regs: seq<bv8>, buffered: bool,
                           t: ChanType, val: int, val2: int, info: InfoMask)
    requires Total(regs)
    ensures Serialized(WriteRawStep(faults, k, regs, buffered, t, val, val2, info).events)
  {
    if !buffered {
      if info == InfoScale {
        Bracketed(SetScaleStep(faults, k, regs, t, val, val2).events);
      } else if info == InfoSampFreq && val2 == 0 {
        Bracketed(SetSampFreqStep(faults, k, regs, val).events);
      }
    }
  }

  /** The scale round trip through the IIO callbacks: when write_raw stores a scale of
      the type's table and its bus call succeeds, read_raw of the scale on any channel of
      that type returns it, unless its own bus call fails. The write succeeds exactly when
      its bus call does. */
  lemma ScaleWriteReadRoundTrip(faults: map<nat, int>, k: nat, regs: seq<bv8>, t: ChanType, a: Axis, val2: int)
    requires Total(regs) && t != OtherType && Scale(0, val2) in ScaleTable(t).value
    ensures var w := WriteRawStep(faults, k, regs, false, t, 0, val2, InfoScale);
      (w.result.Ok? <==> k !in faults) &&
      (w.result.Ok? && w.next !in faults ==>
        ReadRawStep(faults, w.next, w.regs, false, t, a, InfoScale).result == Ok(IntPlusMicro(0, val2)))
  {
    SetScaleEffect(faults, k, regs, t, 0, val2);
  }

  /** Setting one type's scale leaves the other type's scale as it was. */
  lemma ScaleSettingsIndependent(faults: map<nat, int>, k: nat, regs: seq<bv8>, t: ChanType, other: ChanType, val: int, val2: int)
    requires Total(regs) && t != OtherType && other != OtherType && other != t
    ensures var s := SetScaleStep(faults, k, regs, t, val, val2);
      ScaleOfConfig(other, s.regs[ConfigRegister(other).value]) == ScaleOfConfig(other, regs[ConfigRegister(other).value])
  {
    if val == 0 && Scale(val, val2) in ScaleTable(t).value {
      SetScaleEffect(faults, k, regs, t, val, val2);
    }
  }

  /** The sample-rate round trip through the IIO callbacks: write_raw of a rate (with a
      zero micro part) succeeds exactly for the exact rates whose divisor fits the
      register, and with a working bus read_raw then returns that rate. */
  lemma SampFreqWriteReadRoundTrip(faults: map<nat, int>, k: nat, regs: seq<bv8>, t: ChanType, a: Axis, hz: int)
    requires Total(regs)
    ensures var w := WriteRawStep(faults, k, regs, false, t, hz, 0, InfoSampFreq);
      (w.result.Ok? <==> DivisorFor(hz).Some? && k !in faults) &&
      (w.result.Ok? ==> 0 < hz <= BaseRateHz && BaseRateHz % hz == 0) &&
      (w.result.Ok? && w.next !in faults ==>
        ReadRawStep(faults, w.next, w.regs, false, t, a, InfoSampFreq).result == Ok(IntVal(hz)))
  {
  }

  /** The driver state (registers, call counter, trace) after an operation whose effect is
      s, started with trace0, returned r. */
  ghost predicate Done<T>(s: Step<T>, r: Result<T>, trace0: seq<Event>, regs: seq<bv8>, calls: nat, trace: seq<Event>)
  {
    r == s.result && regs == s.regs && calls == s.next && trace == trace0 + s.events
  }

  /** Finds the first table entry equal to (val, val2), or |table| when there is none:
      set_scale's search loop, which stops at the first match. */
  method FindScale(table: seq<Scale>, val: int, val2: int) returns (i: nat)
    ensures i <= |table|
    ensures forall j :: 0 <= j < i ==> table[j] != Scale(val, val2)
    ensures i < |table| ==> table[i] == Scale(val, val2)
    ensures i == ScaleIndexOf(table, Scale(val, val2))
  {
    i := 0;
    while i < |table|
      invariant i <= |table|
      invariant forall j :: 0 <= j < i ==> table[j] != Scale(val, val2)
    {
      if table[i].val == val && table[i].val2 == val2 {
        break;
      }
      i := i + 1;
    }
  }

  /** The driver state behind one IIO device: the chip's register file as seen through
      the regmap, the bus faults that will hit given regmap calls (numbered from 0), the
      driver mutex, the IIO direct-mode claim and whether the buffer is enabled. The ghost
      trace records every regmap call and every mutex and claim transition. */
  class Mpu6050 {
    var regs: seq<bv8>
    const faults: map<nat, int>
    var calls: nat
    var locked: bool
    var claimed: bool
    const buffered: bool
    ghost var trace: seq<Event>

    constructor (regs0: seq<bv8>, faults0: map<nat, int>, buffered0: bool)
      requires Total(regs0)
      ensures Total(regs) && regs == regs0 && faults == faults0 && buffered == buffered0
      ensures calls == 0 && !locked && !claimed && trace == []
    {
      regs := regs0;
      faults := faults0;
      buffered := buffered0;
      calls := 0;
      locked := false;
      claimed := false;
      trace := [];
    }

    /** regmap_read. */
    method RegRead(reg: Addr) returns (r: Result<bv8>)
      requires Total(regs)
      modifies this`calls, this`trace
      ensures Total(regs) && Done(ReadStep(faults, old(calls), regs, reg), r, old(trace), regs, calls, trace)
    {
      if calls in faults {
        r := Err(Transport(faults[calls]));
      } else {
        r := Ok(regs[reg]);
      }
      trace := trace + [Read(reg)];
      calls := calls + 1;
    }

    /** regmap_write. */
    method RegWrite(reg: Addr, val: bv8) returns (r: Result<()>)
      requires Total(regs)
      modifies this`regs, this`calls, this`trace
      ensures Total(regs) && Done(WriteStep(faults, old(calls), old(regs), reg, val), r, old(trace), regs, calls, trace)
    {
      if calls in faults {
        r := Err(Transport(faults[calls]));
      } else {
        regs := regs[reg := val];
        r := Ok(());
      }
      trace := trace + [Write(reg, val)];
      calls := calls + 1;
    }

    /** regmap_update_bits. */
    method RegUpdateBits(reg: Addr, mask: bv8, bits: bv8) returns (r: Result<()>)
      requires Total(regs)
      modifies this`regs, this`calls, this`trace
      ensures Total(regs) && Done(UpdateStep(faults, old(calls), old(regs), reg, mask, bits), r, old(trace), regs, calls, trace)
    {
      if calls in faults {
        r := Err(Transport(faults[calls]));
      } else {
        regs := regs[reg := (regs[reg] & !mask) | (bits & mask)];
        r := Ok(());
      }
      trace := trace + [Update(reg, mask, bits)];
      calls := calls + 1;
    }

    /** mutex_lock; the caller must not hold the mutex already (blocking on another
        holder is not modelled). */
    method MutexLock()
      requires !locked
      modifies this`locked, this`trace
      ensures locked && trace == old(trace) + [Lock]
    {
      locked := true;
      trace := trace + [Lock];
    }

    /** mutex_unlock of a held mutex. */
    method MutexUnlock()
      requires locked
      modifies this`locked, this`trace
      ensures !locked && trace == old(trace) + [Unlock]
    {
      locked := false;
      trace := trace + [Unlock];
    }

    /** iio_device_claim_direct_mode: refused with EBUSY while the buffer is enabled. */
    method ClaimDirectMode() returns (r: Result<()>)
      requires !claimed
      modifies this`claimed, this`trace
      ensures r == if buffered then Err(EBusy) else Ok(())
      ensures claimed == r.Ok? && trace == old(trace) + (if r.Ok? then [Claim] else [])
    {
      if buffered {
        r := Err(EBusy);
      } else {
        claimed := true;
        trace := trace + [Claim];
        r := Ok(());
      }
    }

    /** iio_device_release_direct_mode of a held claim. */
    method ReleaseDirectMode()
      requires claimed
      modifies this`claimed, this`trace
      ensures !claimed && trace == old(trace) + [Release]
    {
      claimed := false;
      trace := trace + [Release];
    }

    /** mpu6050_read_u16be. */
    method ReadU16Be(reg: Addr) returns (r: Result<int>)
      requires Total(regs) && reg < 0xFF
      modifies this`calls, this`trace
      ensures Total(regs) && Done(ReadU16Step(faults, old(calls), regs, reg), r, old(trace), regs, calls, trace)
    {
      var hi := RegRead(reg);
      if hi.Err? {
        return Err(hi.error);
      }
      var lo := RegRead(reg + 1);
      if lo.Err? {
        return Err(lo.error);
      }
      r := Ok(DecodeS16(hi.value, lo.value));
    }

    /** mpu6050_get_scale. */
    method GetScale(t: ChanType) returns (r: Result<Scale>)
      requires Total(regs)
      modifies this`calls, this`trace
      ensures Total(regs) && Done(GetScaleStep(faults, old(calls), regs, t), r, old(trace), regs, calls, trace)
    {
      var reg: Addr;
      match t {
        case Accel => reg := AccelConfig;
        case AnglVel => reg := GyroConfig;
        case OtherType => return Err(EInval);
      }
      var regval := RegRead(reg);
      if regval.Err? {
        return Err(regval.error);
      }
      var idx := (regval.value & FsSelMask) >> FsSelShift;
      // The field is two bits wide, so the driver's "idx > 3" refusal never fires.
      FsSelMaskIsField(regval.value);
      assert idx <= 3;
      if t == Accel {
        r := Ok(AccelScales[idx as int]);
      } else {
        r := Ok(GyroScales[idx as int]);
      }
    }

    /** mpu6050_set_scale. */
    method SetScale(t: ChanType, val: int, val2: int) returns (r: Result<()>)
      requires Total(regs)
      modifies this`regs, this`calls, this`trace
      ensures Total(regs) && Done(SetScaleStep(faults, old(calls), old(regs), t, val, val2), r, old(trace), regs, calls, trace)
    {
      if val != 0 {
        return Err(EInval);
      }
      var reg: Addr;
      var i: nat;
      match t {
        case Accel =>
          reg := AccelConfig;
          i := FindScale(AccelScales, val, val2);
          if i == |AccelScales| {
            return Err(EInval);
          }
        case AnglVel =>
          reg := GyroConfig;
          i := FindScale(GyroScales, val, val2);
          if i == |GyroScales| {
            return Err(EInval);
          }
        case OtherType =>
          return Err(EInval);
      }
      var bits := (i as bv8) << FsSelShift;
      r := RegUpdateBits(reg, FsSelMask, bits);
    }

    /** mpu6050_get_samp_freq. */
    method GetSampFreq() returns (r: Result<int>)
      requires Total(regs)
      modifies this`calls, this`trace
      ensures Total(regs) && Done(GetSampFreqStep(faults, old(calls), regs), r, old(trace), regs, calls, trace)
    {
      var div := RegRead(SmplrtDiv);
      if div.Err? {
        return Err(div.error);
      }
      r := Ok(BaseRateHz / (1 + (div.value & 0xFF) as int));
    }

    /** mpu6050_set_samp_freq. */
    method SetSampFreq(hz: int) returns (r: Result<()>)
      requires Total(regs)
      modifies this`regs, this`calls, this`trace
      ensures Total(regs) && Done(SetSampFreqStep(faults, old(calls), old(regs), hz), r, old(trace), regs, calls, trace)
    {
      if hz <= 0 || hz > BaseRateHz {
        return Err(EInval);
      }
      if BaseRateHz % hz != 0 {
        return Err(EInval);
      }
      var div := BaseRateHz / hz - 1;
      if div < 0 || div > 255 {
        return Err(EInval);
      }
      r := RegWrite(SmplrtDiv, div as bv8);
    }
  
    /** mpu6050_read_raw. */
    method ReadRaw(t: ChanType, a: Axis, info: InfoMask) returns (r: Result<Value>)
      requires Total(regs) && !locked && !claimed
      modifies this`calls, this`trace, this`locked, this`claimed
      ensures Total(regs) && !locked && !claimed
      ensures Done(ReadRawStep(faults, old(calls), regs, buffered, t, a, info), r, old(trace), regs, calls, trace)
      ensures Serialized(trace[|old(trace)|..])
    {
      ghost var k0, trace0 := calls, trace;
      ghost var goal := ReadRawStep(faults, k0, regs, buffered, t, a, info);
      match info {
        case InfoRaw =>
          r := ReadSample(t, a);
        case InfoScale =>
          MutexLock();
          var scale := GetScale(t);
          MutexUnlock();
          LockedHistory(trace0, GetScaleStep(faults, k0, regs, t).events);
          r := if scale.Err? then Err(scale.error) else Ok(IntPlusMicro(scale.value.val, scale.value.val2));
        case InfoSampFreq =>
          MutexLock();
          var hz := GetSampFreq();
          MutexUnlock();
          LockedHistory(trace0, GetSampFreqStep(faults, k0, regs).events);
          r := if hz.Err? then Err(hz.error) else Ok(IntVal(hz.value));
        case InfoOther =>
          r := Err(EInval);
      }
      ReadRawSerialized(faults, k0, regs, buffered, t, a, info);
      AppendedPart(trace0, goal.events);
    }

    /** The IIO_CHAN_INFO_RAW branch of mpu6050_read_raw. The driver checks the type and
        then the axis under the mutex, and both refusals unlock, release and return
        EINVAL alike; DataRegister makes both checks at once. */
    method ReadSample(t: ChanType, a: Axis) returns (r: Result<Value>)
      requires Total(regs) && !locked && !claimed
      modifies this`calls, this`trace, this`locked, this`claimed
      ensures !locked && !claimed
      ensures Done(SampleStep(faults, old(calls), regs, buffered, t, a), r, old(trace), regs, calls, trace)
    {
      ghost var k0, trace0 := calls, trace;
      ghost var goal := SampleStep(faults, k0, regs, buffered, t, a);
      var claim := ClaimDirectMode();
      if claim.Err? {
        return Err(claim.error);
      }
      MutexLock();
      var reg := DataRegister(t, a);
      if reg.None? {
        MutexUnlock();
        ReleaseDirectMode();
        assert goal == Step(Err(EInval), [Claim, Lock, Unlock, Release], regs, k0);
        ClaimedHistory(trace0, []);
        return Err(EInval);
      }
      ghost var read := ReadU16Step(faults, calls, regs, reg.value);
      assert goal.events == [Claim, Lock] + read.events + [Unlock, Release] && goal.next == read.next;
      assert goal.result == if read.result.Ok? then Ok(IntVal(read.result.value)) else Err(read.result.error);
      assert trace == trace0 + [Claim, Lock];
      var sample := ReadU16Be(reg.value);
      MutexUnlock();
      ReleaseDirectMode();
      ClaimedHistory(trace0, read.events);
      if sample.Err? {
        return Err(sample.error);
      }
      r := Ok(IntVal(sample.value));
    }

    /** mpu6050_write_raw. */
    method WriteRaw(t: ChanType, val: int, val2: int, info: InfoMask) returns (r: Result<()>)
      requires Total(regs) && !locked && !claimed
      modifies this`regs, this`calls, this`trace, this`locked, this`claimed
      ensures Total(regs) && !locked && !claimed
      ensures Done(WriteRawStep(faults, old(calls), old(regs), buffered, t, val, val2, info), r, old(trace), regs, calls, trace)
      ensures Serialized(trace[|old(trace)|..])
    {
      ghost var k0, regs0, trace0 := calls, regs, trace;
      WriteRawSerialized(faults, calls, regs, buffered, t, val, val2, info);
      match info {
        case InfoScale =>
          var claim := ClaimDirectMode();
          if claim.Err? {
            return Err(claim.error);
          }
          MutexLock();
          r := SetScale(t, val, val2);
          MutexUnlock();
          ReleaseDirectMode();
          ClaimedHistory(trace0, SetScaleStep(faults, k0, regs0, t, val, val2).events);
        case InfoSampFreq =>
          if val2 != 0 {
            return Err(EInval);
          }
          var claim := ClaimDirectMode();
          if claim.Err? {
            return Err(claim.error);
          }
          MutexLock();
          r := SetSampFreq(val);
          MutexUnlock();
          ReleaseDirectMode();
          ClaimedHistory(trace0, SetSampFreqStep(faults, k0, regs0, val).events);
        case _ =>
          r := Err(EInval);
      }
    }

    /** The register sequence of mpu6050_core_probe: the identity check, then the five
        configuration calls. */
    method Probe() returns (r: Result<()>)
      requires Total(regs)
      modifies this`regs, this`calls, this`trace
      ensures Total(regs) && Done(ProbeStep(faults, old(calls), old(regs)), r, old(trace), regs, calls, trace)
    {
      ghost var k0, regs0, trace0 := calls, regs, trace;
      var chipId := RegRead(WhoAmI);
      if chipId.Err? {
        return Err(chipId.error);
      }
      if chipId.value != ChipId {
        return Err(ENoDev);
      }
      ghost var init := ConfigureStep(faults, k0 + 1, regs0);
      r := Configure();
      JoinedHistory(trace0, [Read(WhoAmI)], init.events);
    }

    /** The configuration part of mpu6050_core_probe: five calls, each made only if the
        previous one succeeded. */
    method Configure() returns (r: Result<()>)
      requires Total(regs)
      modifies this`regs, this`calls, this`trace
      ensures Total(regs) && Done(ConfigureStep(faults, old(calls), old(regs)), r, old(trace), regs, calls, trace)
    {
      r := RegWrite(PwrMgmt1, 0x01);
      if r.Err? {
        return;
      }
      r := RegWrite(Config, 0x03);
      if r.Err? {
        return;
      }
      r := RegWrite(SmplrtDiv, 9);
      if r.Err? {
        return;
      }
      r := RegUpdateBits(AccelConfig, FsSelMask, 0 << FsSelShift);
      if r.Err? {
        return;
      }
      r := RegUpdateBits(GyroConfig, FsSelMask, 0 << FsSelShift);
    }
  }
}
