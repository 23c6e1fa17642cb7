/**
 * The clock and reset generator driver (clkrstgen.c): the device table read
 * from the ADT's /arm-io/clkrstgen "device-clocks" property, the five
 * device power-state registers PS0..PS4 at offsets 0x200..0x210 from the
 * block's base, and the operations that set or clear a device's bits in
 * them, by device name or by the ids of an ADT node's "clock-gates".
 */
module Clkrstgen {
  import opened Wrappers

  /** sizeof(struct clkrstgen_device): ten u32 fields, a 19-byte name and a u8 id, packed. */
  const DEVICE_SIZE: nat := 60
  /** strncmp bound of the name search. */
  const NAME_CMP: nat := 0x10
  /** Offsets of CLKRSTGEN_PS0..PS4 from the block's base. */
  const PS_OFFSETS: seq<nat> := [0x200, 0x204, 0x208, 0x20c, 0x210]

  /** The five per-register masks ps0..ps4 of a device. */
  type PsMasks = s: seq<bv32> | |s| == 5 witness [0, 0, 0, 0, 0]

  /** A struct clkrstgen_device; the unknown fields unk0..unk4 are not kept. */
  datatype Device = Device(ps: PsMasks, name: seq<bv8>, id: bv8)

  /** The packed struct is 60 bytes: the name starts at byte 40 and the id is byte 59. */
  lemma DeviceLayout()
    ensures 10 * 4 + 19 + 1 == DEVICE_SIZE
    ensures |PS_OFFSETS| == 5 && forall k | 0 <= k < 5 :: PS_OFFSETS[k] == 0x200 + 4 * k
  {
  }

  // ---------------------------------------------------------------------------
  // Decoding the device-clocks property

  /** The little-endian u32 at byte `off`. */
  function Le32(b: seq<bv8>, off: nat): bv32
    requires off + 4 <= |b|
  {
    (b[off] as bv32) | ((b[off + 1] as bv32) << 8) | ((b[off + 2] as bv32) << 16) | ((b[off + 3] as bv32) << 24)
  }

  /** The device whose packed struct starts at byte `off`: ps0..ps4 are the u32s at 8..28, then the name and the id. */
  function DecodeDevice(b: seq<bv8>, off: nat): (d: Device)
    requires off + DEVICE_SIZE <= |b|
    ensures d.name == b[off + 40..off + 59] && d.id == b[off + 59]
    ensures forall k | 0 <= k < 5 :: d.ps[k] == Le32(b, off + 8 + 4 * k)
  {
    var ps := [Le32(b, off + 8), Le32(b, off + 12), Le32(b, off + 16), Le32(b, off + 20), Le32(b, off + 24)];
    Device(ps, b[off + 40..off + 59], b[off + 59])
  }

  /** The table clkrstgen_init installs: `(len - 4) / 60` packed structs after a 4-byte header. */
  function DecodeDevices(b: seq<bv8>): (ds: seq<Device>)
    requires |b| >= 4
    ensures |ds| == (|b| - 4) / DEVICE_SIZE
    ensures forall i | 0 <= i < |ds| :: 4 + DEVICE_SIZE * i + DEVICE_SIZE <= |b| && ds[i] == DecodeDevice(b, 4 + DEVICE_SIZE * i)
  {
    var n := (|b| - 4) / 60;
    seq(n, i requires 0 <= i < n => DecodeDevice(b, 4 + 60 * i))
  }

  // ---------------------------------------------------------------------------
  // Names and ids

  /** The C string held in `s`: its bytes before the first NUL, or all of it. */
  function CStr(s: seq<bv8>): (r: seq<bv8>)
    ensures r <= s && 0 !in r
    ensures |r| < |s| ==> s[|r|] == 0
  {
    if |s| == 0 || s[0] == 0 then [] else [s[0]] + CStr(s[1..])
  }

  /** At most the first `n` elements of `s`. */
  function Take(s: seq<bv8>, n: nat): (r: seq<bv8>)
    ensures r <= s && |r| == if |s| < n then |s| else n
  {
    if |s| <= n then s else s[..n]
  }

  /** strncmp(a, b, 16) == 0: the two C strings agree on their first 16 characters, their ends included. */
  predicate NameMatch(a: seq<bv8>, b: seq<bv8>)
  {
    Take(CStr(a), NAME_CMP) == Take(CStr(b), NAME_CMP)
  }

  /** The first device from `i` on whose name matches, or `|ds|`. */
  function NamedFrom(ds: seq<Device>, name: seq<bv8>, i: nat): (k: nat)
    requires i <= |ds|
    ensures i <= k <= |ds|
    ensures k < |ds| ==> NameMatch(ds[k].name, name)
    ensures forall j | i <= j < k :: !NameMatch(ds[j].name, name)
    decreases |ds| - i
  {
    if i == |ds| then i
    else if NameMatch(ds[i].name, name) then i
    else NamedFrom(ds, name, i + 1)
  }

  /** The first device whose name matches, or `|ds|` when none does. */
  function FirstNamed(ds: seq<Device>, name: seq<bv8>): (k: nat)
    ensures k <= |ds|
  {
    NamedFrom(ds, name, 0)
  }

  /** The first device with id `id` from `i` on, or `|ds|`. */
  function IdFrom(ds: seq<Device>, id: bv8, i: nat): (k: nat)
    requires i <= |ds|
    ensures i <= k <= |ds|
    ensures k < |ds| ==> ds[k].id == id
    ensures forall j | i <= j < k :: ds[j].id != id
    decreases |ds| - i
  {
    if i == |ds| then i
    else if ds[i].id == id then i
    else IdFrom(ds, id, i + 1)
  }

  /** The first device with id `id`, or `|ds|` when there is none. */
  function FirstId(ds: seq<Device>, id: bv8): (k: nat)
    ensures k <= |ds|
  {
    IdFrom(ds, id, 0)
  }

  /** FIELD_GET(CLKRSTGEN_DEVICE_ID, g): the low 8 bits of a clock-gates entry (Bits.DeviceIdField). */
  function GateId(g: bv32): bv8
  {
    (g & 0xff) as bv8
  }

  // ---------------------------------------------------------------------------
  // The power-state registers

  /** clear32 on one register: the bits of `m` become 0. */
  function Clear(x: bv32, m: bv32): bv32
  {
    x & !m
  }

  /** set32 on one register: the bits of `m` become 1. */
  function Set(x: bv32, m: bv32): bv32
  {
    x | m
  }

  /** One register after toggling a device with mask `m`. */
  function ToggleWord(x: bv32, m: bv32, enable: bool): bv32
  {
    if enable then Clear(x, m) else Set(x, m)
  }

  /**
   * Enabling leaves none of the mask's bits set and disabling leaves all of
   * them set; in both directions every other bit keeps its value.
   */
  lemma ToggleWordBits(x: bv32, m: bv32, enable: bool)
    ensures ToggleWord(x, m, enable) & m == if enable then 0 else m
  {
    if enable {
      ClearBits(x, m);
    } else {
      SetBits(x, m);
    }
  }

  lemma ToggleWordKeeps(x: bv32, m: bv32, enable: bool)
    ensures ToggleWord(x, m, enable) & !m == x & !m
  {
    if enable {
      ClearKeeps(x, m);
    } else {
      SetKeeps(x, m);
    }
  }

  /** A second toggle the same way changes nothing. */
  lemma ToggleWordTwice(x: bv32, m: bv32, enable: bool)
    ensures ToggleWord(ToggleWord(x, m, enable), m, enable) == ToggleWord(x, m, enable)
  {
    if enable {
      ClearTwice(x, m);
    } else {
      SetTwice(x, m);
    }
  }

  lemma ClearBits(x: bv32, m: bv32)
    ensures Clear(x, m) & m == 0
  {
  }

  lemma ClearKeeps(x: bv32, m: bv32)
    ensures Clear(x, m) & !m == x & !m
  {
  }

  lemma ClearTwice(x: bv32, m: bv32)
    ensures Clear(Clear(x, m), m) == Clear(x, m)
  {
  }

  lemma SetBits(x: bv32, m: bv32)
    ensures Set(x, m) & m == m
  {
  }

  lemma SetKeeps(x: bv32, m: bv32)
    ensures Set(x, m) & !m == x & !m
  {
  }

  lemma SetTwice(x: bv32, m: bv32)
    ensures Set(Set(x, m), m) == Set(x, m)
  {
  }

  /** PS0..PS4 after clkrstgen_toggle: the device's bits cleared to enable, set to disable. */
  function ToggleRegs(regs: seq<bv32>, ps: PsMasks, enable: bool): (r: seq<bv32>)
    requires |regs| == 5
    ensures |r| == 5
  {
    seq(5, k requires 0 <= k < 5 => ToggleWord(regs[k], ps[k], enable))
  }

  /** Toggling a device twice the same way is toggling it once. */
  lemma ToggleTwice(regs: seq<bv32>, ps: PsMasks, enable: bool)
    requires |regs| == 5
    ensures ToggleRegs(ToggleRegs(regs, ps, enable), ps, enable) == ToggleRegs(regs, ps, enable)
  {
    forall k | 0 <= k < 5
      ensures ToggleRegs(ToggleRegs(regs, ps, enable), ps, enable)[k] == ToggleRegs(regs, ps, enable)[k]
    {
      ToggleWordTwice(regs[k], ps[k], enable);
    }
  }

  /** A clock-gates entry whose id is 0 (skipped) or names a device. */
  predicate GateKnown(ds: seq<Device>, gate: bv32)
  {
    GateId(gate) == 0 || FirstId(ds, GateId(gate)) < |ds|
  }

  /** PS0..PS4 after one clock-gates entry: a known nonzero id toggles the first device with it, anything else changes nothing. */
  function GateRegs(regs: seq<bv32>, ds: seq<Device>, gate: bv32, enable: bool): (r: seq<bv32>)
    requires |regs| == 5
    ensures |r| == 5
  {
    var id := GateId(gate);
    if id == 0 || FirstId(ds, id) == |ds| then regs
    else ToggleRegs(regs, ds[FirstId(ds, id)].ps, enable)
  }

  /** PS0..PS4 after the first `n` clock-gates entries have been processed in order. */
  function SetModeRegs(regs: seq<bv32>, ds: seq<Device>, gates: seq<bv32>, n: nat, enable: bool): (r: seq<bv32>)
    requires |regs| == 5 && n <= |gates|
    ensures |r| == 5
  {
    if n == 0 then regs
    else GateRegs(SetModeRegs(regs, ds, gates, n - 1, enable), ds, gates[n - 1], enable)
  }

  /** Every nonzero id among the first `n` clock-gates entries names a known device. */
  predicate AllFound(ds: seq<Device>, gates: seq<bv32>, n: nat)
    requires n <= |gates|
  {
    forall i | 0 <= i < n :: GateKnown(ds, gates[i])
  }

  lemma AllFoundNext(ds: seq<Device>, gates: seq<bv32>, i: nat)
    requires i < |gates|
    ensures AllFound(ds, gates, i + 1) <==> AllFound(ds, gates, i) && GateKnown(ds, gates[i])
  {
  }

  /** The masks one clock-gates entry toggles: the first device's for a known nonzero id, else none. */
  function GatePs(ds: seq<Device>, gate: bv32): PsMasks
  {
    var id := GateId(gate);
    if id == 0 || FirstId(ds, id) == |ds| then [0, 0, 0, 0, 0] else ds[FirstId(ds, id)].ps
  }

  /** The bits of register `k` that the first `n` entries toggle, or-ed together. */
  function GateMask(ds: seq<Device>, gates: seq<bv32>, n: nat, k: nat): bv32
    requires n <= |gates| && k < 5
  {
    if n == 0 then 0 else GateMask(ds, gates, n - 1, k) | GatePs(ds, gates[n - 1])[k]
  }

  /** Skipping an entry is toggling nothing. */
  lemma GateRegsIsToggle(regs: seq<bv32>, ds: seq<Device>, gate: bv32, enable: bool)
    requires |regs| == 5
    ensures GateRegs(regs, ds, gate, enable) == ToggleRegs(regs, GatePs(ds, gate), enable)
  {
    var id := GateId(gate);
    if id == 0 || FirstId(ds, id) == |ds| {
      forall k | 0 <= k < 5
        ensures ToggleRegs(regs, GatePs(ds, gate), enable)[k] == regs[k]
      {
        ToggleNothing(regs[k], enable);
      }
    }
  }

  /**
   * A whole clock-gates pass clears (enable) or sets (disable) in each
   * register exactly the union of the bits of the devices it names.
   */
  lemma {:induction false} SetModeIsMask(regs: seq<bv32>, ds: seq<Device>, gates: seq<bv32>, n: nat, enable: bool, k: nat)
    requires |regs| == 5 && n <= |gates| && k < 5
    ensures SetModeRegs(regs, ds, gates, n, enable)[k] == ToggleWord(regs[k], GateMask(ds, gates, n, k), enable)
  {
    if n == 0 {
      ToggleNothing(regs[k], enable);
    } else {
      SetModeIsMask(regs, ds, gates, n - 1, enable, k);
      SetModeStep(regs, ds, gates, n, enable, k);
    }
  }

  lemma SetModeStep(regs: seq<bv32>, ds: seq<Device>, gates: seq<bv32>, n: nat, enable: bool, k: nat)
    requires |regs| == 5 && 0 < n <= |gates| && k < 5
    requires SetModeRegs(regs, ds, gates, n - 1, enable)[k] == ToggleWord(regs[k], GateMask(ds, gates, n - 1, k), enable)
    ensures SetModeRegs(regs, ds, gates, n, enable)[k] == ToggleWord(regs[k], GateMask(ds, gates, n, k), enable)
  {
    var before := SetModeRegs(regs, ds, gates, n - 1, enable);
    GateRegsIsToggle(before, ds, gates[n - 1], enable);
    GateStep(before, GatePs(ds, gates[n - 1]), enable, k, regs[k], GateMask(ds, gates, n - 1, k));
  }

  /** One more entry adds its device's bits to the mask already applied to a register. */
  lemma GateStep(before: seq<bv32>, ps: PsMasks, enable: bool, k: nat, x: bv32, mask: bv32)
    requires |before| == 5 && k < 5
    requires before[k] == ToggleWord(x, mask, enable)
    ensures ToggleRegs(before, ps, enable)[k] == ToggleWord(x, mask | ps[k], enable)
  {
    ToggleUnion(x, mask, ps[k], enable);
  }

  lemma ToggleNothing(x: bv32, enable: bool)
    ensures ToggleWord(x, 0, enable) == x
  {
  }

  lemma ToggleRegsAt(regs: seq<bv32>, ps: PsMasks, enable: bool, k: nat)
    requires |regs| == 5 && k < 5
    ensures ToggleRegs(regs, ps, enable)[k] == ToggleWord(regs[k], ps[k], enable)
  {
  }

  /** Toggling by `a` and then by `b` is toggling by their union. */
  lemma ToggleUnion(x: bv32, a: bv32, b: bv32, enable: bool)
    ensures ToggleWord(ToggleWord(x, a, enable), b, enable) == ToggleWord(x, a | b, enable)
  {
    if enable {
      ClearUnion(x, a, b);
    } else {
      SetUnion(x, a, b);
    }
  }

  lemma ClearUnion(x: bv32, a: bv32, b: bv32)
    ensures Clear(Clear(x, a), b) == Clear(x, a | b)
  {
  }

  lemma SetUnion(x: bv32, a: bv32, b: bv32)
    ensures Set(Set(x, a), b) == Set(x, a | b)
  {
    assert (x | a) | b == x | (a | b);
  }

  /** Running the same clock-gates pass twice leaves the registers as one pass does. */
  lemma SetModeTwice(regs: seq<bv32>, ds: seq<Device>, gates: seq<bv32>, n: nat, enable: bool)
    requires |regs| == 5 && n <= |gates|
    ensures var once := SetModeRegs(regs, ds, gates, n, enable);
            SetModeRegs(once, ds, gates, n, enable) == once
  {
    var once := SetModeRegs(regs, ds, gates, n, enable);
    var twice := SetModeRegs(once, ds, gates, n, enable);
    forall k | 0 <= k < 5
      ensures twice[k] == once[k]
    {
      SetModeIsMask(regs, ds, gates, n, enable, k);
      SetModeIsMask(once, ds, gates, n, enable, k);
      ToggleWordTwice(regs[k], GateMask(ds, gates, n, k), enable);
    }
  }

  /** The driver's state: the block's base, the device table, and PS0..PS4. */
  class Generator {
    var base: nat
    var devices: seq<Device>
    var regs: array<bv32>

    predicate Valid()
      reads this
    {
      regs.Length == 5
    }

    /** Before clkrstgen_init: no devices. */
    constructor (regs0: seq<bv32>)
      requires |regs0| == 5
      ensures Valid() && base == 0 && devices == [] && regs[..] == regs0 && fresh(regs)
    {
      base := 0;
      devices := [];
      regs := new bv32[5](k requires 0 <= k < 5 => regs0[k]);
    }

    /** clkrstgen_toggle: clear32 (enable) or set32 (disable) the device's mask in each of PS0..PS4; always 0. */
    method Toggle(dev: Device, enable: bool) returns (r: int)
      requires Valid()
      modifies regs
      ensures r == 0 && regs[..] == ToggleRegs(old(regs[..]), dev.ps, enable)
    {
      if enable {
        regs[0] := Clear(regs[0], dev.ps[0]);
        regs[1] := Clear(regs[1], dev.ps[1]);
        regs[2] := Clear(regs[2], dev.ps[2]);
        regs[3] := Clear(regs[3], dev.ps[3]);
        regs[4] := Clear(regs[4], dev.ps[4]);
      } else {
        regs[0] := Set(regs[0], dev.ps[0]);
        regs[1] := Set(regs[1], dev.ps[1]);
        regs[2] := Set(regs[2], dev.ps[2]);
        regs[3] := Set(regs[3], dev.ps[3]);
        regs[4] := Set(regs[4], dev.ps[4]);
      }
      r := 0;
    }

    /** The name search of clkrstgen_power_on/off: the first device whose name matches within 16 characters. */
    method FindNamed(name: seq<bv8>) returns (k: nat)
      ensures k == FirstNamed(devices, name)
    {
      k := 0;
      while k < |devices| && !NameMatch(devices[k].name, name)
        invariant k <= |devices| && NamedFrom(devices, name, k) == FirstNamed(devices, name)
      {
        k := k + 1;
      }
    }

    /** clkrstgen_power_on: enable the first device with a matching name; -1 and no write when there is none. */
    method PowerOn(name: seq<bv8>) returns (r: int)
      requires Valid()
      modifies regs
      ensures FirstNamed(devices, name) == |devices| ==> r == -1 && regs[..] == old(regs[..])
      ensures FirstNamed(devices, name) < |devices| ==>
                r == 0 && regs[..] == ToggleRegs(old(regs[..]), devices[FirstNamed(devices, name)].ps, true)
    {
      var k := FindNamed(name);
      if k == |devices| {
        return -1;
      }
      r := Toggle(devices[k], true);
    }

    /** clkrstgen_power_off: disable the first device with a matching name; -1 and no write when there is none. */
    method PowerOff(name: seq<bv8>) returns (r: int)
      requires Valid()
      modifies regs
      ensures FirstNamed(devices, name) == |devices| ==> r == -1 && regs[..] == old(regs[..])
      ensures FirstNamed(devices, name) < |devices| ==>
                r == 0 && regs[..] == ToggleRegs(old(regs[..]), devices[FirstNamed(devices, name)].ps, false)
    {
      var k := FindNamed(name);
      if k == |devices| {
        return -1;
      }
      r := Toggle(devices[k], false);
    }

    /** clkrstgen_find_device: 0 and the first device with id `id`, or -1 when there is none. */
    method FindDevice(id: bv8) returns (r: int, k: nat)
      ensures r == 0 || r == -1
      ensures r == 0 <==> FirstId(devices, id) < |devices|
      ensures r == 0 ==> k == FirstId(devices, id) && devices[k].id == id
    {
      k := 0;
      while k < |devices|
        invariant k <= |devices| && IdFrom(devices, id, k) == FirstId(devices, id)
      {
        if devices[k].id == id {
          return 0, k;
        }
        k := k + 1;
      }
      r := -1;
    }

    /**
     * One pass of the loop in clkrstgen_adt_devices_set_mode: id 0 is
     * skipped, an unknown id is reported, a known one is toggled.
     */
    method ApplyGate(gate: bv32, enable: bool) returns (known: bool)
      requires Valid()
      modifies regs
      ensures known == GateKnown(devices, gate)
      ensures regs[..] == GateRegs(old(regs[..]), devices, gate, enable)
    {
      var device := GateId(gate);
      if device == 0 {
        return true;
      }
      var found, k := FindDevice(device);
      if found < 0 {
        return false;
      }
      var t := Toggle(devices[k], enable);
      known := true;
    }

    /**
     * clkrstgen_adt_devices_set_mode, with the node lookup and its
     * "clock-gates" property as `gates` (None when either is missing) and
     * the property's length in bytes as `lenBytes`. A missing or empty
     * property is -1 with no write. Otherwise each of the `lenBytes / 4`
     * entries with a nonzero id toggles the first device with that id; an
     * id with no device makes the result -1 but the pass goes on. The
     * result is 0 exactly when every nonzero id was found.
     */
    method SetMode(gates: Option<seq<bv32>>, lenBytes: nat, enable: bool) returns (ret: int)
      requires Valid()
      requires gates != None ==> lenBytes / 4 <= |gates.value|
      modifies regs
      ensures gates == None || lenBytes == 0 ==> ret == -1 && regs[..] == old(regs[..])
      ensures gates != None && lenBytes != 0 ==>
                (ret == 0 <==> AllFound(devices, gates.value, lenBytes / 4)) && (ret == 0 || ret == -1) &&
                regs[..] == SetModeRegs(old(regs[..]), devices, gates.value, lenBytes / 4, enable)
    {
      if gates == None || lenBytes == 0 {
        return -1;
      }
      var g := gates.value;
      var n := lenBytes / 4;
      ret := 0;
      var i := 0;
      while i < n
        invariant i <= n
        invariant regs[..] == SetModeRegs(old(regs[..]), devices, g, i, enable)
        invariant (ret == 0 <==> AllFound(devices, g, i)) && (ret == 0 || ret == -1)
      {
        AllFoundNext(devices, g, i);
        var known := ApplyGate(g[i], enable);
        if !known {
          ret := -1;
        }
        i := i + 1;
      }
    }

    /**
     * clkrstgen_init, with the ADT lookups as parameters: whether /arm-io
     * and /arm-io/clkrstgen exist, the "device-clocks" property's bytes,
     * and the block's "reg" base. Any of them missing, or a property
     * shorter than 4 bytes, is -1 and installs nothing. Otherwise the
     * table becomes the `(len - 4) / 60` packed structs after the 4-byte
     * header and PS0..PS4 are zeroed.
     */
    method Init(armIo: bool, node: bool, clocks: Option<seq<bv8>>, reg: Option<nat>) returns (r: int)
      requires Valid()
      modifies this`base, this`devices, regs
      ensures var ok := armIo && node && clocks != None && |clocks.value| >= 4 && reg != None;
              (!ok ==> r == -1 && base == old(base) && devices == old(devices) && regs[..] == old(regs[..])) &&
              (ok ==> r == 0 && base == reg.value && devices == DecodeDevices(clocks.value) &&
                      |devices| == (|clocks.value| - 4) / DEVICE_SIZE && regs[..] == [0, 0, 0, 0, 0])
    {
      if !armIo || !node {
        return -1;
      }
      if clocks == None || |clocks.value| < 4 {
        return -1;
      }
      if reg == None {
        return -1;
      }
      base := reg.value;
      devices := DecodeDevices(clocks.value);
      regs[0] := 0;
      regs[1] := 0;
      regs[2] := 0;
      regs[3] := 0;
      regs[4] := 0;
      r := 0;
    }
  }
}
