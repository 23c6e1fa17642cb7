/**
 * Kernel-boot staging state (kboot.c): the table of /chosen parameters that
 * kboot_set_chosen fills, the 16 KiB ring buffer behind the log console
 * device, the next_stage vector kboot_boot fills, and the initrd block
 * kboot_set_initrd places at the top of memory.
 */
module Kboot {
  import opened Wrappers
  import opened Bits
  import opened Mem
  import opened Boot
  import opened Machine

  /** MAX_CHOSEN_PARAMS */
  const MAX_CHOSEN_PARAMS: nat := 16
  /** LOGBUF_SIZE, SZ_16K */
  const LOGBUF_SIZE: nat := 16384

  /** One row of chosen_params: a name and a value, either of which may be NULL. */
  datatype Slot = Slot(name: Option<string>, value: Option<string>)

  /** The slot a fresh table holds. */
  const EMPTY: Slot := Slot(None, None)

  // ---------------------------------------------------------------------------
  // The /chosen parameter table

  /**
   * The first slot from `i` on that is empty or already holds `n`, or
   * `|t|` when there is none: where kboot_set_chosen's scan stops.
   */
  function FindFrom(t: seq<Slot>, n: string, i: nat): (k: nat)
    requires i <= |t|
    ensures i <= k <= |t|
    ensures k < |t| ==> t[k].name == None || t[k].name == Some(n)
    ensures forall j | i <= j < k :: t[j].name != None && t[j].name != Some(n)
    decreases |t| - i
  {
    if i == |t| then |t|
    else if t[i].name == None || t[i].name == Some(n) then i
    else FindFrom(t, n, i + 1)
  }

  /** The slot kboot_set_chosen(n, …) uses, or `|t|` when every slot holds another name. */
  function FindSlot(t: seq<Slot>, n: string): (k: nat)
    ensures k <= |t|
  {
    FindFrom(t, n, 0)
  }

  /**
   * The shape every reachable table has: the occupied slots form a prefix,
   * no name occurs twice, and an empty slot has no value.
   */
  predicate TableOk(t: seq<Slot>)
  {
    (forall i, j | 0 <= i < j < |t| :: t[j].name != None ==> t[i].name != None) &&
    (forall i, j | 0 <= i < j < |t| :: t[i].name != None ==> t[i].name != t[j].name) &&
    (forall i | 0 <= i < |t| :: t[i].name == None ==> t[i].value == None)
  }

  /** The table holds the parameter `n` with value `v` (None for a NULL value). */
  predicate Holds(t: seq<Slot>, n: string, v: Option<string>)
  {
    exists i | 0 <= i < |t| :: t[i] == Slot(Some(n), v)
  }

  /** The table after a successful kboot_set_chosen(n, v). */
  function Chosen(t: seq<Slot>, n: string, v: Option<string>): (r: seq<Slot>)
    requires FindSlot(t, n) < |t|
    ensures |r| == |t| && r[FindSlot(t, n)] == Slot(Some(n), v)
    ensures forall j | 0 <= j < |t| && j != FindSlot(t, n) :: r[j] == t[j]
  {
    t[FindSlot(t, n) := Slot(Some(n), v)]
  }

  /** A fresh table is well formed. */
  lemma EmptyTableOk()
    ensures TableOk(seq(MAX_CHOSEN_PARAMS, _ => EMPTY))
  {
  }

  /** A name the table already holds is found in its own slot, so no duplicate ever arises. */
  lemma ExistingNameReused(t: seq<Slot>, n: string, i: nat)
    requires TableOk(t) && i < |t| && t[i].name == Some(n)
    ensures FindSlot(t, n) == i
  {
  }

  /** A name the table does not hold goes into the first empty slot. */
  lemma NewNameFirstEmpty(t: seq<Slot>, n: string)
    requires TableOk(t) && forall j | 0 <= j < |t| :: t[j].name != Some(n)
    ensures var k := FindSlot(t, n);
            (k < |t| ==> t[k].name == None) &&
            (forall j | 0 <= j < k :: t[j].name != None) &&
            (k == |t| <==> forall j | 0 <= j < |t| :: t[j].name != None)
  {
  }

  /** Setting a parameter keeps the table well formed. */
  lemma ChosenKeepsTable(t: seq<Slot>, n: string, v: Option<string>)
    requires TableOk(t) && FindSlot(t, n) < |t|
    ensures TableOk(Chosen(t, n, v))
  {
    var k := FindSlot(t, n);
    var r := Chosen(t, n, v);
    forall i, j | 0 <= i < j < |r| && r[j].name != None
      ensures r[i].name != None
    {
      if j == k && t[k].name == None {
        assert t[i].name != None;
      }
    }
    forall i, j | 0 <= i < j < |r| && r[i].name != None
      ensures r[i].name != r[j].name
    {
      if i == k && t[k].name == None {
        assert t[j].name == None;
      } else if j == k {
        assert t[i].name != Some(n);
      }
    }
  }

  /**
   * After a successful kboot_set_chosen(n, v) the table holds `n` with
   * value `v` and nothing else for `n`, and every other parameter is as
   * before.
   */
  lemma ChosenLookup(t: seq<Slot>, n: string, v: Option<string>)
    requires TableOk(t) && FindSlot(t, n) < |t|
    ensures Holds(Chosen(t, n, v), n, v)
    ensures forall w :: Holds(Chosen(t, n, v), n, w) ==> w == v
    ensures forall m, w | m != n :: Holds(Chosen(t, n, v), m, w) <==> Holds(t, m, w)
  {
    var k := FindSlot(t, n);
    var r := Chosen(t, n, v);
    ChosenKeepsTable(t, n, v);
    assert r[k] == Slot(Some(n), v);
    forall w | Holds(r, n, w)
      ensures w == v
    {
      var i :| 0 <= i < |r| && r[i] == Slot(Some(n), w);
    }
    forall m, w | m != n
      ensures Holds(r, m, w) <==> Holds(t, m, w)
    {
      if Holds(t, m, w) {
        var i :| 0 <= i < |t| && t[i] == Slot(Some(m), w);
        assert i != k && r[i] == t[i];
      }
    }
  }

  // ---------------------------------------------------------------------------
  // The log ring buffer

  /** Ring position `t` bytes after `wp` in a ring of `n` bytes. */
  function Pos(wp: nat, t: nat, n: nat): (p: nat)
    requires n > 0
    ensures p < n
  {
    (wp + t) % n
  }

  /** Moving on by `s` and then by `t` is moving on by `s + t`. */
  lemma PosShift(wp: nat, s: nat, t: nat, n: nat)
    requires n > 0
    ensures Pos(Pos(wp, s, n), t, n) == Pos(wp, s + t, n)
  {
    var x := wp + s;
    DivModUnique(x + t, n, (x % n + t) / n + x / n, (x % n + t) % n);
  }

  /** Moving on by less than a whole ring never comes back to the start. */
  lemma PosMoves(wp: nat, s: nat, n: nat)
    requires 0 < s < n
    ensures Pos(wp, s, n) != Pos(wp, 0, n)
  {
    var q, r := wp / n, wp % n;
    if r + s < n {
      DivModUnique(wp + s, n, q, r + s);
    } else {
      DivModUnique(wp + s, n, q + 1, r + s - n);
    }
  }

  /** Moving on from `wp0 + off` to the end of the ring comes back to position 0. */
  lemma WrapsToStart(wp0: nat, off: nat, n: nat)
    requires n > 0
    ensures Pos(wp0, off + (n - Pos(wp0, off, n)), n) == 0
  {
    var p := Pos(wp0, off, n);
    PosShift(wp0, off, n - p, n);
    DivModUnique(p + (n - p), n, 1, 0);
  }

  /** A position inside the ring is its own place. */
  lemma PosHere(wp: nat, n: nat)
    requires wp < n
    ensures Pos(wp, 0, n) == wp
  {
    DivModUnique(wp, n, 0, wp);
  }

  /**
   * The ring after the bytes of `data` have been written one after the
   * other from position `wp` on, wrapping at the end: the reference the
   * chunked copy of log_console_iodev_write is proved against.
   */
  function RingWrite(ring: seq<bv8>, wp: nat, data: seq<bv8>): (r: seq<bv8>)
    requires wp < |ring|
    ensures |r| == |ring|
    decreases |data|
  {
    if data == [] then ring
    else RingWrite(ring[wp := data[0]], Pos(wp, 1, |ring|), data[1..])
  }

  /** Writing `a` then `b` is writing `a + b`. */
  lemma {:induction false} RingWriteAppend(ring: seq<bv8>, wp: nat, a: seq<bv8>, b: seq<bv8>)
    requires wp < |ring|
    ensures RingWrite(ring, wp, a + b) == RingWrite(RingWrite(ring, wp, a), Pos(wp, |a|, |ring|), b)
    decreases |a|
  {
    if a == [] {
      assert a + b == b;
      PosHere(wp, |ring|);
    } else {
      assert (a + b)[1..] == a[1..] + b;
      RingWriteAppend(ring[wp := a[0]], Pos(wp, 1, |ring|), a[1..], b);
      PosShift(wp, 1, |a| - 1, |ring|);
    }
  }

  /** Bytes that fit before the end of the ring land in one contiguous stretch. */
  lemma {:induction false} RingWriteChunk(ring: seq<bv8>, wp: nat, data: seq<bv8>)
    requires wp < |ring| && wp + |data| <= |ring|
    ensures RingWrite(ring, wp, data) == ring[..wp] + data + ring[wp + |data|..]
    decreases |data|
  {
    if data != [] {
      var ring' := ring[wp := data[0]];
      if wp + 1 < |ring| {
        PosHere(wp + 1, |ring|);
        RingWriteChunk(ring', wp + 1, data[1..]);
        assert ring'[..wp + 1] + data[1..] + ring'[wp + 1 + |data[1..]|..] == ring[..wp] + data + ring[wp + |data|..];
      } else {
        assert data[1..] == [];
        assert ring' == ring[..wp] + data + ring[wp + |data|..];
      }
    }
  }

  /** A position the writes never reach keeps its byte. */
  lemma {:induction false} RingWriteFrame(ring: seq<bv8>, wp: nat, data: seq<bv8>, p: nat)
    requires wp < |ring| && p < |ring|
    requires forall t | 0 <= t < |data| :: Pos(wp, t, |ring|) != p
    ensures RingWrite(ring, wp, data)[p] == ring[p]
    decreases |data|
  {
    if data != [] {
      var n := |ring|;
      PosHere(wp, n);
      assert Pos(wp, 0, n) != p;
      var wp' := Pos(wp, 1, n);
      forall t | 0 <= t < |data[1..]|
        ensures Pos(wp', t, n) != p
      {
        PosShift(wp, 1, t, n);
        assert Pos(wp, 1 + t, n) != p;
      }
      RingWriteFrame(ring[wp := data[0]], wp', data[1..], p);
    }
  }

  /** The last byte of a write lands `|a|` positions after `wp`. */
  lemma RingWriteLast(ring: seq<bv8>, wp: nat, a: seq<bv8>, x: bv8)
    requires wp < |ring|
    ensures RingWrite(ring, wp, a + [x])[Pos(wp, |a|, |ring|)] == x
  {
    RingWriteAppend(ring, wp, a, [x]);
    var mid := RingWrite(ring, wp, a);
    var p := Pos(wp, |a|, |ring|);
    assert RingWrite(mid, p, [x]) == RingWrite(mid[p := x], Pos(p, 1, |ring|), []);
  }

  /**
   * Each of the last `min(|data|, |ring|)` bytes ends at ring position
   * `(wp + j) mod |ring|`: no later byte of the same write lands there.
   */
  lemma RingWriteLands(ring: seq<bv8>, wp: nat, data: seq<bv8>, j: nat)
    requires wp < |ring| && j < |data| && |data| - j <= |ring|
    ensures RingWrite(ring, wp, data)[Pos(wp, j, |ring|)] == data[j]
  {
    var head := data[..j] + [data[j]];
    var tail := data[j + 1..];
    assert data == head + tail;
    RingWriteAppend(ring, wp, head, tail);
    RingWriteLast(ring, wp, data[..j], data[j]);
    TailMisses(RingWrite(ring, wp, head), wp, j, tail);
  }

  /** The bytes after the one at `j`, fewer than a whole ring, do not overwrite it. */
  lemma TailMisses(mid: seq<bv8>, wp: nat, j: nat, tail: seq<bv8>)
    requires |tail| < |mid|
    ensures RingWrite(mid, Pos(wp, j + 1, |mid|), tail)[Pos(wp, j, |mid|)] == mid[Pos(wp, j, |mid|)]
  {
    var n := |mid|;
    var wp' := Pos(wp, j + 1, n);
    forall t | 0 <= t < |tail|
      ensures Pos(wp', t, n) != Pos(wp, j, n)
    {
      LaterMisses(wp, j, t, n);
    }
    RingWriteFrame(mid, wp', tail, Pos(wp, j, n));
  }

  /** A byte written after the one at `j`, less than a whole ring later, lands elsewhere. */
  lemma LaterMisses(wp: nat, j: nat, t: nat, n: nat)
    requires t + 1 < n
    ensures Pos(Pos(wp, j + 1, n), t, n) != Pos(wp, j, n)
  {
    PosShift(wp, j + 1, t, n);
    PosShift(wp, j, t + 1, n);
    var p := Pos(wp, j, n);
    PosMoves(p, t + 1, n);
    PosHere(p, n);
  }

  /** With fewer bytes than the ring holds, the positions the write does not reach are unchanged. */
  lemma RingWriteKeeps(ring: seq<bv8>, wp: nat, data: seq<bv8>, p: nat)
    requires wp < |ring| && p < |ring|
    requires forall j | 0 <= j < |data| :: Pos(wp, j, |ring|) != p
    ensures RingWrite(ring, wp, data)[p] == ring[p]
  {
    RingWriteFrame(ring, wp, data, p);
  }

  // ---------------------------------------------------------------------------
  // The staging state

  class KbootState {
    /** chosen_params */
    var chosen: array<Slot>
    /** logbuf.buffer, and whether it is set (non-NULL) */
    var logBuf: array<bv8>
    var logOn: bool
    /** logbuf.wp */
    var wp: nat
    /** dt, the device-tree pointer */
    var dt: nat
    /** initrd_start and initrd_size */
    var initrdStart: nat
    var initrdSize: nat
    /** next_stage.entry, next_stage.args and next_stage.restore_logo */
    var entry: nat
    var stageArgs: seq<nat>
    var restoreLogo: bool

    predicate Valid()
      reads this, chosen
    {
      chosen.Length == MAX_CHOSEN_PARAMS && TableOk(chosen[..]) &&
      logBuf.Length == LOGBUF_SIZE && wp < LOGBUF_SIZE && dt < U32
    }

    /** The state at reset: an empty table, no log buffer, no initrd and no next stage. */
    constructor (logOn: bool, dt: nat)
      requires dt < U32
      ensures Valid() && fresh(chosen) && fresh(logBuf)
      ensures chosen[..] == seq(MAX_CHOSEN_PARAMS, _ => EMPTY)
      ensures this.logOn == logOn && wp == 0 && this.dt == dt
      ensures initrdStart == 0 && initrdSize == 0
      ensures entry == 0 && stageArgs == [] && !restoreLogo
    {
      chosen := new Slot[MAX_CHOSEN_PARAMS](_ => EMPTY);
      logBuf := new bv8[LOGBUF_SIZE](_ => 0);
      this.logOn := logOn;
      wp := 0;
      this.dt := dt;
      initrdStart, initrdSize := 0, 0;
      entry, stageArgs, restoreLogo := 0, [], false;
      EmptyTableOk();
    }

    /**
     * kboot_set_chosen: a NULL name is refused with -1. Otherwise the scan
     * stops at the first slot that is empty (the name is copied there) or
     * already holds the name (its value is dropped); a full table of other
     * names is refused with -1 and left alone. A non-NULL value is then
     * stored in the slot, and its index is returned.
     */
    method SetChosen(name: Option<string>, value: Option<string>) returns (r: int)
      requires Valid()
      modifies chosen
      ensures Valid()
      ensures name == None ==> r == -1 && chosen[..] == old(chosen[..])
      ensures name != None && FindSlot(old(chosen[..]), name.value) == MAX_CHOSEN_PARAMS ==>
                r == -1 && chosen[..] == old(chosen[..])
      ensures name != None && FindSlot(old(chosen[..]), name.value) < MAX_CHOSEN_PARAMS ==>
                r == FindSlot(old(chosen[..]), name.value) &&
                chosen[..] == Chosen(old(chosen[..]), name.value, value)
    {
      if name == None {
        return -1;
      }
      var n := name.value;
      ghost var t := chosen[..];
      var i := 0;
      while i < MAX_CHOSEN_PARAMS
        invariant i <= MAX_CHOSEN_PARAMS && chosen[..] == t
        invariant forall j | 0 <= j < i :: t[j].name != None && t[j].name != Some(n)
      {
        if chosen[i].name == None {
          chosen[i] := chosen[i].(name := Some(n));
          break;
        }
        if chosen[i].name == Some(n) {
          chosen[i] := chosen[i].(value := None);
          break;
        }
        i := i + 1;
      }
      var k := FindSlot(t, n);
      if i >= MAX_CHOSEN_PARAMS {
        assert k == i;
        return -1;
      }
      assert k == i;
      if value != None {
        chosen[i] := chosen[i].(value := value);
      }
      assert chosen[..] == Chosen(t, n, value);
      ChosenKeepsTable(t, n, value);
      r := i;
    }

    /** log_console_iodev_can_write: the log device accepts bytes once its buffer is set. */
    predicate CanWrite()
      reads this
    {
      logOn
    }

    /** memcpy(logbuf.buffer + wp, data + off, n) for a stretch that fits before the end of the buffer. */
    method CopyIn(data: seq<bv8>, off: nat, n: nat)
      requires Valid() && wp + n <= LOGBUF_SIZE && off + n <= |data|
      modifies logBuf
      ensures logBuf[..] == old(logBuf[..wp]) + data[off..off + n] + old(logBuf[wp + n..])
    {
      forall k | 0 <= k < n {
        logBuf[wp + k] := data[off + k];
      }
      assert logBuf[..] == old(logBuf[..wp]) + data[off..off + n] + old(logBuf[wp + n..]);
    }

    /**
     * log_console_iodev_write: with no buffer nothing is written and 0 is
     * returned; otherwise the bytes go into the ring from `wp` on, in
     * stretches that end at the end of the buffer, `wp` moves on by `len`
     * modulo LOGBUF_SIZE, and `len` is returned.
     */
    method LogWrite(data: seq<bv8>) returns (wrote: int)
      requires Valid()
      modifies logBuf, this`wp
      ensures Valid()
      ensures !CanWrite() ==> wrote == 0 && wp == old(wp) && logBuf[..] == old(logBuf[..])
      ensures CanWrite() ==> wrote == |data| && wp == Pos(old(wp), |data|, LOGBUF_SIZE) &&
                              logBuf[..] == RingWrite(old(logBuf[..]), old(wp), data)
    {
      if !logOn {
        return 0;
      }
      ghost var ring0, wp0 := logBuf[..], wp;
      wrote := 0;
      var off: nat := 0;
      var len: nat := |data|;
      var remain: nat := LOGBUF_SIZE - wp;
      PosHere(wp0, LOGBUF_SIZE);
      while remain < len
        invariant Valid() && off + len == |data| && wrote == off
        invariant remain == LOGBUF_SIZE - wp && wp == Pos(wp0, off, LOGBUF_SIZE)
        invariant logBuf[..] == RingWrite(ring0, wp0, data[..off])
        decreases len
      {
        WriteStretch(ring0, wp0, data, off, remain);
        CopyIn(data, off, remain);
        WrapsToStart(wp0, off, LOGBUF_SIZE);
        wp := 0;
        wrote := wrote + remain;
        off := off + remain;
        len := len - remain;
        remain := LOGBUF_SIZE;
      }
      WriteStretch(ring0, wp0, data, off, len);
      CopyIn(data, off, len);
      assert data[..off + len] == data;
      wrote := wrote + len;
      wp := (wp + len) % LOGBUF_SIZE;
      PosShift(wp0, off, len, LOGBUF_SIZE);
    }

    /** A stretch of `n` bytes at `off` that fits before the end of the buffer extends the ring write by `n` bytes. */
    lemma WriteStretch(ring0: seq<bv8>, wp0: nat, data: seq<bv8>, off: nat, n: nat)
      requires Valid() && wp0 < LOGBUF_SIZE && |ring0| == LOGBUF_SIZE
      requires off + n <= |data| && wp + n <= LOGBUF_SIZE && wp == Pos(wp0, off, LOGBUF_SIZE)
      requires logBuf[..] == RingWrite(ring0, wp0, data[..off])
      ensures logBuf[..wp] + data[off..off + n] + logBuf[wp + n..] == RingWrite(ring0, wp0, data[..off + n])
    {
      assert data[..off + n] == data[..off] + data[off..off + n];
      RingWriteAppend(ring0, wp0, data[..off], data[off..off + n]);
      RingWriteChunk(logBuf[..], wp, data[off..off + n]);
    }

    /**
     * kboot_boot: the next stage enters `kernel` with r0 = 0, r1 = ~0 and
     * r2 = the device-tree pointer, r3 = 0, and without restoring the boot
     * logo; it returns 0.
     */
    method Boot(kernel: nat) returns (r: int)
      requires Valid()
      modifies this`entry, this`stageArgs, this`restoreLogo
      ensures Valid()
      ensures entry == kernel && stageArgs == [0, 0xffff_ffff, dt, 0] && !restoreLogo
      ensures r == 0
    {
      entry := kernel;
      stageArgs := [0, 0xffff_ffff, dt % U32, 0];
      restoreLogo := false;
      r := 0;
    }

    /**
     * kboot_set_initrd: carve a block of `size` bytes off the top of memory,
     * copy the initrd from `start` into it, and remember where it is.
     */
    method SetInitrd(args: BootArgs, m: Monitor, start: nat, size: nat)
      requires Valid() && args.Valid() && size < U32 && start + size <= |m.mem|
      requires BlockAddress(args.physBase, args.memSize, size, args.guardPlaced) + size <= |m.mem|
      modifies this`initrdStart, this`initrdSize, args`memSize, args`guardPlaced, m`mem
      ensures Valid() && args.Valid()
      ensures args.memSize == LoweredSize(old(args.memSize), size, old(args.guardPlaced))
      ensures initrdStart == BlockAddress(args.physBase, old(args.memSize), size, old(args.guardPlaced))
      ensures initrdSize == size
      ensures m.mem == Move(old(m.mem), initrdStart, start, size)
    {
      var initrd := args.TopOfMemoryAlloc(size);
      m.mem := Move(m.mem, initrd, start, size);
      initrdStart := initrd;
      initrdSize := size;
    }
  }
}
