/** Boot: every vcpu fills its task-segment descriptor and loads it, under one mutex. The 16-byte descriptors stand only
    8 bytes apart, so each overlaps its neighbours. */
module TaskSegment {
  import opened Bits
  import opened Sums

  const RETRIES: nat := 3072
  const SIZE: nat := 104  // sizeof(struct tss_entry_t)
  const FIRST: nat := 5   // descriptors 0 to 4 are taken
  const MAX_CPUS: nat := 64

  datatype Pc = Try(retries: nat) | Yield | Zero(i: nat) | Field(k: nat) | Load | Unlock | Done

  /** The mutex word, the bytes of the descriptor table, and the base that each vcpu has loaded. */
  datatype State = State(mutex: Word, gdt: seq<nat>, loaded: seq<int>, pcs: seq<Pc>)

  /** Where vcpu v's descriptor starts in the table. */
  function Offset(v: nat): nat {
    8 * (v + FIRST)
  }

  /** `&tss_seg[v]`. */
  function Address(base: nat, v: nat): nat {
    base + SIZE * v
  }

  // ---------------------------------------------------------------- the code

  function Write(gdt: seq<nat>, at: nat, bytes: seq<nat>): (g: seq<nat>)
    requires at + |bytes| <= |gdt|
    ensures |g| == |gdt|
    ensures forall i :: 0 <= i < |g| ==> g[i] == if at <= i < at + |bytes| then bytes[i - at] else gdt[i]
  {
    gdt[..at] + bytes + gdt[at + |bytes|..]
  }

  /** The bits of a byte below weight m, by repeated subtraction. */
  function Low(byte: nat, m: nat): (r: nat)
    requires m > 0
    ensures r <= byte
  {
    if byte < m then byte else Low(byte - m, m)
  }

  // Assignments to the bit fields of a byte.

  function SetLow4(byte: nat, value: nat): nat {
    byte - Low(byte, 16) + value
  }

  function SetBits56(byte: nat, value: nat): nat {
    byte - Low(byte, 128) + value * 32 + Low(byte, 32)
  }

  function SetTop(byte: nat, on: bool): nat {
    Low(byte, 128) + (if on then 128 else 0)
  }

  function SetBusy(byte: nat): nat {
    byte - Low(byte, 4) + 2 + Low(byte, 2)
  }

  /** Byte n of a number, the lowest being byte 0. */
  function ByteOf(a: nat, n: nat): nat {
    if n == 0 then a % 0x100 else ByteOf(a / 0x100, n - 1)
  }

  function FromBytes(bytes: seq<nat>): nat {
    if bytes == [] then 0 else bytes[0] + 0x100 * FromBytes(bytes[1..])
  }

  /** The k-th assignment of fill_tss to the descriptor at `at`, for a segment at address a. */
  function Assign(k: nat, a: nat, gdt: seq<nat>, at: nat): (g: seq<nat>)
    requires at + 16 <= |gdt|
    ensures |g| == |gdt|
  {
    match k
    case 0 => Write(gdt, at, [(SIZE - 1) % 0x100, (SIZE - 1) / 0x100 % 0x100])              // limit_15_0
    case 1 => Write(gdt, at + 6, [SetLow4(gdt[at + 6], (SIZE - 1) / 0x1_0000 % 16)])        // limit_19_16
    case 2 => Write(gdt, at + 2, [ByteOf(a, 0), ByteOf(a, 1), ByteOf(a, 2)])                // base_23_0
    case 3 => Write(gdt, at + 7, [ByteOf(a, 3)])                                            // base_31_24
    case 4 => Write(gdt, at + 8, [ByteOf(a, 4), ByteOf(a, 5), ByteOf(a, 6), ByteOf(a, 7)])  // base_64_32
    case 5 => Write(gdt, at + 5, [SetBits56(gdt[at + 5], 0)])                               // dpl
    case 6 => Write(gdt, at + 5, [SetTop(gdt[at + 5], true)])                               // present
    case 7 => Write(gdt, at + 5, [SetLow4(gdt[at + 5], 9)])                                 // type
    case _ => Write(gdt, at + 6, [SetTop(gdt[at + 6], false)])                              // granularity
  }

  /** The base that `ltr` puts together from the split fields of the descriptor. */
  function BaseAt(gdt: seq<nat>, at: nat): nat
    requires at + 16 <= |gdt|
  {
    FromBytes(gdt[at + 2..at + 5] + [gdt[at + 7]] + gdt[at + 8..at + 12])
  }

  /** The limit in the split fields of the descriptor. */
  function LimitAt(gdt: seq<nat>, at: nat): nat
    requires at + 16 <= |gdt|
  {
    gdt[at] + 0x100 * gdt[at + 1] + 0x1_0000 * Low(gdt[at + 6], 16)
  }

  /** `ltr` faults unless the descriptor is a present, available task segment. */
  predicate Loadable(gdt: seq<nat>, at: nat)
    requires at + 16 <= |gdt|
  {
    gdt[at + 5] == 0x89
  }

  ghost predicate Typed(s: State) {
    && |s.loaded| == |s.pcs| <= MAX_CPUS
    && Offset(MAX_CPUS) + 16 <= |s.gdt|
  }

  /** One step of vcpu v between mutex_lock and mutex_unlock. A load marks the descriptor busy. */
  function Next(base: nat, s: State, v: nat): State
    requires |s.loaded| == |s.pcs| <= MAX_CPUS && Offset(MAX_CPUS) + 16 <= |s.gdt| && v < |s.pcs|
  {
    var at := Offset(v);
    match s.pcs[v]
    case Try(n) =>
      if s.mutex == {} then s.(mutex := {v}, pcs := s.pcs[v := Zero(0)])
      else s.(pcs := s.pcs[v := if n > 1 then Try(n - 1) else Yield])
    case Yield => s.(pcs := s.pcs[v := Try(RETRIES)])
    case Zero(i) =>
      if i < 16 then s.(gdt := Write(s.gdt, at + i, [0]), pcs := s.pcs[v := Zero(i + 1)])
      else s.(pcs := s.pcs[v := Field(0)])
    case Field(k) =>
      if k < 9 then s.(gdt := Assign(k, Address(base, v), s.gdt, at), pcs := s.pcs[v := Field(k + 1)])
      else s.(pcs := s.pcs[v := Load])
    case Load =>
      s.(loaded := s.loaded[v := BaseAt(s.gdt, at)],
         gdt := Write(s.gdt, at + 5, [SetBusy(s.gdt[at + 5])]),
         pcs := s.pcs[v := Unlock])
    case Unlock => s.(mutex := {}, pcs := s.pcs[v := Done])
    case Done => s
  }

  // ---------------------------------------------------------------- the invariant

  predicate Holding(pc: Pc) {
    pc.Zero? || pc.Field? || pc.Load? || pc.Unlock?
  }

  /** Byte i of the descriptor once the first k assignments are done. */
  function Byte(k: nat, a: nat, i: nat): nat {
    match i
    case 0 => if k > 0 then SIZE - 1 else 0
    case 2 => if k > 2 then ByteOf(a, 0) else 0
    case 3 => if k > 2 then ByteOf(a, 1) else 0
    case 4 => if k > 2 then ByteOf(a, 2) else 0
    case 5 => if k > 7 then 0x89 else if k > 6 then 0x80 else 0
    case 7 => if k > 3 then ByteOf(a, 3) else 0
    case 8 => if k > 4 then ByteOf(a, 4) else 0
    case 9 => if k > 4 then ByteOf(a, 5) else 0
    case 10 => if k > 4 then ByteOf(a, 6) else 0
    case 11 => if k > 4 then ByteOf(a, 7) else 0
    case _ => 0
  }

  ghost predicate Written(gdt: seq<nat>, at: nat, pc: Pc, a: nat)
    requires at + 16 <= |gdt|
  {
    match pc
    case Zero(n) => forall i :: at <= i < at + 16 && i < at + n ==> gdt[i] == 0
    case Field(k) => k <= 9 && forall i :: at <= i < at + 16 ==> gdt[i] == Byte(k, a, i - at)
    case Load => forall i :: at <= i < at + 16 ==> gdt[i] == Byte(9, a, i - at)
    case _ => true
  }

  ghost predicate BootInv(base: nat, s: State) {
    && Typed(s)
    && (forall v: nat :: v < |s.pcs| ==> (v in s.mutex <==> Holding(s.pcs[v])))
    && (forall v: nat :: v in s.mutex ==> v < |s.pcs| && s.mutex == {v})
    && (forall v: nat :: v < |s.pcs| ==> Written(s.gdt, Offset(v), s.pcs[v], Address(base, v)))
    && (forall v: nat :: v < |s.pcs| && (s.pcs[v].Unlock? || s.pcs[v].Done?) ==> s.loaded[v] == Address(base, v))
  }

  function Power256(n: nat): nat {
    if n == 0 then 1 else 0x100 * Power256(n - 1)
  }

  lemma {:induction false} BytesBack(a: nat, bytes: seq<nat>)
    requires a < Power256(|bytes|) && forall i :: 0 <= i < |bytes| ==> bytes[i] == ByteOf(a, i)
    ensures FromBytes(bytes) == a
  {
    if bytes != [] {
      forall i | 0 <= i < |bytes[1..]| ensures bytes[1..][i] == ByteOf(a / 0x100, i) {
        assert bytes[i + 1] == ByteOf(a, i + 1);
      }
      BytesBack(a / 0x100, bytes[1..]);
    }
  }

  /** The pieces of an address, put together again. */
  lemma Recombine(a: nat, gdt: seq<nat>, at: nat)
    requires a < Power256(8) && at + 16 <= |gdt| && Written(gdt, at, Load, a)
    ensures BaseAt(gdt, at) == a && LimitAt(gdt, at) == SIZE - 1 && Loadable(gdt, at)
  {
    var bytes := gdt[at + 2..at + 5] + [gdt[at + 7]] + gdt[at + 8..at + 12];
    BytesBack(a, bytes);
  }

  lemma FieldStep(k: nat, a: nat, gdt: seq<nat>, at: nat)
    requires k < 9 && at + 16 <= |gdt| && Written(gdt, at, Field(k), a)
    ensures Written(Assign(k, a, gdt, at), at, Field(k + 1), a)
  {
    assert gdt[at + 5] == Byte(k, a, 5) && gdt[at + 6] == 0;
    match k
    case 0 => FieldBytes(k, a, gdt, at);
    case 2 => FieldBytes(k, a, gdt, at);
    case 3 => FieldBytes(k, a, gdt, at);
    case 4 => FieldBytes(k, a, gdt, at);
    case _ => FieldBits(k, a, gdt, at);
  }

  lemma FieldBytes(k: nat, a: nat, gdt: seq<nat>, at: nat)
    requires (k == 0 || k == 2 || k == 3 || k == 4) && at + 16 <= |gdt| && Written(gdt, at, Field(k), a)
    ensures Written(Assign(k, a, gdt, at), at, Field(k + 1), a)
  {
  }

  lemma FieldBits(k: nat, a: nat, gdt: seq<nat>, at: nat)
    requires (k == 1 || 5 <= k < 9) && at + 16 <= |gdt| && Written(gdt, at, Field(k), a)
    requires gdt[at + 5] == Byte(k, a, 5) && gdt[at + 6] == 0
    ensures Written(Assign(k, a, gdt, at), at, Field(k + 1), a)
  {
    var g := Assign(k, a, gdt, at);
    if k == 6 {
      assert g[at + 5] == SetTop(0, true) == 0x80;
    } else if k == 7 {
      assert Low(0x80, 16) == 0;
      assert g[at + 5] == SetLow4(0x80, 9) == 0x89;
    } else if k == 5 {
      assert g[at + 5] == SetBits56(0, 0) == 0;
    } else {
      assert g[at + 5] == gdt[at + 5];
    }
    Untouched(k, a, gdt, at);
    OtherBytes(k, a, gdt, at, g);
  }

  lemma Untouched(k: nat, a: nat, gdt: seq<nat>, at: nat)
    requires (k == 1 || 5 <= k < 9) && at + 16 <= |gdt| && gdt[at + 6] == 0
    ensures forall i :: at <= i < at + 16 && i != at + 5 ==> Assign(k, a, gdt, at)[i] == gdt[i]
  {
    hide ByteOf;
    assert SetLow4(0, (SIZE - 1) / 0x1_0000 % 16) == 0 && SetTop(0, false) == 0 by {
      assert Low(0, 16) == 0 && Low(0, 128) == 0;
    }
    hide Low, SetLow4, SetTop, SetBits56;
  }

  lemma OtherBytes(k: nat, a: nat, gdt: seq<nat>, at: nat, g: seq<nat>)
    requires (k == 1 || 5 <= k < 9) && at + 16 <= |gdt| == |g| && Written(gdt, at, Field(k), a)
    requires forall i :: at <= i < at + 16 && i != at + 5 ==> g[i] == gdt[i]
    requires g[at + 5] == Byte(k + 1, a, 5)
    ensures Written(g, at, Field(k + 1), a)
  {
  }

  lemma WrittenStep(base: nat, s: State, v: nat)
    requires BootInv(base, s) && v < |s.pcs| && base + SIZE * MAX_CPUS <= Power256(8)
    ensures var s' := Next(base, s, v); Typed(s') && Written(s'.gdt, Offset(v), s'.pcs[v], Address(base, v))
  {
    hide Assign, ByteOf, Power256, BaseAt, LimitAt;
    if s.pcs[v].Field? && s.pcs[v].k < 9 {
      FieldStep(s.pcs[v].k, Address(base, v), s.gdt, Offset(v));
    }
  }

  /** While one vcpu holds the mutex, no other is in the middle of its descriptor. */
  lemma OtherKept(base: nat, s: State, v: nat, u: nat)
    requires BootInv(base, s) && v < |s.pcs| && u < |s.pcs| && u != v
    ensures Written(Next(base, s, v).gdt, Offset(u), s.pcs[u], Address(base, u))
  {
    if Holding(s.pcs[v]) {
      assert v in s.mutex && u !in s.mutex;
    }
  }

  lemma BootStep(base: nat, s: State, v: nat)
    requires BootInv(base, s) && v < |s.pcs| && base + SIZE * MAX_CPUS <= Power256(8)
    ensures BootInv(base, Next(base, s, v))
  {
    hide Written, BaseAt, LimitAt, Loadable, Assign, SetBusy, Power256;
    WrittenStep(base, s, v);
    var s' := Next(base, s, v);
    forall u: nat | u < |s.pcs|
      ensures Written(s'.gdt, Offset(u), s'.pcs[u], Address(base, u))
    {
      if u != v {
        OtherKept(base, s, v, u);
      }
    }
    if s.pcs[v].Load? {
      OwnAddress(base, v);
      Recombine(Address(base, v), s.gdt, Offset(v));
    }
  }

  lemma OwnAddress(base: nat, v: nat)
    requires base + SIZE * MAX_CPUS <= Power256(8) && v < MAX_CPUS
    ensures Address(base, v) < Power256(8) && Offset(v) + 16 <= Offset(MAX_CPUS) + 16
  {
  }

  // ---------------------------------------------------------------- the result

  function Start(n: nat, gdt: seq<nat>): State {
    State({}, gdt, seq(n, _ => -1), seq(n, _ => Try(RETRIES)))
  }

  ghost function After(base: nat, n: nat, gdt: seq<nat>, moves: seq<nat>): (s: State)
    requires n <= MAX_CPUS && Offset(MAX_CPUS) + 16 <= |gdt| && forall i :: 0 <= i < |moves| ==> moves[i] < n
    ensures Typed(s) && |s.pcs| == n
  {
    if moves == [] then Start(n, gdt)
    else Next(base, After(base, n, gdt, moves[..|moves| - 1]), moves[|moves| - 1])
  }

  lemma {:induction false} BootAlways(base: nat, n: nat, gdt: seq<nat>, moves: seq<nat>)
    requires n <= MAX_CPUS && Offset(MAX_CPUS) + 16 <= |gdt| && forall i :: 0 <= i < |moves| ==> moves[i] < n
    requires base + SIZE * MAX_CPUS <= Power256(8)
    ensures BootInv(base, After(base, n, gdt, moves))
  {
    if moves != [] {
      BootAlways(base, n, gdt, moves[..|moves| - 1]);
      BootStep(base, After(base, n, gdt, moves[..|moves| - 1]), moves[|moves| - 1]);
    }
  }

  /** In every interleaving the mutex word is zero or the one bit of its holder, a descriptor about to be loaded is
      loadable and names the vcpu's own segment, and so does the base that was loaded. */
  lemma EveryVcpuLoadsItsOwn(base: nat, n: nat, gdt: seq<nat>, moves: seq<nat>, v: nat)
    requires n <= MAX_CPUS && Offset(MAX_CPUS) + 16 <= |gdt| && forall i :: 0 <= i < |moves| ==> moves[i] < n
    requires base + SIZE * MAX_CPUS <= Power256(8) && v < n
    ensures var s := After(base, n, gdt, moves);
            && (s.mutex == {} || exists h: nat :: h < n && s.mutex == {h} && Holding(s.pcs[h]))
            && (Holding(s.pcs[v]) ==> s.mutex == {v})
            && (s.pcs[v].Load? ==>
                  && Loadable(s.gdt, Offset(v)) && LimitAt(s.gdt, Offset(v)) == SIZE - 1
                  && BaseAt(s.gdt, Offset(v)) == Address(base, v))
            && (s.pcs[v].Done? ==> s.loaded[v] == Address(base, v))
  {
    BootAlways(base, n, gdt, moves);
    var s := After(base, n, gdt, moves);
    if s.mutex != {} {
      var h: nat :| h in s.mutex;
      assert Holding(s.pcs[h]);
    }
    if s.pcs[v].Load? {
      Recombine(Address(base, v), s.gdt, Offset(v));
    }
  }

  // ---------------------------------------------------------------- everybody gets through

  /** The steps left to a vcpu once the mutex is its own, or free. */
  function Steps(pc: Pc): nat {
    match pc
    case Done => 0
    case Unlock => 1
    case Load => 2
    case Field(k) => if k < 9 then 12 - k else 3
    case Zero(i) => if i < 16 then 29 - i else 13
    case Try(_) => 30
    case Yield => 31
  }

  function Remaining(pcs: seq<Pc>): (ws: seq<nat>)
    ensures |ws| == |pcs| && forall v :: 0 <= v < |pcs| ==> ws[v] == Steps(pcs[v])
  {
    seq(|pcs|, v requires 0 <= v < |pcs| => Steps(pcs[v]))
  }

  /** The holder of the mutex can always go on, and anybody can while it is free. */
  lemma StepLess(base: nat, s: State, v: nat)
    requires Typed(s) && v < |s.pcs| && !s.pcs[v].Done? && (Holding(s.pcs[v]) || s.mutex == {})
    ensures Sum(Remaining(Next(base, s, v).pcs)) < Sum(Remaining(s.pcs))
  {
    var s' := Next(base, s, v);
    assert Steps(s'.pcs[v]) < Steps(s.pcs[v]);
    SumUpdate(Remaining(s.pcs), v, Steps(s'.pcs[v]));
    assert Remaining(s'.pcs) == Remaining(s.pcs)[v := Steps(s'.pcs[v])];
  }

  /** No deadlock: from every reachable state some schedule lets every vcpu load its segment and release the mutex. */
  lemma {:induction false} EverybodyGetsThrough(base: nat, n: nat, gdt: seq<nat>, moves: seq<nat>)
    returns (more: seq<nat>)
    requires n <= MAX_CPUS && Offset(MAX_CPUS) + 16 <= |gdt| && forall i :: 0 <= i < |moves| ==> moves[i] < n
    requires base + SIZE * MAX_CPUS <= Power256(8)
    ensures forall i :: 0 <= i < |more| ==> more[i] < n
    ensures var s := After(base, n, gdt, moves + more);
            s.mutex == {} && forall v :: 0 <= v < n ==> s.pcs[v] == Done && s.loaded[v] == Address(base, v)
    decreases Sum(Remaining(After(base, n, gdt, moves).pcs))
  {
    hide Next, Written, Sum, Power256;
    var s := After(base, n, gdt, moves);
    BootAlways(base, n, gdt, moves);
    more := [];
    assert moves + [] == moves;
    if v: nat :| v < n && s.pcs[v] != Done {
      var h := v;
      if u :| u in s.mutex {
        h := u;
      }
      StepLess(base, s, h);
      assert (moves + [h])[..|moves|] == moves;
      var rest := EverybodyGetsThrough(base, n, gdt, moves + [h]);
      more := [h] + rest;
      assert moves + [h] + rest == moves + more;
    } else if u :| u in s.mutex {
      assert false;
    }
  }
}
