/** The reusable barrier of include/util.h on top of cond_wait and cond_set, as a transition system: one step of one
    vcpu is one locked instruction, load or store. A kick to a vcpu that has not halted yet is latched. */
module Barrier {
  import opened Bits
  import opened Sums

  const RETRY_COUNT: nat := 32

  datatype WaitPc = Intend | Check(retries: nat) | Mark | Hlt | Unmark | Leave

  /** C leaves open which of the two bitmaps is loaded first when they are compared. */
  datatype SetPc =
    | Store | Compare | IntentLoaded(seen: Word) | WaitingLoaded(seen: Word) | Snapshot | Kick(todo: Word)

  /** In cond_wait(v), in cond_set(v), or in barrier itself. */
  datatype Pc =
    | Outside | Increment | ReadFull | Decrement | ReadEmpty
    | Waiting(v: nat, w: WaitPc)
    | Setting(v: nat, t: SetPc)

  /** A vcpu, with the number of barriers it has entered and left; the code never reads these two. */
  datatype Vcpu = Vcpu(pc: Pc, entered: nat, left: nat)

  /** The condition, the barrier word and the latched kicks. */
  datatype Shared = Shared(intent: Word, waiting: Word, c: nat, word: int, latched: Word)

  /** `turns` counts the changes of the condition value; the code never reads it. */
  datatype State = State(g: Shared, turns: nat, vcpus: seq<Vcpu>)

  // ---------------------------------------------------------------- the code

  /** cond_wait(v). `choice` lets a halted vcpu wake without a kick. */
  function ExecWait(id: nat, choice: bool, v: nat, g: Shared, w: WaitPc): (Shared, Pc) {
    match w
    case Intend => (g.(intent := g.intent + {id}), Waiting(v, Check(RETRY_COUNT)))
    case Check(retries) =>
      (g, Waiting(v, if g.c == v then Leave else if retries == 0 then Mark else Check(retries - 1)))
    case Mark => (g.(waiting := g.waiting + {id}), Waiting(v, Hlt))
    case Hlt =>
      if id in g.latched then (g.(latched := g.latched - {id}), Waiting(v, Unmark))
      else (g, Waiting(v, if choice then Unmark else Hlt))
    case Unmark => (g.(waiting := g.waiting - {id}), Waiting(v, Check(0)))
    case Leave => (g.(intent := g.intent - {id}), if v == 1 then Decrement else Increment)
  }

  /** cond_set(v). `choice` settles the order of the two loads. */
  ghost function ExecSet(choice: bool, v: nat, g: Shared, t: SetPc): (Shared, Pc) {
    match t
    case Store => (g.(c := v), Setting(v, Compare))
    case Compare => (g, Setting(v, if choice then WaitingLoaded(g.waiting) else IntentLoaded(g.intent)))
    case IntentLoaded(seen) => (g, Setting(v, if seen == g.waiting then Snapshot else Compare))
    case WaitingLoaded(seen) => (g, Setting(v, if seen == g.intent then Snapshot else Compare))
    case Snapshot => (g, Setting(v, Kick(g.waiting)))
    case Kick(todo) =>
      if todo == {} then (g, if v == 1 then Decrement else Outside)
      else (g.(latched := g.latched + {Lowest(todo)}), Setting(v, Kick(todo - {Lowest(todo)})))
  }

  /** One step of vcpu id in barrier. */
  ghost function Exec(n: nat, id: nat, choice: bool, g: Shared, pc: Pc): (Shared, Pc) {
    match pc
    case Outside => (g, Waiting(0, Intend))
    case Increment => (g.(word := g.word + 1), ReadFull)
    case ReadFull => (g, if g.word == n then Setting(1, Store) else Waiting(1, Intend))
    case Decrement => (g.(word := g.word - 1), ReadEmpty)
    case ReadEmpty => (g, if g.word == 0 then Setting(0, Store) else Outside)
    case Waiting(v, w) => ExecWait(id, choice, v, g, w)
    case Setting(v, t) => ExecSet(choice, v, g, t)
  }

  ghost function Next(s: State, id: nat, choice: bool): State
    requires id < |s.vcpus|
  {
    var vc := s.vcpus[id];
    var (g', pc') := Exec(|s.vcpus|, id, choice, s.g, vc.pc);
    State(g', s.turns + (if g'.c != s.g.c then 1 else 0),
          s.vcpus[id := Vcpu(pc',
                             vc.entered + (if vc.pc.Outside? then 1 else 0),
                             vc.left + (if pc'.Outside? && !vc.pc.Outside? then 1 else 0))])
  }

  function Start(n: nat): State {
    State(Shared({}, {}, 0, 0, {}), 0, seq(n, _ => Vcpu(Outside, 0, 0)))
  }

  /** The state after a schedule of steps. */
  ghost function After(n: nat, moves: seq<(nat, bool)>): (s: State)
    requires forall i :: 0 <= i < |moves| ==> moves[i].0 < n
    ensures |s.vcpus| == n
  {
    if moves == [] then Start(n)
    else Next(After(n, moves[..|moves| - 1]), moves[|moves| - 1].0, moves[|moves| - 1].1)
  }

  // ---------------------------------------------------------------- safety

  /** The half of a barrier a vcpu is in: its increments and decrements of the barrier word so far. */
  function Half(vc: Vcpu): nat {
    match vc.pc
    case Outside => 2 * vc.left
    case Increment => 2 * vc.left
    case ReadFull => 2 * vc.left + 1
    case Decrement => 2 * vc.left + 1
    case ReadEmpty => 2 * vc.left + 2
    case Waiting(v, _) => 2 * vc.left + v
    case Setting(v, _) => 2 * vc.left + (if v == 0 then 2 else 1)
  }

  predicate PcOk(vc: Vcpu) {
    && (vc.pc.Waiting? || vc.pc.Setting? ==> vc.pc.v <= 1)
    && vc.entered == vc.left + (if vc.pc.Outside? then 0 else 1)
  }

  predicate IsStore(pc: Pc) {
    pc.Setting? && pc.t.Store?
  }

  /** Past the gate of its half: it has seen the condition at the value it needs, or stored it. */
  predicate Passed(pc: Pc) {
    match pc
    case Increment => true
    case Decrement => true
    case Waiting(_, w) => w.Leave?
    case Setting(_, t) => !t.Store?
    case _ => false
  }

  function Odds(vcpus: seq<Vcpu>): (ws: seq<nat>)
    ensures |ws| == |vcpus|
    ensures forall v :: 0 <= v < |vcpus| ==> ws[v] == Half(vcpus[v]) % 2
  {
    seq(|vcpus|, v requires 0 <= v < |vcpus| => Half(vcpus[v]) % 2)
  }

  ghost predicate VcpuInv(s: State, vc: Vcpu) {
    && PcOk(vc)
    && s.turns <= Half(vc) <= s.turns + 1
    && (Passed(vc.pc) ==> Half(vc) == s.turns)
    && (IsStore(vc.pc) ==> forall u :: 0 <= u < |s.vcpus| ==> Half(s.vcpus[u]) >= Half(vc))
  }

  ghost predicate BarrierInv(s: State) {
    && s.g.c == s.turns % 2
    && s.g.word == Sum(Odds(s.vcpus))
    && forall v :: 0 <= v < |s.vcpus| ==> VcpuInv(s, s.vcpus[v])
  }

  /** One step of a vcpu, seen from its own half. */
  lemma HalfStep(s: State, id: nat, choice: bool)
    requires id < |s.vcpus| && PcOk(s.vcpus[id])
    ensures var (vc, s') := (s.vcpus[id], Next(s, id, choice));
            var vc' := s'.vcpus[id];
            && PcOk(vc')
            && Half(vc') == Half(vc) + (if vc.pc.Increment? || vc.pc.Decrement? then 1 else 0)
            && s'.g.word == s.g.word + (if vc.pc.Increment? then 1 else if vc.pc.Decrement? then -1 else 0)
            && (vc.pc.Increment? ==> Half(vc) % 2 == 0) && (vc.pc.Decrement? ==> Half(vc) % 2 == 1)
  {
    MoveStep(|s.vcpus|, id, choice, s.g, s.vcpus[id].pc, s.vcpus[id].left);
  }

  /** One step of a vcpu that has left k barriers before. */
  lemma MoveStep(n: nat, id: nat, choice: bool, g: Shared, pc: Pc, k: nat)
    requires pc.Waiting? || pc.Setting? ==> pc.v <= 1
    ensures var (g', pc') := Exec(n, id, choice, g, pc);
            var k' := k + (if pc'.Outside? && !pc.Outside? then 1 else 0);
            && (pc'.Waiting? || pc'.Setting? ==> pc'.v <= 1)
            && (pc'.Outside? ==> pc.ReadEmpty? || pc.Setting?)
            && Half(Vcpu(pc', 0, k')) == Half(Vcpu(pc, 0, k)) + (if pc.Increment? || pc.Decrement? then 1 else 0)
            && g'.word == g.word + (if pc.Increment? then 1 else if pc.Decrement? then -1 else 0)
  {
  }

  lemma GateStep(s: State, id: nat, choice: bool)
    requires id < |s.vcpus| && PcOk(s.vcpus[id])
    ensures var (vc, s') := (s.vcpus[id], Next(s, id, choice));
            var vc' := s'.vcpus[id];
            && (!IsStore(vc.pc) ==> s'.g.c == s.g.c && s'.turns == s.turns)
            && (IsStore(vc.pc) ==> s'.g.c == Half(vc) % 2 && s'.turns == s.turns + (if s'.g.c != s.g.c then 1 else 0))
            && (Passed(vc'.pc) && !Passed(vc.pc) && !IsStore(vc.pc) ==> s.g.c == Half(vc) % 2)
            && (Passed(vc.pc) && (vc.pc.Increment? || vc.pc.Decrement?) ==> !Passed(vc'.pc))
            && (IsStore(vc'.pc) ==> s.g.word == 0 || s.g.word == |s.vcpus|)
            && (IsStore(vc'.pc) && s.g.word == 0 && |s.vcpus| > 0 ==> Half(vc') % 2 == 0)
  {
  }

  /** A full or an empty barrier word means that everybody is in the same half. */
  lemma WordTells(s: State)
    requires BarrierInv(s)
    ensures s.g.word == |s.vcpus| ==> forall v :: 0 <= v < |s.vcpus| ==> Half(s.vcpus[v]) % 2 == 1
    ensures s.g.word == 0 ==> forall v :: 0 <= v < |s.vcpus| ==> Half(s.vcpus[v]) % 2 == 0
  {
    var ws := Odds(s.vcpus);
    SumFull(ws);
    if s.g.word == 0 {
      forall v: nat | v < |s.vcpus| ensures ws[v] == 0 {
        SumAtLeast(ws, v);
      }
    }
  }

  /** Whoever goes on to store has read a full or an empty barrier word, so everybody is in its half or the next. */
  lemma NewStore(s: State, id: nat, choice: bool, u: nat)
    requires BarrierInv(s) && id < |s.vcpus| && u < |s.vcpus| && IsStore(Next(s, id, choice).vcpus[id].pc)
    ensures Half(Next(s, id, choice).vcpus[u]) >= Half(Next(s, id, choice).vcpus[id])
  {
    assert VcpuInv(s, s.vcpus[id]) && VcpuInv(s, s.vcpus[u]);
    HalfStep(s, id, choice);
    GateStep(s, id, choice);
    WordTells(s);
  }

  lemma SelfStep(s: State, id: nat, choice: bool)
    requires BarrierInv(s) && id < |s.vcpus|
    ensures VcpuInv(Next(s, id, choice), Next(s, id, choice).vcpus[id])
  {
    var s' := Next(s, id, choice);
    assert VcpuInv(s, s.vcpus[id]);
    HalfStep(s, id, choice);
    GateStep(s, id, choice);
    if IsStore(s'.vcpus[id].pc) {
      forall u: nat | u < |s.vcpus|
        ensures Half(s'.vcpus[u]) >= Half(s'.vcpus[id])
      {
        NewStore(s, id, choice, u);
      }
    }
  }

  lemma OtherStep(s: State, id: nat, choice: bool, u: nat)
    requires BarrierInv(s) && id < |s.vcpus| && u < |s.vcpus| && u != id
    ensures VcpuInv(Next(s, id, choice), s.vcpus[u])
  {
    assert VcpuInv(s, s.vcpus[id]) && VcpuInv(s, s.vcpus[u]);
    HalfStep(s, id, choice);
    GateStep(s, id, choice);
  }

  /** The barrier word counts the vcpus in an odd half. */
  lemma WordStep(s: State, id: nat, choice: bool)
    requires id < |s.vcpus| && PcOk(s.vcpus[id]) && s.g.word == Sum(Odds(s.vcpus))
    ensures var s' := Next(s, id, choice); s'.g.word == Sum(Odds(s'.vcpus))
  {
    var s' := Next(s, id, choice);
    HalfStep(s, id, choice);
    var ws := Odds(s.vcpus);
    SumUpdate(ws, id, Half(s'.vcpus[id]) % 2);
    assert Odds(s'.vcpus) == ws[id := Half(s'.vcpus[id]) % 2];
  }

  lemma BarrierStep(s: State, id: nat, choice: bool)
    requires BarrierInv(s) && id < |s.vcpus|
    ensures BarrierInv(Next(s, id, choice))
  {
    var s' := Next(s, id, choice);
    assert VcpuInv(s, s.vcpus[id]);
    HalfStep(s, id, choice);
    GateStep(s, id, choice);
    WordStep(s, id, choice);
    SelfStep(s, id, choice);
    forall u: nat | u < |s.vcpus| && u != id
      ensures VcpuInv(s', s'.vcpus[u])
    {
      OtherStep(s, id, choice, u);
    }
  }

  lemma {:induction false} BarrierAlways(n: nat, moves: seq<(nat, bool)>)
    requires forall i :: 0 <= i < |moves| ==> moves[i].0 < n
    ensures BarrierInv(After(n, moves))
  {
    if moves == [] {
      SumZero(Odds(Start(n).vcpus));
    } else {
      var k := |moves| - 1;
      BarrierAlways(n, moves[..k]);
      BarrierStep(After(n, moves[..k]), moves[k].0, moves[k].1);
    }
  }

  /** No vcpu has left a barrier that another one has not entered, and entries differ by at most one. */
  lemma BarrierSafe(n: nat, moves: seq<(nat, bool)>, u: nat, v: nat)
    requires forall i :: 0 <= i < |moves| ==> moves[i].0 < n
    requires u < n && v < n
    ensures var s := After(n, moves);
            && s.vcpus[v].left <= s.vcpus[u].entered
            && s.vcpus[v].entered <= s.vcpus[u].entered + 1
  {
    BarrierAlways(n, moves);
    var s := After(n, moves);
    assert VcpuInv(s, s.vcpus[u]) && VcpuInv(s, s.vcpus[v]);
  }

  /** A store by cond_set, late or repeated, either moves the condition on to the next turn with every vcpu in the half
      that waits for it, or changes nothing. */
  lemma StoresInOrder(n: nat, moves: seq<(nat, bool)>, id: nat, choice: bool)
    requires (forall i :: 0 <= i < |moves| ==> moves[i].0 < n) && id < n
    requires IsStore(After(n, moves).vcpus[id].pc)
    ensures var s := After(n, moves);
            var s' := Next(s, id, choice);
            && s'.g.c == s'.turns % 2
            && s.turns <= s'.turns <= s.turns + 1
            && (s'.turns == s.turns ==> s'.g == s.g)
            && (s'.turns != s.turns ==> forall u :: 0 <= u < n ==> Half(s.vcpus[u]) == s.turns + 1)
  {
    BarrierAlways(n, moves);
    var s := After(n, moves);
    BarrierStep(s, id, choice);
    assert VcpuInv(s, s.vcpus[id]);
    StoreStep(s, id, choice);
    forall u: nat | u < n
      ensures s.turns <= Half(s.vcpus[u]) <= s.turns + 1 && Half(s.vcpus[u]) >= Half(s.vcpus[id])
    {
      assert VcpuInv(s, s.vcpus[u]);
    }
  }

  lemma StoreStep(s: State, id: nat, choice: bool)
    requires id < |s.vcpus| && VcpuInv(s, s.vcpus[id]) && s.g.c == s.turns % 2 && IsStore(s.vcpus[id].pc)
    ensures var s' := Next(s, id, choice);
            && s'.turns == Half(s.vcpus[id])
            && (s'.turns == s.turns ==> s'.g == s.g)
  {
  }

  // ---------------------------------------------------------------- no lost wake-up

  predicate Intending(pc: Pc) {
    pc.Waiting? && !pc.w.Intend?
  }

  predicate Waits(pc: Pc) {
    pc.Waiting? && (pc.w.Hlt? || pc.w.Unmark?)
  }

  /** Past the last check before halting. */
  predicate AtRisk(pc: Pc, v: nat) {
    pc.Waiting? && (pc.w.Mark? || pc.w.Hlt?) && pc.v == v
  }

  /** Inside cond_set(v), and bound to kick u unless u leaves by itself. */
  predicate Guards(g: Shared, pc: Pc, u: nat, v: nat) {
    && pc.Setting? && pc.v == v
    && match pc.t
       case Store => false
       case Compare => true
       case IntentLoaded(seen) => u in seen
       case WaitingLoaded(seen) => u in seen ==> u in g.waiting
       case Snapshot => u in g.waiting
       case Kick(todo) => u in todo
  }

  ghost predicate Guarded(s: State, u: nat) {
    u in s.g.latched || exists k :: 0 <= k < |s.vcpus| && Guards(s.g, s.vcpus[k].pc, u, s.g.c)
  }

  ghost predicate WakeInv(s: State) {
    && (forall u: nat :: u in s.g.intent <==> u < |s.vcpus| && Intending(s.vcpus[u].pc))
    && (forall u: nat :: u in s.g.waiting <==> u < |s.vcpus| && Waits(s.vcpus[u].pc))
    && (forall u: nat :: u < |s.vcpus| && AtRisk(s.vcpus[u].pc, s.g.c) ==> Guarded(s, u))
  }

  /** A guardian stays one until it has kicked its ward. */
  lemma GuardStep(s: State, id: nat, choice: bool, u: nat)
    requires WakeInv(s) && id < |s.vcpus| && u < |s.vcpus|
    requires var s' := Next(s, id, choice); AtRisk(s'.vcpus[u].pc, s'.g.c)
    requires Guards(s.g, s.vcpus[id].pc, u, s.g.c) || IsStore(s.vcpus[id].pc)
    requires AtRisk(s.vcpus[u].pc, s.g.c) || IsStore(s.vcpus[id].pc)
    ensures Guarded(Next(s, id, choice), u)
  {
    var s' := Next(s, id, choice);
    assert u in s.g.intent || IsStore(s.vcpus[id].pc);
    assert u in s'.g.latched || Guards(s'.g, s'.vcpus[id].pc, u, s'.g.c);
  }

  lemma WardStep(s: State, id: nat, choice: bool, u: nat)
    requires WakeInv(s) && id < |s.vcpus| && u < |s.vcpus|
    requires var s' := Next(s, id, choice); AtRisk(s'.vcpus[u].pc, s'.g.c)
    ensures Guarded(Next(s, id, choice), u)
  {
    var s' := Next(s, id, choice);
    if IsStore(s.vcpus[id].pc) {
      GuardStep(s, id, choice, u);
    } else {
      assert s'.g.c == s.g.c;
      assert AtRisk(s.vcpus[u].pc, s.g.c);
      if u !in s.g.latched {
        var k: nat :| k < |s.vcpus| && Guards(s.g, s.vcpus[k].pc, u, s.g.c);
        if k == id {
          GuardStep(s, id, choice, u);
        } else {
          assert Guards(s'.g, s'.vcpus[k].pc, u, s'.g.c);
        }
      }
    }
  }

  lemma WakeStep(s: State, id: nat, choice: bool)
    requires WakeInv(s) && id < |s.vcpus|
    ensures WakeInv(Next(s, id, choice))
  {
    var s' := Next(s, id, choice);
    forall u: nat | u < |s'.vcpus| && AtRisk(s'.vcpus[u].pc, s'.g.c)
      ensures Guarded(s', u)
    {
      WardStep(s, id, choice, u);
    }
  }

  lemma {:induction false} WakeAlways(n: nat, moves: seq<(nat, bool)>)
    requires forall i :: 0 <= i < |moves| ==> moves[i].0 < n
    ensures WakeInv(After(n, moves))
  {
    if moves != [] {
      var k := |moves| - 1;
      WakeAlways(n, moves[..k]);
      WakeStep(After(n, moves[..k]), moves[k].0, moves[k].1);
    }
  }

  /** A vcpu that is halted for a value the condition already has, with no kick latched for it, is in the care of a
      vcpu inside cond_set that has not kicked it yet. */
  lemma NoLostWakeUp(n: nat, moves: seq<(nat, bool)>, u: nat)
    requires (forall i :: 0 <= i < |moves| ==> moves[i].0 < n) && u < n
    requires After(n, moves).vcpus[u].pc == Waiting(After(n, moves).g.c, Hlt)
    ensures var s := After(n, moves);
            u in s.g.latched || exists k :: 0 <= k < n && k != u && Guards(s.g, s.vcpus[k].pc, u, s.g.c)
  {
    WakeAlways(n, moves);
    var s := After(n, moves);
    assert AtRisk(s.vcpus[u].pc, s.g.c);
    assert Guarded(s, u);
  }

  /** Once every cond_set is over and every latched kick is consumed, nobody sleeps through the value it waits for. */
  lemma NobodyLeftBehind(n: nat, moves: seq<(nat, bool)>, u: nat)
    requires (forall i :: 0 <= i < |moves| ==> moves[i].0 < n) && u < n
    requires After(n, moves).g.latched == {}
    requires forall k :: 0 <= k < n ==>
               var pc := After(n, moves).vcpus[k].pc; pc.Setting? ==> pc.t.Store?
    ensures After(n, moves).vcpus[u].pc != Waiting(After(n, moves).g.c, Hlt)
  {
    if After(n, moves).vcpus[u].pc == Waiting(After(n, moves).g.c, Hlt) {
      NoLostWakeUp(n, moves, u);
      assert false;
    }
  }

  // ---------------------------------------------------------------- nobody waits for nobody

  /** Halted, and nothing but a wake-up without a kick would go on with it. */
  predicate Asleep(s: State, u: nat)
    requires u < |s.vcpus|
  {
    s.vcpus[u].pc.Waiting? && s.vcpus[u].pc.w.Hlt? && u !in s.g.latched
  }

  /** About to read the barrier word, or to store the next value of the condition. */
  predicate Deciding(pc: Pc) {
    pc.ReadFull? || pc.ReadEmpty? || IsStore(pc)
  }

  predicate AllArrived(s: State) {
    forall v :: 0 <= v < |s.vcpus| ==> Half(s.vcpus[v]) == s.turns + 1
  }

  /** Once everybody has arrived in the next half, someone has still to find that out, or has and is about to store. */
  ghost predicate TurnInHand(s: State) {
    AllArrived(s) && s.vcpus != [] ==> exists v :: 0 <= v < |s.vcpus| && Deciding(s.vcpus[v].pc)
  }

  /** With everybody in one half, the barrier word is full or empty. */
  lemma WordWhenArrived(s: State)
    requires BarrierInv(s) && AllArrived(s)
    ensures s.g.word == if s.turns % 2 == 0 then |s.vcpus| else 0
  {
    hide Half, VcpuInv;
    var ws := Odds(s.vcpus);
    SumFull(ws);
    if s.turns % 2 == 1 {
      SumZero(ws);
    }
  }

  lemma DecidingStep(s: State, id: nat, choice: bool)
    requires id < |s.vcpus| && PcOk(s.vcpus[id]) && Deciding(s.vcpus[id].pc) && !IsStore(s.vcpus[id].pc)
    requires s.g.word == if Half(s.vcpus[id]) % 2 == 1 then |s.vcpus| else 0
    ensures IsStore(Next(s, id, choice).vcpus[id].pc)
  {
  }

  /** The deciding vcpu goes on deciding, or stores; and the one that arrives last decides next. */
  lemma DeciderStep(s: State, id: nat, choice: bool)
    requires BarrierInv(s) && TurnInHand(s) && id < |s.vcpus| && AllArrived(s) && !IsStore(s.vcpus[id].pc)
    ensures TurnInHand(Next(s, id, choice))
  {
    var s' := Next(s, id, choice);
    assert VcpuInv(s, s.vcpus[id]);
    var v :| 0 <= v < |s.vcpus| && Deciding(s.vcpus[v].pc);
    if v == id {
      WordWhenArrived(s);
      DecidingStep(s, id, choice);
    }
    assert Deciding(s'.vcpus[v].pc);
  }

  lemma TurnStep(s: State, id: nat, choice: bool)
    requires BarrierInv(s) && TurnInHand(s) && id < |s.vcpus|
    ensures TurnInHand(Next(s, id, choice))
  {
    var s' := Next(s, id, choice);
    var pc := s.vcpus[id].pc;
    if AllArrived(s') {
      if pc.Increment? || pc.Decrement? {
        assert Deciding(s'.vcpus[id].pc);
      } else {
        Arrived(s, id, choice);
        DeciderStep(s, id, choice);
      }
    }
  }

  /** A step other than to and from the barrier word leaves all arrived only when they were, and is no store. */
  lemma Arrived(s: State, id: nat, choice: bool)
    requires BarrierInv(s) && id < |s.vcpus| && AllArrived(Next(s, id, choice))
    requires !s.vcpus[id].pc.Increment? && !s.vcpus[id].pc.Decrement?
    ensures AllArrived(s) && !IsStore(s.vcpus[id].pc)
  {
    var s' := Next(s, id, choice);
    assert VcpuInv(s, s.vcpus[id]);
    HalfStep(s, id, choice);
    GateStep(s, id, choice);
    assert Half(s'.vcpus[id]) == s'.turns + 1;
    forall v: nat | v < |s.vcpus|
      ensures Half(s.vcpus[v]) == s'.turns + 1
    {
      assert Half(s'.vcpus[v]) == s'.turns + 1;
    }
  }

  lemma {:induction false} TurnAlways(n: nat, moves: seq<(nat, bool)>)
    requires forall i :: 0 <= i < |moves| ==> moves[i].0 < n
    ensures TurnInHand(After(n, moves))
  {
    if moves == [] {
      assert n > 0 ==> Half(Start(n).vcpus[0]) == 0;
    } else {
      var k := |moves| - 1;
      TurnAlways(n, moves[..k]);
      BarrierAlways(n, moves[..k]);
      TurnStep(After(n, moves[..k]), moves[k].0, moves[k].1);
    }
  }

  /** Who waits for the value that the condition does not have is one half ahead. */
  lemma WaitsAhead(s: State, vc: Vcpu)
    requires VcpuInv(s, vc) && s.g.c == s.turns % 2 && vc.pc.Waiting? && vc.pc.v != s.g.c
    ensures Half(vc) == s.turns + 1
  {
  }

  lemma SleeperWaits(n: nat, moves: seq<(nat, bool)>, u: nat)
    requires (forall i :: 0 <= i < |moves| ==> moves[i].0 < n) && u < n
    requires forall v :: 0 <= v < n ==> !After(n, moves).vcpus[v].pc.Setting?
    requires Asleep(After(n, moves), u)
    ensures Half(After(n, moves).vcpus[u]) == After(n, moves).turns + 1
  {
    var s := After(n, moves);
    BarrierAlways(n, moves);
    assert s.vcpus[u].pc != Waiting(s.g.c, Hlt) by {
      if s.vcpus[u].pc == Waiting(s.g.c, Hlt) {
        NoLostWakeUp(n, moves, u);
        assert false;
      }
    }
    WaitsAhead(s, s.vcpus[u]);
  }

  /** Nobody waits in vain: when every vcpu inside a barrier is asleep, they all sleep in one and the same barrier, in
      its first half, and what they wait for is a vcpu outside that has not entered it. */
  lemma SleepersWaitForArrivals(n: nat, moves: seq<(nat, bool)>, u: nat) returns (o: nat)
    requires (forall i :: 0 <= i < |moves| ==> moves[i].0 < n) && u < n
    requires var s := After(n, moves);
             forall v :: 0 <= v < n ==> s.vcpus[v].pc.Outside? || Asleep(s, v)
    requires Asleep(After(n, moves), u)
    ensures var s := After(n, moves);
            && s.vcpus[u].pc.v == 1
            && o < n && s.vcpus[o].pc.Outside? && s.vcpus[o].entered + 1 == s.vcpus[u].entered
            && forall v :: 0 <= v < n && Asleep(s, v) ==> s.vcpus[v].entered == s.vcpus[u].entered
  {
    hide Half;
    var s := After(n, moves);
    BarrierAlways(n, moves);
    TurnAlways(n, moves);
    forall v: nat | v < n && Asleep(s, v)
      ensures Half(s.vcpus[v]) == s.turns + 1
    {
      SleeperWaits(n, moves, v);
    }
    o :| o < n && Half(s.vcpus[o]) != s.turns + 1;
    assert VcpuInv(s, s.vcpus[o]) && VcpuInv(s, s.vcpus[u]);
    forall v: nat | v < n && Asleep(s, v)
      ensures s.vcpus[v].pc.v == 1 && s.vcpus[v].entered == s.vcpus[o].entered + 1
    {
      assert VcpuInv(s, s.vcpus[v]);
      BehindByOne(s.vcpus[o], s.vcpus[v]);
    }
  }

  lemma BehindByOne(o: Vcpu, v: Vcpu)
    requires PcOk(o) && PcOk(v) && o.pc.Outside? && v.pc.Waiting? && Half(v) == Half(o) + 1
    ensures v.pc.v == 1 && v.entered == o.entered + 1
  {
  }
}
