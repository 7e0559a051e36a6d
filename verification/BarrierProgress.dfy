/** The barrier of include/util.h never locks up: from every reachable state, without any wake-up that was not kicked,
    some schedule takes every vcpu through as many more barriers as one likes. */
module BarrierProgress {
  import opened Barrier
  import opened Bits
  import opened Sums

  // ---------------------------------------------------------------- what is left to do in a turn

  const KICK_COST: nat := 4

  /** The steps left to a vcpu in its half, with n vcpus. A setter pays for the kicks that it sends. */
  function Steps(n: nat, pc: Pc): nat {
    match pc
    case Increment => 0
    case Decrement => 0
    case Waiting(_, w) =>
      (match w
       case Leave => 1
       case Hlt => 2
       case Mark => 3
       case Check(r) => 4 + r
       case Unmark => 5
       case Intend => 5 + RETRY_COUNT)
    case Outside => 6 + RETRY_COUNT
    case Setting(_, t) =>
      7 + RETRY_COUNT +
      (match t
       case Kick(todo) => (KICK_COST + 1) * |todo|
       case Snapshot => 1 + (KICK_COST + 1) * n
       case Compare => 2 + (KICK_COST + 1) * n
       case _ => 3 + (KICK_COST + 1) * n)
    case _ => 11 + RETRY_COUNT + (KICK_COST + 1) * n
  }

  /** The steps left to a vcpu in a turn: a whole half more for one that is behind. */
  function Left(n: nat, turns: nat, vc: Vcpu): nat {
    Steps(n, vc.pc) + (if Half(vc) <= turns then 12 + RETRY_COUNT + (KICK_COST + 1) * n else 0)
  }

  function Lefts(turns: nat, vcpus: seq<Vcpu>): (ws: seq<nat>)
    ensures |ws| == |vcpus|
    ensures forall v :: 0 <= v < |vcpus| ==> ws[v] == Left(|vcpus|, turns, vcpus[v])
  {
    seq(|vcpus|, v requires 0 <= v < |vcpus| => Left(|vcpus|, turns, vcpus[v]))
  }

  function Measure(s: State): nat {
    Sum(Lefts(s.turns, s.vcpus)) + KICK_COST * |s.g.latched|
  }

  /** This vcpu has nothing to do until another one acts. */
  predicate Stuck(g: Shared, id: nat, pc: Pc) {
    || (pc.Waiting? && pc.w.Hlt? && id !in g.latched)
    || (pc.Setting? && pc.t.Compare? && g.intent != g.waiting)
  }

  /** One step, or the three with which a setter finds the bitmaps equal. */
  ghost function Round(s: State, id: nat): State
    requires id < |s.vcpus|
  {
    var s1 := Next(s, id, false);
    if s.vcpus[id].pc.Setting? && s.vcpus[id].pc.t.Compare? then Next(s1, id, false) else s1
  }

  lemma LatchMore(latched: Word, t: nat)
    ensures |latched + {t}| <= |latched| + 1
  {
    if t in latched {
      assert latched + {t} == latched;
    }
  }

  /** One vcpu comes nearer to the end of its turn. */
  lemma StepsLess(n: nat, id: nat, g: Shared, vc: Vcpu)
    requires !Stuck(g, id, vc.pc) && !(vc.pc.Setting? && vc.pc.t.Compare?) && |g.waiting| <= n
    requires !vc.pc.Increment? && !vc.pc.Decrement?
    ensures var (g', pc') := Exec(n, id, false, g, vc.pc);
            Steps(n, pc') + KICK_COST * |g'.latched| < Steps(n, vc.pc) + KICK_COST * |g.latched|
  {
    if vc.pc.Setting? && vc.pc.t.Kick? {
      KickLess(n, vc.pc.v, g, vc.pc.t.todo);
    } else if vc.pc.Setting? {
      SetLess(n, vc.pc.v, g, vc.pc.t);
    } else {
      WaitLess(n, id, g, vc.pc);
    }
  }

  lemma KickLess(n: nat, v: nat, g: Shared, todo: Word)
    ensures var (g', pc') := ExecSet(false, v, g, Kick(todo));
            Steps(n, pc') + KICK_COST * |g'.latched| < Steps(n, Setting(v, Kick(todo))) + KICK_COST * |g.latched|
  {
    if todo != {} {
      var t := Lowest(todo);
      LatchMore(g.latched, t);
      assert |todo - {t}| == |todo| - 1;
    }
  }

  lemma SetLess(n: nat, v: nat, g: Shared, t: SetPc)
    requires !t.Compare? && !t.Kick? && |g.waiting| <= n
    ensures var (g', pc') := ExecSet(false, v, g, t);
            g'.latched == g.latched && Steps(n, pc') < Steps(n, Setting(v, t))
  {
  }

  lemma WaitLess(n: nat, id: nat, g: Shared, pc: Pc)
    requires !Stuck(g, id, pc) && !pc.Setting? && !pc.Increment? && !pc.Decrement?
    ensures var (g', pc') := Exec(n, id, false, g, pc);
            Steps(n, pc') + KICK_COST * |g'.latched| < Steps(n, pc) + KICK_COST * |g.latched|
  {
  }

  ghost predicate GoodState(s: State) {
    BarrierInv(s) && WakeInv(s) && TurnInHand(s) && s.vcpus != []
  }

  lemma {:induction false} WithinCard(s: Word, n: nat)
    requires forall x :: x in s ==> x < n
    ensures |s| <= n
  {
    if n == 0 {
      assert s == {};
    } else {
      WithinCard(s - {n - 1}, n - 1);
    }
  }

  lemma LeftsStep(s: State, id: nat, vc': Vcpu)
    requires id < |s.vcpus|
    ensures var n := |s.vcpus|;
            Sum(Lefts(s.turns, s.vcpus[id := vc'])) + Left(n, s.turns, s.vcpus[id])
            == Sum(Lefts(s.turns, s.vcpus)) + Left(n, s.turns, vc')
  {
    var ws := Lefts(s.turns, s.vcpus);
    SumUpdate(ws, id, Left(|s.vcpus|, s.turns, vc'));
    assert Lefts(s.turns, s.vcpus[id := vc']) == ws[id := Left(|s.vcpus|, s.turns, vc')];
  }

  /** A step of a vcpu that can act brings the turn nearer to its end, or ends it. */
  lemma StepLess(s: State, id: nat)
    requires GoodState(s) && id < |s.vcpus| && !Stuck(s.g, id, s.vcpus[id].pc)
    requires !(s.vcpus[id].pc.Setting? && s.vcpus[id].pc.t.Compare?)
    ensures var s' := Next(s, id, false);
            s'.turns == s.turns + 1 || (s'.turns == s.turns && Measure(s') < Measure(s))
  {
    hide Steps, WakeInv, TurnInHand;
    var (vc, s') := (s.vcpus[id], Next(s, id, false));
    assert VcpuInv(s, vc);
    HalfStep(s, id, false);
    LeftsStep(s, id, s'.vcpus[id]);
    if vc.pc.Increment? || vc.pc.Decrement? {
      Crossing(|s.vcpus|, id, s.g, vc.pc);
    } else {
      WaitingCard(s);
      StepsLess(|s.vcpus|, id, s.g, vc);
    }
  }

  lemma WaitingCard(s: State)
    requires WakeInv(s)
    ensures |s.g.waiting| <= |s.vcpus|
  {
    WithinCard(s.g.waiting, |s.vcpus|);
  }

  lemma Crossing(n: nat, id: nat, g: Shared, pc: Pc)
    requires pc.Increment? || pc.Decrement?
    ensures var (g', pc') := Exec(n, id, false, g, pc);
            Steps(n, pc) == 0 && Steps(n, pc') == 11 + RETRY_COUNT + (KICK_COST + 1) * n && g'.latched == g.latched
  {
  }

  /** A setter that finds the bitmaps equal goes on to its kicks. */
  lemma CompareLess(s: State, id: nat)
    requires GoodState(s) && id < |s.vcpus| && s.vcpus[id].pc.Setting? && s.vcpus[id].pc.t.Compare?
    requires s.g.intent == s.g.waiting
    ensures var s' := Round(s, id); s'.turns == s.turns && Measure(s') < Measure(s)
  {
    var vc := s.vcpus[id];
    var s' := Round(s, id);
    assert s'.vcpus == s.vcpus[id := s'.vcpus[id]] && s'.g == s.g;
    assert s'.vcpus[id] == vc.(pc := Setting(vc.pc.v, Snapshot));
    LeftsStep(s, id, s'.vcpus[id]);
  }

  lemma RoundLess(s: State, id: nat)
    requires GoodState(s) && id < |s.vcpus| && !Stuck(s.g, id, s.vcpus[id].pc)
    ensures var s' := Round(s, id);
            s'.turns == s.turns + 1 || (s'.turns == s.turns && Measure(s') < Measure(s))
  {
    hide Measure;
    if s.vcpus[id].pc.Setting? && s.vcpus[id].pc.t.Compare? {
      CompareLess(s, id);
    } else {
      StepLess(s, id);
    }
  }

  /** A setter stuck between unequal bitmaps waits for a vcpu that can act. */
  lemma SomeoneOnTheWay(s: State) returns (u: nat)
    requires WakeInv(s) && s.g.intent != s.g.waiting
    ensures u < |s.vcpus| && !Stuck(s.g, u, s.vcpus[u].pc)
  {
    assert s.g.waiting <= s.g.intent;
    u :| u in s.g.intent && u !in s.g.waiting;
  }

  /** Somebody can always act. */
  lemma NotAllStuck(s: State) returns (id: nat)
    requires GoodState(s)
    ensures id < |s.vcpus| && !Stuck(s.g, id, s.vcpus[id].pc)
  {
    if k: nat :| k < |s.vcpus| && s.vcpus[k].pc.Setting? {
      if Stuck(s.g, k, s.vcpus[k].pc) {
        id := SomeoneOnTheWay(s);
      } else {
        id := k;
      }
    } else if AllArrived(s) {
      id :| id < |s.vcpus| && Deciding(s.vcpus[id].pc);
    } else {
      id :| id < |s.vcpus| && Half(s.vcpus[id]) != s.turns + 1;
      if Stuck(s.g, id, s.vcpus[id].pc) {
        StuckArrived(s, id);
        assert false;
      }
    }
  }

  /** Without a setter, a sleeper without a latched kick has arrived in the next half. */
  lemma StuckArrived(s: State, id: nat)
    requires BarrierInv(s) && WakeInv(s) && id < |s.vcpus| && Stuck(s.g, id, s.vcpus[id].pc)
    requires forall k :: 0 <= k < |s.vcpus| ==> !s.vcpus[k].pc.Setting?
    ensures Half(s.vcpus[id]) == s.turns + 1
  {
    assert VcpuInv(s, s.vcpus[id]);
    if s.vcpus[id].pc.v == s.g.c {
      assert false;
    }
    WaitsAhead(s, s.vcpus[id]);
  }

  // ---------------------------------------------------------------- going on from a reachable state

  type Moves = seq<(nat, bool)>

  /** Moves of these vcpus, without a wake-up that was not kicked. */
  predicate Kicked(n: nat, moves: Moves) {
    forall i :: 0 <= i < |moves| ==> moves[i].0 < n && !moves[i].1
  }

  predicate Valid(n: nat, moves: Moves) {
    forall i :: 0 <= i < |moves| ==> moves[i].0 < n
  }

  lemma Reachable(n: nat, moves: Moves)
    requires n > 0 && Valid(n, moves)
    ensures GoodState(After(n, moves))
  {
    BarrierAlways(n, moves);
    WakeAlways(n, moves);
    TurnAlways(n, moves);
  }

  /** The moves of a round. */
  lemma RoundMoves(n: nat, moves: Moves, id: nat) returns (more: Moves)
    requires Valid(n, moves) && id < n
    ensures Kicked(n, more) && After(n, moves + more) == Round(After(n, moves), id)
  {
    var m := (id, false);
    OneMove(n, moves, m);
    OneMove(n, moves + [m], m);
    var pc := After(n, moves).vcpus[id].pc;
    more := if pc.Setting? && pc.t.Compare? then [m, m] else [m];
    assert moves + [m, m] == moves + [m] + [m];
  }

  lemma MoreMoves(n: nat, moves: Moves, a: Moves, b: Moves) returns (more: Moves)
    requires Kicked(n, a) && Kicked(n, b)
    ensures Kicked(n, more) && moves + more == moves + a + b
  {
    more := a + b;
  }

  lemma OneMove(n: nat, moves: Moves, m: (nat, bool))
    requires Valid(n, moves) && m.0 < n
    ensures Valid(n, moves + [m]) && After(n, moves + [m]) == Next(After(n, moves), m.0, m.1)
  {
    assert (moves + [m])[..|moves|] == moves;
  }

  /** From every reachable state some schedule ends the turn. */
  lemma {:induction false} TurnGoesOn(n: nat, moves: Moves) returns (more: Moves)
    requires n > 0 && Valid(n, moves)
    ensures Kicked(n, more) && After(n, moves + more).turns == After(n, moves).turns + 1
    decreases Measure(After(n, moves))
  {
    hide Measure, Round, GoodState, Stuck, After;
    var s := After(n, moves);
    Reachable(n, moves);
    var id := NotAllStuck(s);
    RoundLess(s, id);
    more := RoundMoves(n, moves, id);
    if After(n, moves + more).turns == s.turns {
      var rest := TurnGoesOn(n, moves + more);
      more := MoreMoves(n, moves, more, rest);
    }
  }

  lemma {:induction false} TurnsGoOn(n: nat, moves: Moves, k: nat) returns (more: Moves)
    requires n > 0 && Valid(n, moves)
    ensures Kicked(n, more) && After(n, moves + more).turns == After(n, moves).turns + k
    decreases k
  {
    hide After;
    more := [];
    assert moves + [] == moves;
    if k > 0 {
      more := TurnGoesOn(n, moves);
      var rest := TurnsGoOn(n, moves + more, k - 1);
      more := MoreMoves(n, moves, more, rest);
    }
  }

  /** No deadlock: from every reachable state some schedule, in which nobody wakes up without having been kicked, takes
      every vcpu through k more barriers. */
  lemma EverybodyGetsThrough(n: nat, moves: Moves, k: nat) returns (more: Moves)
    requires n > 0 && Valid(n, moves)
    ensures Kicked(n, more)
    ensures forall v :: 0 <= v < n ==> After(n, moves + more).vcpus[v].left >= After(n, moves).vcpus[v].left + k
  {
    hide Half;
    more := TurnsGoOn(n, moves, 2 * k + 3);
    var (s, s') := (After(n, moves), After(n, moves + more));
    Reachable(n, moves);
    Reachable(n, moves + more);
    forall v: nat | v < n
      ensures s'.vcpus[v].left >= s.vcpus[v].left + k
    {
      assert VcpuInv(s, s.vcpus[v]) && VcpuInv(s', s'.vcpus[v]);
      HalfLeft(s.vcpus[v]);
      HalfLeft(s'.vcpus[v]);
    }
  }

  lemma HalfLeft(vc: Vcpu)
    requires PcOk(vc)
    ensures 2 * vc.left <= Half(vc) <= 2 * vc.left + 2
  {
  }
}
