/** The scheduler never locks up: from every reachable state some schedule, in which no halted vcpu is woken, wins as
    many more rounds as one likes. */
module SchedProgress {
  import opened Dag
  import opened SchedModel
  import opened SchedTotals
  import opened SchedRounds
  import opened SchedAwake
  import opened SchedUnderflow
  import opened Sums

  // ---------------------------------------------------------------- one vcpu on its way

  /** A bound on the steps of process_sched_dag. */
  function ProcBound(c: Config, fn: nat, p: ProcPc): nat
    requires fn < c.n && |c.dag| > 2 * c.n
  {
    var e := EndEdge(c, fn);
    match p
    case CountFree => 2 + 3 * Positive(e - FirstEdge(c, fn))
    case Edge(i) => 1 + 3 * Positive(e - i)
    case PubCount(i) => 3 * Positive(e - i)
    case PubSet(i) => Positive(3 * (e - i) - 1)
    case ClearCurrent => 0
  }

  function RestartBound(n: nat, r: RestartPc): nat {
    match r
    case WonCount => 20 + n
    case Wipe(k) => 15 + n + (if k < 4 then 4 - k else 0)
    case TestKicked => 15 + n
    case TestInactive => 14 + n
    case ResetFree => 13 + n
    case ResetRunnable => 12 + n
    case Copy(i) => 11 + Positive(n - i)
    case StartCount => 10
    case StartSet => 9
  }

  /** A bound on the steps of a vcpu before it goes to sleep, wins the round, or gets a function into its next stage. */
  function Ahead(c: Config, g: Shared, vc: Vcpu): nat
    requires |c.dag| > 2 * c.n && c.n < NULL_FUNC
  {
    var wake := 1 + WakeBound(g, ReadKicked);
    match vc.pc
    case Sleep(_, z) =>
      (match z
       case ClearInactive => 3 + wake
       case ClearKicked => 2 + wake
       case CountSelf => 1 + wake
       case _ => 0)
    case Enter => if vc.cur < c.n then 1 + ProcBound(c, vc.cur, CountFree) + wake else wake
    case Proc(fn, p) => if fn < c.n then ProcBound(c, fn, p) + wake else 0
    case Wake(_, w) => WakeBound(g, w)
    case Finish(_) => 6
    case Work(k) =>
      (match k
       case Scan(w) => if w < 4 then 5 - w else 0
       case Take(w, b) => if b in g.run then 0 else if w < 4 then 6 - w else 0
       case GotFree(_) => 3
       case GotRunnable(_) => 2
       case Jump(_) => 1
       case Running => 0
       case NoWork => 1
       case RoundCas => 0)
    case Restart(r) => RestartBound(c.n, r)
  }

  /** The stages that the functions have reached in the round. */
  function Stages(r: Round): nat {
    Sum(r.pub) + Sum(r.took) + Sum(r.ended) + Sum(r.fin)
  }

  lemma Bumped(counts: seq<nat>, f: nat)
    ensures Sum(Bump(counts, f)) == Sum(counts) + (if f < |counts| then 1 else 0)
  {
    hide Sum;
    if f < |counts| {
      SumUpdate(counts, f, counts[f] + 1);
    }
  }

  /** This step takes a function into its next stage. */
  predicate Advances(c: Config, g: Shared, vc: Vcpu) {
    match vc.pc
    case Proc(_, p) => p.PubSet?
    case Finish(_) => true
    case Work(k) => k.Running? || (k.Take? && k.b in g.run)
    case Restart(r) => r.StartSet?
    case _ => false
  }

  predicate Racing(c: Config, g: Shared, vc: Vcpu) {
    vc.pc == Work(RoundCas) && g.numFin == c.n
  }

  lemma AdvanceStep(c: Config, v: nat, g: Shared, vc: Vcpu, r: Round)
    requires Header(c) && SharedOk(c.n, g) && PcOk(c, vc) && !Racing(c, g, vc)
    requires |r.pub| == |r.took| == |r.ended| == |r.fin| == c.n
    ensures Stages(ObserveRound(c, v, g, vc, r)) == Stages(r) + Bit(Advances(c, g, vc))
  {
    hide Sum, Bump;
    match vc.pc {
      case Proc(fn, p) => if p.PubSet? { Bumped(r.pub, c.dag[p.i]); }
      case Finish(fn) => Bumped(r.fin, fn);
      case Work(k) =>
        if k.Running? {
          Bumped(r.ended, vc.cur);
        } else if k.Take? && k.b in g.run {
          Bumped(r.took, k.b);
        }
      case Restart(x) => if x.StartSet? { Bumped(r.pub, c.start); }
      case _ =>
    }
  }

  lemma WakeNearer(g: Shared, w: WakePc)
    requires !w.WakeDone?
    ensures var (g', w') := ExecWake(false, g, w); WakeBound(g', w') < WakeBound(g, w)
  {
    if InRekicks(w) {
      RekickBound(g, w);
    } else if InTokens(w) {
      TokenBound(g, w);
    } else if w.ScanTarget? || w.ClaimTarget? {
      ClaimBound(g, w);
    } else if !w.KickCount? && !w.KickMark? {
      TargetBound(g, w);
    }
  }

  /** Closer to sleep, to a won round, or to a function's next stage. */
  ghost predicate Nearer(c: Config, v: nat, g: Shared, vc: Vcpu)
    requires Header(c) && SharedOk(c.n, g) && PcOk(c, vc)
  {
    var (g', vc') := Exec(c, v, false, g, vc);
    Committed(vc') || Ahead(c, g', vc') < Ahead(c, g, vc)
  }

  lemma NearerWake(c: Config, v: nat, g: Shared, vc: Vcpu)
    requires Header(c) && SharedOk(c.n, g) && PcOk(c, vc) && vc.pc.Wake?
    ensures Nearer(c, v, g, vc)
  {
    hide WakeBound;
    if vc.pc.w.WakeDone? {
      DoneBound(g);
    } else {
      WakeNearer(g, vc.pc.w);
    }
  }

  lemma DoneBound(g: Shared)
    ensures WakeBound(g, WakeDone) == 7 && WakeBound(g, ReadKicked) >= 19
  {
  }

  lemma NearerProc(c: Config, v: nat, g: Shared, vc: Vcpu)
    requires Header(c) && SharedOk(c.n, g) && PcOk(c, vc) && (vc.pc.Proc? || vc.pc.Enter?)
    requires !Advances(c, g, vc)
    ensures Nearer(c, v, g, vc)
  {
    hide WakeBound;
    DoneBound(g);
    var (g', vc') := Exec(c, v, false, g, vc);
    SameWake(g, g');
  }

  /** The bound on wake_up_task looks at four words only. */
  lemma SameWake(g: Shared, g': Shared)
    ensures g'.target0 == g.target0 && g'.inactive == g.inactive && g'.rekick0 == g.rekick0 && g'.kicked == g.kicked ==>
              WakeBound(g', ReadKicked) == WakeBound(g, ReadKicked)
  {
  }

  lemma NearerSleep(c: Config, v: nat, g: Shared, vc: Vcpu)
    requires Header(c) && SharedOk(c.n, g) && PcOk(c, vc) && vc.pc.Sleep? && !Committed(vc)
    ensures Nearer(c, v, g, vc)
  {
    assert |g.inactive - {v}| <= |g.inactive| && |g.kicked - {v}| <= |g.kicked|;
  }

  lemma NearerRest(c: Config, v: nat, g: Shared, vc: Vcpu)
    requires Header(c) && SharedOk(c.n, g) && PcOk(c, vc) && (vc.pc.Finish? || vc.pc.Work? || vc.pc.Restart?)
    requires !Racing(c, g, vc) && !Advances(c, g, vc)
    ensures Nearer(c, v, g, vc)
  {
    hide WakeBound;
  }

  lemma NearerStep(c: Config, v: nat, g: Shared, vc: Vcpu)
    requires Header(c) && SharedOk(c.n, g) && PcOk(c, vc)
    requires !Committed(vc) && !Racing(c, g, vc) && !Advances(c, g, vc)
    ensures Nearer(c, v, g, vc)
  {
    hide Nearer;
    match vc.pc
    case Wake(_, _) => NearerWake(c, v, g, vc);
    case Proc(_, _) => NearerProc(c, v, g, vc);
    case Enter => NearerProc(c, v, g, vc);
    case Sleep(_, _) => NearerSleep(c, v, g, vc);
    case _ => NearerRest(c, v, g, vc);
  }

  // ---------------------------------------------------------------- one vcpu after the other

  /** Every stage is reached at most once. */
  lemma StagesAtMost(c: Config, s: State)
    requires RoundInv(c, s) && !s.h.round.mode.Idle?
    ensures Stages(s.h.round) <= 4 * c.n
  {
    var r := s.h.round;
    if r.mode.Underway? {
      forall f: nat | f < c.n ensures r.fin[f] <= r.ended[f] <= r.took[f] <= r.pub[f] <= 1 {
        StagesOrdered(c, s, f);
      }
      SumFull(r.pub);
      SumFull(r.took);
      SumFull(r.ended);
      SumFull(r.fin);
    } else {
      SumZero(r.pub);
      SumZero(r.took);
      SumZero(r.ended);
      SumZero(r.fin);
    }
  }

  /** Before the first round there is nothing to advance. */
  lemma IdleNoAdvance(c: Config, s: State, v: nat)
    requires RoundInv(c, s) && s.h.round.mode.Idle? && v < c.pool
    ensures !Advances(c, s.g, s.vcpus[v])
  {
    assert Vacant(s.vcpus[v]);
  }

  lemma ModeStep(c: Config, s: State, v: nat)
    requires RoundInv(c, s) && v < c.pool && !Wins(c, s, v)
    ensures Next(c, s, v, false).h.round.mode.Idle? <==> s.h.round.mode.Idle?
  {
  }

  /** Every move is made by a vcpu that is neither asleep nor committed to going to sleep. */
  ghost predicate OnlyAwake(c: Config, s: State, more: Schedule)
    requires Typed(c, s) && ValidSchedule(c, more)
    decreases |more|
  {
    more != [] ==>
      && !Committed(s.vcpus[more[0].0])
      && (NextTyped(c, s, more[0].0, more[0].1); OnlyAwake(c, Next(c, s, more[0].0, more[0].1), more[1..]))
  }

  /** The rounds won on the way. */
  ghost function RoundsWon(c: Config, s: State, more: Schedule): nat
    requires Typed(c, s) && ValidSchedule(c, more)
    decreases |more|
  {
    if more == [] then 0
    else
      NextTyped(c, s, more[0].0, more[0].1);
      Bit(Wins(c, s, more[0].0)) + RoundsWon(c, Next(c, s, more[0].0, more[0].1), more[1..])
  }

  lemma {:induction false} Join(c: Config, s: State, a: Schedule, b: Schedule)
    requires Typed(c, s) && ValidSchedule(c, a) && ValidSchedule(c, b)
    ensures OnlyAwake(c, s, a) && OnlyAwake(c, Follow(c, s, a), b) ==> OnlyAwake(c, s, a + b)
    ensures RoundsWon(c, s, a + b) == RoundsWon(c, s, a) + RoundsWon(c, Follow(c, s, a), b)
    decreases |a|
  {
    if a == [] {
      assert a + b == b;
    } else {
      NextTyped(c, s, a[0].0, a[0].1);
      assert (a + b)[1..] == a[1..] + b;
      Join(c, Next(c, s, a[0].0, a[0].1), a[1..], b);
    }
  }

  lemma FirstMove(c: Config, s: State, v: nat, rest: Schedule) returns (more: Schedule)
    requires Typed(c, s) && v < c.pool && !Committed(s.vcpus[v]) && ValidSchedule(c, rest)
    requires Typed(c, Next(c, s, v, false)) && OnlyAwake(c, Next(c, s, v, false), rest)
    ensures ValidSchedule(c, more) && OnlyAwake(c, s, more)
    ensures Follow(c, s, more) == Follow(c, Next(c, s, v, false), rest)
    ensures RoundsWon(c, s, more) == Bit(Wins(c, s, v)) + RoundsWon(c, Next(c, s, v, false), rest)
  {
    more := [(v, false)] + rest;
    assert more[1..] == rest;
  }

  /** How far a vcpu alone gets: to the race for the round, with all functions finished; to a function's next stage; or
      to sleep. */
  ghost predicate Arrives(c: Config, s: State, s': State, v: nat)
    requires |s.vcpus| == |s'.vcpus| == c.pool && v < c.pool
  {
    && (s'.h.round.mode.Idle? <==> s.h.round.mode.Idle?)
    && (|| Wins(c, s', v)
        || (Stages(s'.h.round) == Stages(s.h.round) + 1 && !s.h.round.mode.Idle?)
        || (&& Stages(s'.h.round) == Stages(s.h.round)
            && Committed(s'.vcpus[v]) && s'.vcpus == s.vcpus[v := s'.vcpus[v]]))
  }

  lemma {:induction false} RunsAlone(c: Config, s: State, v: nat) returns (more: Schedule)
    requires AwakeInv(c, s) && v < c.pool && !Committed(s.vcpus[v])
    ensures ValidSchedule(c, more) && OnlyAwake(c, s, more) && RoundsWon(c, s, more) == 0
    ensures AwakeInv(c, Follow(c, s, more)) && Arrives(c, s, Follow(c, s, more), v)
    decreases Ahead(c, s.g, s.vcpus[v])
  {
    hide Ahead, Stages, Committed, Advances, NoOrphan, RaceAttended;
    more := [];
    if !Wins(c, s, v) {
      var s1 := Next(c, s, v, false);
      AwakeStep(c, s, v, false);
      ModeStep(c, s, v);
      AdvanceStep(c, v, s.g, s.vcpus[v], s.h.round);
      var rest := [];
      if Advances(c, s.g, s.vcpus[v]) {
        if s.h.round.mode.Idle? {
          IdleNoAdvance(c, s, v);
          assert false;
        }
      } else {
        NearerStep(c, v, s.g, s.vcpus[v]);
        if !Committed(s1.vcpus[v]) {
          rest := RunsAlone(c, s1, v);
        }
      }
      more := FirstMove(c, s, v, rest);
    }
  }

  // ---------------------------------------------------------------- round after round

  function AwakeSet(vcpus: seq<Vcpu>): set<nat> {
    set v: nat | v < |vcpus| && !Committed(vcpus[v])
  }

  function StagesLeft(c: Config, s: State): nat {
    Positive(4 * c.n - Stages(s.h.round))
  }

  lemma Fewer(c: Config, s: State, s': State, v: nat)
    requires AwakeInv(c, s) && AwakeInv(c, s') && v < c.pool && !Committed(s.vcpus[v])
    requires Arrives(c, s, s', v) && !Wins(c, s', v)
    ensures || StagesLeft(c, s') < StagesLeft(c, s)
            || (StagesLeft(c, s') == StagesLeft(c, s) && |AwakeSet(s'.vcpus)| < |AwakeSet(s.vcpus)|)
  {
    if Stages(s'.h.round) == Stages(s.h.round) {
      assert AwakeSet(s'.vcpus) == AwakeSet(s.vcpus) - {v};
      assert v in AwakeSet(s.vcpus);
    } else {
      StagesAtMost(c, s');
    }
  }

  /** The vcpus that are awake can always finish the round among themselves. */
  lemma {:induction false} SomeoneWins(c: Config, s: State) returns (more: Schedule, v: nat)
    requires AwakeInv(c, s)
    ensures ValidSchedule(c, more) && OnlyAwake(c, s, more) && RoundsWon(c, s, more) == 0
    ensures AwakeInv(c, Follow(c, s, more)) && v < c.pool && Wins(c, Follow(c, s, more), v)
    decreases StagesLeft(c, s), |AwakeSet(s.vcpus)|
  {
    hide OnlyAwake, RoundsWon, AwakeInv, StagesLeft, AwakeSet, Committed, Arrives, Wins;
    v := SomeoneAwake(c, s);
    InvTyped(c, s);
    more := RunsAlone(c, s, v);
    var s' := Follow(c, s, more);
    if !Wins(c, s', v) {
      Fewer(c, s, s', v);
      var rest: Schedule;
      rest, v := SomeoneWins(c, s');
      Join(c, s, more, rest);
      FollowJoin(c, s, more, rest);
      more := more + rest;
    }
  }

  lemma InvTyped(c: Config, s: State)
    requires AwakeInv(c, s)
    ensures Typed(c, s)
  {
  }

  lemma {:induction false} RoundsFollow(c: Config, s: State, k: nat) returns (more: Schedule)
    requires AwakeInv(c, s)
    ensures Typed(c, s) && ValidSchedule(c, more) && OnlyAwake(c, s, more) && RoundsWon(c, s, more) == k
    decreases k
  {
    hide NoOrphan, RaceAttended;
    more := [];
    if k > 0 {
      var first: Schedule, v: nat;
      first, v := SomeoneWins(c, s);
      var s' := Follow(c, s, first);
      AwakeStep(c, s', v, false);
      var rest := RoundsFollow(c, Next(c, s', v, false), k - 1);
      var last := FirstMove(c, s', v, rest);
      Join(c, s, first, last);
      more := first + last;
    }
  }

  /** No deadlock: from every reachable state some schedule, in which nobody moves that is asleep or on the way to
      sleep, wins k more rounds. */
  lemma RoundsGoOn(c: Config, inCount: seq<nat>, moves: Schedule, k: nat) returns (more: Schedule)
    requires WellFormed(c) && |inCount| == c.n && ValidSchedule(c, moves)
    ensures ValidSchedule(c, more)
    ensures var s := After(c, inCount, moves); OnlyAwake(c, s, more) && RoundsWon(c, s, more) == k
  {
    AwakeAlways(c, inCount, moves);
    more := RoundsFollow(c, After(c, inCount, moves), k);
  }
}
