/** From a recovery store that misses its condition the run can always go on until the free-vcpu counter underflows. */
module SchedUnderflow {
  import opened Bits
  import opened Dag
  import opened SchedModel
  import opened SchedTotals
  import opened SchedRounds
  import opened SchedLedgers

  // ---------------------------------------------------------------- going on from a state

  ghost function Follow(c: Config, s: State, more: Schedule): (s': State)
    requires Typed(c, s) && ValidSchedule(c, more)
    ensures Typed(c, s')
    decreases |more|
  {
    if more == [] then s
    else
      NextTyped(c, s, more[0].0, more[0].1);
      Follow(c, Next(c, s, more[0].0, more[0].1), more[1..])
  }

  /** No recovery store on the way. */
  ghost predicate NoStore(c: Config, s: State, more: Schedule)
    requires Typed(c, s) && ValidSchedule(c, more)
    decreases |more|
  {
    more != [] ==>
      && s.vcpus[more[0].0].pc != Restart(ResetFree)
      && (NextTyped(c, s, more[0].0, more[0].1); NoStore(c, Next(c, s, more[0].0, more[0].1), more[1..]))
  }

  lemma {:induction false} FollowJoin(c: Config, s: State, a: Schedule, b: Schedule)
    requires Typed(c, s) && ValidSchedule(c, a) && ValidSchedule(c, b)
    ensures Follow(c, s, a + b) == Follow(c, Follow(c, s, a), b)
    ensures NoStore(c, s, a) && NoStore(c, Follow(c, s, a), b) ==> NoStore(c, s, a + b)
    decreases |a|
  {
    if a == [] {
      assert a + b == b;
    } else {
      NextTyped(c, s, a[0].0, a[0].1);
      assert (a + b)[1..] == a[1..] + b;
      FollowJoin(c, Next(c, s, a[0].0, a[0].1), a[1..], b);
    }
  }

  /** Without a recovery store the counter never falls short of what it stands for, if it did not before. */
  lemma {:induction false} NoStoreKeeps(c: Config, s: State, more: Schedule)
    requires Typed(c, s) && ValidSchedule(c, more) && NoStore(c, s, more)
    requires FreeExact(c, s) && s.h.excess >= 0
    ensures Follow(c, s, more).g.numFree >= 0
    decreases |more|
  {
    if more != [] {
      var (v, choice) := more[0];
      NextTyped(c, s, v, choice);
      FreeStep(c, s, v, choice);
      NoStoreKeeps(c, Next(c, s, v, choice), more[1..]);
    }
  }

  // ---------------------------------------------------------------- one vcpu runs down

  /** Not about to count or to mark a target. */
  predicate Calm(vc: Vcpu) {
    !(vc.pc.Wake? && (vc.pc.w.KickCount? || vc.pc.w.KickMark?))
  }

  /** Just behind the recovery store, with no kick outstanding. */
  ghost predicate Behind(c: Config, s: State, w: nat) {
    && RoundInv(c, s) && FreeExact(c, s) && w < c.pool && s.vcpus[w].pc == Restart(ResetRunnable)
    && s.g.kicked == {} && forall v :: 0 <= v < c.pool ==> Calm(s.vcpus[v])
  }

  /** A bound on the steps of a vcpu inside wake_up_task that begins no first kick. */
  function WakeBound(g: Shared, w: WakePc): nat {
    var t := 4 * |g.target0|;
    var i := t + 4 * |g.inactive|;
    var k := i + 4 * |g.rekick0|;
    match w
    case WakeDone => 7
    case ScanTarget => 8 + t
    case ClaimTarget(u) => if u in g.target0 then 7 + t else 9 + t
    case CompareStamps(_) => 10 + t
    case Release(_, retry) => if retry then 9 + t else 11 + t
    case KickCall(_) => 12 + t
    case KickMark(_) => 13 + t
    case KickCount(_) => 14 + t
    case Rearm => 9 + t
    case TakeToken => 10 + t
    case PostTargets(snap) => 11 + t + 4 * |snap|
    case ReadInactive => 12 + i
    case StoreTokens(_) => 13 + i
    case Arm(_) => 14 + i
    case ReadFree(_) => 15 + i
    case ReadRunnable(_) => 15 + i
    case ReadCounters => 16 + i
    case ScanRekick => 17 + k
    case ClaimRekick(u) => if u in g.rekick0 then 16 + k else 18 + k
    case ReleaseRekick(_) => 18 + k
    case Rekick(_) => 19 + k
    case PostRekick(snap) => 18 + k + 4 * |snap|
    case ReadKicked => 19 + k + 4 * |g.kicked|
  }

  function Bound(g: Shared, vc: Vcpu): nat {
    match vc.pc
    case Enter => 1 + WakeBound(g, ReadKicked)
    case Wake(_, w) => WakeBound(g, w)
    case Work(k) =>
      (match k
       case Take(at, _) => if at < 4 then 6 - at else 0
       case Scan(at) => if at < 4 then 5 - at else 0
       case NoWork => 1
       case _ => 0)
    case _ => 0
  }

  lemma RekickBound(g: Shared, w: WakePc)
    requires InRekicks(w)
    ensures var (g', w') := ExecWake(false, g, w);
            && WakeBound(g', w') < WakeBound(g, w)
            && g'.kicked == g.kicked && g'.numFree == g.numFree && !w'.KickCount? && !w'.KickMark?
  {
  }

  predicate InRekicks(w: WakePc) {
    w.ScanRekick? || w.ClaimRekick? || w.Rekick? || w.ReleaseRekick? || w.ReadKicked? || w.PostRekick?
  }

  predicate InTokens(w: WakePc) {
    w.ReadCounters? || w.ReadFree? || w.ReadRunnable? || w.Arm? || w.StoreTokens? || w.ReadInactive? || w.PostTargets?
  }

  lemma TokenBound(g: Shared, w: WakePc)
    requires InTokens(w)
    ensures var (g', w') := ExecWake(false, g, w);
            && WakeBound(g', w') < WakeBound(g, w)
            && g'.kicked == g.kicked && g'.numFree == g.numFree && !w'.KickCount? && !w'.KickMark?
  {
  }

  lemma ClaimBound(g: Shared, w: WakePc)
    requires w.ScanTarget? || w.ClaimTarget?
    ensures var (g', w') := ExecWake(false, g, w);
            && WakeBound(g', w') < WakeBound(g, w)
            && g'.kicked == g.kicked && g'.numFree == g.numFree && !w'.KickCount? && !w'.KickMark?
  {
  }

  lemma TargetBound(g: Shared, w: WakePc)
    requires w.TakeToken? || w.Rearm? || w.CompareStamps? || w.KickCall? || w.Release?
    ensures var (g', w') := ExecWake(false, g, w);
            && WakeBound(g', w') < WakeBound(g, w)
            && g'.kicked == g.kicked && g'.numFree == g.numFree && !w'.KickCount? && !w'.KickMark?
  {
  }

  /** A vacant vcpu that is counted free, alone: it comes nearer to giving up, kicks nobody, and is counted free until
      it gives up. */
  lemma DownLocal(c: Config, v: nat, g: Shared, vc: Vcpu)
    requires Header(c) && SharedOk(c.n, g) && PcOk(c, vc)
    requires Vacant(vc) && StandsFree(vc) && Calm(vc) && !vc.pc.Restart? && g.run == {} && g.kicked == {}
    ensures var (g', vc') := Exec(c, v, false, g, vc);
            && g'.kicked == {} && Calm(vc') && ObserveExcess(g, vc, 0) == 0
            && (StandsFree(vc') ==> Bound(g', vc') < Bound(g, vc))
  {
    if vc.pc.Wake? && !vc.pc.w.WakeDone? {
      if InRekicks(vc.pc.w) {
        RekickBound(g, vc.pc.w);
      } else if InTokens(vc.pc.w) {
        TokenBound(g, vc.pc.w);
      } else if vc.pc.w.ScanTarget? || vc.pc.w.ClaimTarget? {
        ClaimBound(g, vc.pc.w);
      } else {
        TargetBound(g, vc.pc.w);
      }
    }
  }

  lemma DownStep(c: Config, s: State, w: nat, v: nat)
    requires Behind(c, s, w) && v < c.pool && v != w && StandsFree(s.vcpus[v])
    ensures var s' := Next(c, s, v, false);
            && Behind(c, s', w) && s'.h.excess == s.h.excess
            && (StandsFree(s'.vcpus[v]) ==> Bound(s'.g, s'.vcpus[v]) < Bound(s.g, s.vcpus[v]))
  {
    assert s.h.round.mode.Restarting? && s.h.round.mode.winner == w;
    RoundStep(c, s, v, false);
    FreeStep(c, s, v, false);
    DownLocal(c, v, s.g, s.vcpus[v]);
  }

  /** One vcpu after the other gives up. */
  lemma {:induction false} RunDown(c: Config, s: State, w: nat, v: nat) returns (more: Schedule)
    requires Behind(c, s, w) && v < c.pool && v != w
    ensures ValidSchedule(c, more) && NoStore(c, s, more)
    ensures var s' := Follow(c, s, more);
            && Behind(c, s', w) && s'.h.excess == s.h.excess && !StandsFree(s'.vcpus[v])
            && forall u :: 0 <= u < c.pool && u != v ==> s'.vcpus[u] == s.vcpus[u]
    decreases if StandsFree(s.vcpus[v]) then Bound(s.g, s.vcpus[v]) + 1 else 0
  {
    if StandsFree(s.vcpus[v]) {
      DownStep(c, s, w, v);
      var rest := RunDown(c, Next(c, s, v, false), w, v);
      more := [(v, false)] + rest;
      assert more[1..] == rest;
    } else {
      more := [];
    }
  }

  lemma {:induction false} AllDown(c: Config, s: State, w: nat, k: nat) returns (more: Schedule)
    requires Behind(c, s, w) && k <= c.pool
    ensures ValidSchedule(c, more) && NoStore(c, s, more)
    ensures var s' := Follow(c, s, more);
            && Behind(c, s', w) && s'.h.excess == s.h.excess
            && forall u :: 0 <= u < k && u != w ==> !StandsFree(s'.vcpus[u])
  {
    if k == 0 {
      more := [];
    } else {
      var a := AllDown(c, s, w, k - 1);
      if k - 1 == w {
        more := a;
      } else {
        var b := RunDown(c, Follow(c, s, a), w, k - 1);
        FollowJoin(c, s, a, b);
        more := a + b;
      }
    }
  }

  // ---------------------------------------------------------------- the winner takes the start function

  predicate Winning(c: Config, g: Shared, pc: Pc) {
    match pc
    case Restart(r) =>
      && g.run == {} && (r.ResetRunnable? || r.StartCount? || r.StartSet? || (r.Copy? && r.i <= c.n))
    case Work(k) =>
      && g.run == {c.start}
      && (k.Scan? || k.Take?) && k.word <= c.start / 64
      && (k.Take? ==> k.b == c.start)
    case _ => false
  }

  function WinnerBound(c: Config, pc: Pc): nat {
    match pc
    case Restart(ResetRunnable) => c.n + 10
    case Restart(Copy(i)) => if i <= c.n then c.n - i + 9 else 0
    case Restart(StartCount) => 8
    case Restart(StartSet) => 7
    case Work(Scan(w)) => if w < 4 then 6 - w else 0
    case Work(Take(_, _)) => 1
    case _ => 0
  }

  lemma WinnerLocal(c: Config, v: nat, g: Shared, vc: Vcpu)
    requires Layout(c) && SharedOk(c.n, g) && PcOk(c, vc) && Winning(c, g, vc.pc)
    ensures var (g', vc') := Exec(c, v, false, g, vc);
            && g'.numFree == g.numFree
            && if vc.pc.Work? && vc.pc.k.Take? then vc'.pc == Work(GotFree(c.start))
               else Winning(c, g', vc'.pc) && WinnerBound(c, vc'.pc) < WinnerBound(c, vc.pc)
  {
    if vc.pc.Work? && vc.pc.k.Scan? {
      var word := WordOf(g.run, vc.pc.k.word);
      if vc.pc.k.word == c.start / 64 {
        assert c.start in word && word == {c.start};
      } else {
        assert word == {};
      }
    }
  }

  lemma {:induction false} WinnerTakes(c: Config, s: State, w: nat) returns (more: Schedule)
    requires Typed(c, s) && w < c.pool && Winning(c, s.g, s.vcpus[w].pc)
    ensures ValidSchedule(c, more) && NoStore(c, s, more)
    ensures Follow(c, s, more).g.numFree == s.g.numFree - 1
    decreases WinnerBound(c, s.vcpus[w].pc)
  {
    var s' := Next(c, s, w, false);
    NextTyped(c, s, w, false);
    WinnerLocal(c, w, s.g, s.vcpus[w]);
    var rest: Schedule;
    if s.vcpus[w].pc.Work? && s.vcpus[w].pc.k.Take? {
      NextTyped(c, s', w, false);
      rest := [(w, false)];
      assert Follow(c, s', rest) == Next(c, s', w, false);
    } else {
      rest := WinnerTakes(c, s', w);
    }
    more := [(w, false)] + rest;
    assert more[1..] == rest;
  }

  // ---------------------------------------------------------------- the result

  lemma Underflows(c: Config, s: State, w: nat) returns (more: Schedule)
    requires Behind(c, s, w) && s.h.excess < 0
    ensures ValidSchedule(c, more) && NoStore(c, s, more) && Follow(c, s, more).g.numFree < 0
  {
    var a := AllDown(c, s, w, c.pool);
    var s' := Follow(c, s, a);
    StandingOne(c, s', w);
    var b := WinnerTakes(c, s', w);
    FollowJoin(c, s, a, b);
    more := a + b;
  }

  /** A recovery store with no kick outstanding: the run can go on, without another one, until the free-vcpu counter
      underflows, if and only if another vcpu was counted free at the store. */
  lemma UnderflowIff(c: Config, inCount: seq<nat>, moves: Schedule, w: nat, choice: bool)
    requires WellFormed(c) && |inCount| == c.n && ValidSchedule(c, moves) && w < c.pool
    requires var s := After(c, inCount, moves);
             && s.vcpus[w].pc == Restart(ResetFree) && s.g.kicked == {}
             && forall v :: 0 <= v < c.pool ==> Calm(s.vcpus[v])
    ensures var s := After(c, inCount, moves);
            var s' := Next(c, s, w, choice);
            && Typed(c, s')
            && ((exists more :: ValidSchedule(c, more) && NoStore(c, s', more) && Follow(c, s', more).g.numFree < 0)
                <==> exists v :: 0 <= v < c.pool && v != w && StandsFree(s.vcpus[v]))
  {
    var s := After(c, inCount, moves);
    var s' := Next(c, s, w, choice);
    RoundAlways(c, inCount, moves);
    FreeAlways(c, inCount, moves);
    RoundStep(c, s, w, choice);
    FreeStep(c, s, w, choice);
    RecoveryExcess(c, inCount, moves, w, choice);
    assert Behind(c, s', w);
    if s'.h.excess < 0 {
      var more := Underflows(c, s', w);
    } else {
      forall more | ValidSchedule(c, more) && NoStore(c, s', more)
        ensures Follow(c, s', more).g.numFree >= 0
      {
        NoStoreKeeps(c, s', more);
      }
    }
  }
}
