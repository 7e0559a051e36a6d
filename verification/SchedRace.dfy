/** Runs that show what the scheduler does not keep: the recovery store of a restarting vcpu meets a spurious wake-up,
    and the free-vcpu counter underflows; the wipe of the reflective bitmaps meets a vcpu on its first entry, and a
    target is left in word 0 alone, of either bitmap, or gets two owners. */
module SchedRace {
  import opened Bits
  import opened Dag
  import opened SchedModel
  import opened SchedSolo
  import opened SchedTotals
  import opened SchedClaims
  import opened SchedLedgers

  /** One function without edges. */
  function Small(pool: nat): Config {
    Config(pool, 1, 0, [0, 0, 0])
  }

  const IN_COUNT: seq<nat> := [0]

  lemma OneFunction(pool: nat)
    requires 1 <= pool <= 63
    ensures WellFormed(Small(pool))
  {
    assert Ranked(Small(pool), [0]);
  }

  // ---------------------------------------------------------------- runs

  /** A schedule with the shared words and the vcpus that it leads to. */
  datatype Run = Run(pool: nat, moves: Schedule, g: Shared, vs: seq<Vcpu>)

  ghost predicate Ok(r: Run) {
    && 2 <= r.pool == |r.vs| && Layout(Small(r.pool)) && ValidSchedule(Small(r.pool), r.moves)
    && After(Small(r.pool), IN_COUNT, r.moves).g == r.g
    && After(Small(r.pool), IN_COUNT, r.moves).vcpus == r.vs
  }

  /** The run goes on to these shared words, with vcpu v changed. */
  ghost predicate Leads(r: Run, v: nat, g: Shared, vc: Vcpu, r': Run)
    requires v < |r.vs|
  {
    Ok(r') && r'.pool == r.pool && r'.g == g && r'.vs == r.vs[v := vc]
  }

  const ASLEEP: Vcpu := Bare(Sleep(true, Hlt))

  lemma Begin(pool: nat) returns (r: Run)
    requires 2 <= pool <= 63
    ensures Ok(r) && r.pool == pool && r.vs == [Bare(Enter)] + seq(pool - 1, _ => ASLEEP)
    ensures r.g == Shared({}, 0, IN_COUNT, 1, 1, 0, 1, {}, Others(pool), {}, {}, {}, {})
  {
    OneFunction(pool);
    var s := Start(Small(pool), IN_COUNT);
    r := Run(pool, [], s.g, s.vcpus);
  }

  lemma Step(r: Run, v: nat, choice: bool) returns (r': Run)
    requires Ok(r) && v < |r.vs|
    ensures r.pool >= 2 && PcOk(Small(r.pool), r.vs[v]) && SharedOk(1, r.g)
    ensures var (g, vc) := Exec(Small(r.pool), v, choice, r.g, r.vs[v]); Leads(r, v, g, vc, r')
  {
    var more := r.moves + [(v, choice)];
    assert more[..|r.moves|] == r.moves;
    var (g, vc) := Exec(Small(r.pool), v, choice, r.g, r.vs[v]);
    r' := Run(r.pool, more, g, r.vs[v := vc]);
  }

  // ---------------------------------------------------------------- inside wake_up_task

  lemma {:induction false} WakeRun(r: Run, v: nat, fn: nat, w: WakePc, k: nat) returns (r': Run)
    requires Ok(r) && v < |r.vs| && r.vs[v] == Bare(Wake(fn, w))
    ensures var (g, w') := WakeSteps(STALE, r.g, w, k); Leads(r, v, g, Bare(Wake(fn, w')), r')
    decreases k
  {
    hide Ok;
    r' := r;
    if k == 0 || w.WakeDone? {
      assert r.vs[v := r.vs[v]] == r.vs;
    } else {
      r' := Step(r, v, false);
      r' := WakeRun(r', v, fn, r'.vs[v].pc.w, k - 1);
      assert r'.vs == r.vs[v := r'.vs[v]];
    }
  }

  /** No re-kicks. */
  lemma NoRekicks(g: Shared)
    requires g.kicked == g.rekick0 == g.rekick1 == {}
    ensures WakeSteps(STALE, g, ReadKicked, 3) == (g, ReadCounters)
  {
    hide WakeSteps;
    assert g.(rekick0 := {}, rekick1 := {}) == g;
    OneStep(STALE, g, ReadKicked, 3);
    OneStep(STALE, g, PostRekick({}), 2);
    OneStep(STALE, g, ScanRekick, 1);
  }

  /** No tokens to issue: on to the snapshot of the inactive vcpus. */
  lemma NoTokens(g: Shared)
    requires g.runnable <= g.numFree
    ensures WakeSteps(STALE, g, ReadCounters, 3) == (g, PostTargets(g.inactive))
  {
    hide WakeSteps;
    OneStep(STALE, g, ReadCounters, 3);
    OneStep(STALE, g, ReadFree(g.runnable), 2);
    OneStep(STALE, g, ReadInactive, 1);
  }

  lemma PostIs(g: Shared)
    ensures ExecWake(false, g, PostTargets(g.inactive)) == (Posted(g), TakeToken)
    ensures Posted(g).wakeNum == g.wakeNum
  {
  }

  lemma TakeIs(g: Shared)
    requires g.wakeNum <= 0
    ensures ExecWake(false, g, TakeToken) == (g.(wakeNum := g.wakeNum - 1), WakeDone)
  {
  }

  /** Posting the snapshot, and no token to take. */
  lemma NoToken(g: Shared)
    requires g.wakeNum <= 0
    ensures WakeSteps(STALE, g, PostTargets(g.inactive), 2) == (Posted(g).(wakeNum := g.wakeNum - 1), WakeDone)
  {
    hide WakeSteps, ExecWake, Posted;
    PostIs(g);
    TakeIs(Posted(g));
    OneStep(STALE, g, PostTargets(g.inactive), 2);
    OneStep(STALE, Posted(g), TakeToken, 1);
  }

  /** One token to issue, and to take: on to the posted snapshot. */
  lemma OneToken(g: Shared)
    requires g.runnable - g.numFree == 1 && g.sig == 1
    ensures WakeSteps(STALE, g, ReadCounters, 5) == (g.(sig := 0, wakeNum := 1), PostTargets(g.inactive))
  {
    hide WakeSteps;
    var g1 := g.(sig := 0);
    var g2 := g1.(wakeNum := 1);
    OneStep(STALE, g, ReadCounters, 5);
    OneStep(STALE, g, ReadFree(g.runnable), 4);
    OneStep(STALE, g, Arm(1), 3);
    OneStep(STALE, g1, StoreTokens(1), 2);
    OneStep(STALE, g2, ReadInactive, 1);
  }

  /** The token is taken, and the signal set again. */
  lemma OneTaken(g: Shared)
    requires g.wakeNum == 1 && g.target0 == g.target1 == {}
    ensures WakeSteps(STALE, g, PostTargets(g.inactive), 3)
         == (g.(sig := 1, wakeNum := 0, target0 := g.inactive, target1 := g.inactive), ScanTarget)
  {
    hide WakeSteps;
    var g1 := g.(target0 := g.inactive, target1 := g.inactive);
    OneStep(STALE, g, PostTargets(g.inactive), 3);
    OneStep(STALE, g1, TakeToken, 2);
    OneStep(STALE, g1.(wakeNum := 0), Rearm, 1);
  }

  lemma OneClaim(g: Shared, t: nat)
    requires g.target0 == {t}
    ensures WakeSteps(STALE, g, ScanTarget, 2) == (g.(target0 := {}), CompareStamps(t))
  {
    hide WakeSteps;
    assert {t} - {t} == {};
    OneStep(STALE, g, ScanTarget, 2);
    OneStep(STALE, g, ClaimTarget(t), 1);
  }

  /** A pass through wake_up_task that wakes nobody. */
  lemma Pass(r: Run, v: nat, fn: nat) returns (r': Run)
    requires Ok(r) && v < |r.vs| && r.vs[v] == Bare(Wake(fn, ReadKicked))
    requires r.g.kicked == r.g.rekick0 == r.g.rekick1 == {} && r.g.runnable <= r.g.numFree && r.g.wakeNum <= 0
    ensures Leads(r, v, Posted(r.g).(wakeNum := r.g.wakeNum - 1), Bare(Wake(fn, WakeDone)), r')
  {
    hide Ok, WakeSteps, Posted;
    NoRekicks(r.g);
    NoTokens(r.g);
    NoToken(r.g);
    r' := WakeRun(r, v, fn, ReadKicked, 3);
    r' := WakeRun(r', v, fn, ReadCounters, 3);
    r' := WakeRun(r', v, fn, PostTargets(r.g.inactive), 2);
    assert r'.vs == r.vs[v := r'.vs[v]];
  }

  /** A vcpu on its first entry, as far as its look at the counters. */
  lemma Looks(r: Run, v: nat) returns (r': Run)
    requires Ok(r) && v < |r.vs| && r.vs[v] == Bare(Enter)
    requires r.g.kicked == r.g.rekick0 == r.g.rekick1 == {}
    ensures Leads(r, v, r.g, Bare(Wake(NULL_FUNC, ReadCounters)), r')
  {
    hide Ok, WakeSteps;
    NoRekicks(r.g);
    r' := PassIn(r, v);
    r' := WakeRun(r', v, NULL_FUNC, ReadKicked, 3);
    assert r'.vs == r.vs[v := r'.vs[v]];
  }

  /** And from there, with one token to be had, as far as a claim. */
  lemma Claims(r: Run, v: nat, t: nat) returns (r': Run)
    requires Ok(r) && v < |r.vs| && r.vs[v] == Bare(Wake(NULL_FUNC, ReadCounters))
    requires r.g.runnable - r.g.numFree == 1 && r.g.sig == 1
    requires r.g.inactive == {t} && r.g.target0 == r.g.target1 == {}
    ensures Leads(r, v, r.g.(wakeNum := 0, target1 := {t}), Bare(Wake(NULL_FUNC, CompareStamps(t))), r')
  {
    hide Ok, WakeSteps;
    OneToken(r.g);
    r' := WakeRun(r, v, NULL_FUNC, ReadCounters, 5);
    OneTaken(r'.g);
    r' := WakeRun(r', v, NULL_FUNC, PostTargets({t}), 3);
    OneClaim(r'.g, t);
    r' := WakeRun(r', v, NULL_FUNC, ScanTarget, 2);
    assert r'.vs == r.vs[v := r'.vs[v]];
  }

  // ---------------------------------------------------------------- sleeping and looking for work

  lemma PassIn(r: Run, v: nat) returns (r': Run)
    requires Ok(r) && v < |r.vs| && r.vs[v] == Bare(Enter)
    ensures Leads(r, v, r.g, Bare(Wake(NULL_FUNC, ReadKicked)), r')
  {
    hide Ok;
    r' := Step(r, v, false);
  }

  /** A vcpu halted in main wakes up unasked. */
  lemma Rises(r: Run, v: nat) returns (r': Run)
    requires Ok(r) && v < |r.vs| && r.vs[v] == ASLEEP
    ensures Leads(r, v, r.g.(inactive := r.g.inactive - {v}), Bare(Sleep(true, ClearKicked)), r')
  {
    hide Ok;
    r' := Step(r, v, false);
    r' := Step(r', v, false);
    assert r'.vs == r.vs[v := r'.vs[v]];
  }

  /** And counts itself free. */
  lemma Counts(r: Run, v: nat) returns (r': Run)
    requires Ok(r) && v < |r.vs| && r.vs[v] == Bare(Sleep(true, ClearKicked)) && v !in r.g.kicked
    ensures Leads(r, v, r.g.(numFree := r.g.numFree + 1), Bare(Enter), r')
  {
    hide Ok;
    assert r.g.(kicked := r.g.kicked - {v}) == r.g;
    r' := Step(r, v, false);
    r' := Step(r', v, false);
    assert r'.vs == r.vs[v := r'.vs[v]];
  }

  /** A fruitless scan of the run set. */
  lemma {:induction false} ScanEmpty(r: Run, v: nat, w: nat) returns (r': Run)
    requires Ok(r) && v < |r.vs| && w < 4 && r.vs[v] == Bare(Work(Scan(w))) && r.g.run == {}
    ensures Leads(r, v, r.g, Bare(Work(NoWork)), r')
    decreases 4 - w
  {
    hide Ok;
    r' := Step(r, v, false);
    if w < 3 {
      r' := ScanEmpty(r', v, w + 1);
      assert r'.vs == r.vs[v := r'.vs[v]];
    }
  }

  /** A vcpu that finds no work ends up at the race for the round. */
  lemma GivesUp(r: Run, v: nat) returns (r': Run)
    requires Ok(r) && v < |r.vs| && r.vs[v] == Bare(Work(Scan(0))) && r.g.run == {}
    ensures Leads(r, v, r.g.(numFree := r.g.numFree - 1), Bare(Work(RoundCas)), r')
  {
    hide Ok;
    r' := ScanEmpty(r, v, 0);
    r' := Step(r', v, false);
    assert r'.vs == r.vs[v := r'.vs[v]];
  }

  /** So does one on its first entry that wakes nobody. */
  lemma FirstPass(r: Run, v: nat) returns (r': Run)
    requires Ok(r) && v < |r.vs| && r.vs[v] == Bare(Enter) && r.g.run == {}
    requires r.g.kicked == r.g.rekick0 == r.g.rekick1 == {} && r.g.runnable <= r.g.numFree && r.g.wakeNum <= 0
    ensures Leads(r, v, Posted(r.g).(wakeNum := r.g.wakeNum - 1, numFree := r.g.numFree - 1),
                  Bare(Work(RoundCas)), r')
  {
    hide Ok;
    r' := PassIn(r, v);
    r' := Pass(r', v, NULL_FUNC);
    r' := Step(r', v, false);
    r' := GivesUp(r', v);
    assert r'.vs == r.vs[v := r'.vs[v]];
  }

  // ---------------------------------------------------------------- a round

  lemma Wins(r: Run, v: nat) returns (r': Run)
    requires Ok(r) && v < |r.vs| && r.vs[v] == Bare(Work(RoundCas)) && r.g.numFin == 1
    ensures Leads(r, v, r.g.(numFin := 0, numFree := r.g.numFree + 1), Bare(Restart(Wipe(0))), r')
  {
    hide Ok;
    r' := Step(r, v, false);
    r' := Step(r', v, false);
    assert r'.vs == r.vs[v := r'.vs[v]];
  }

  lemma WipesTargets(r: Run, v: nat) returns (r': Run)
    requires Ok(r) && v < |r.vs| && r.vs[v] == Bare(Restart(Wipe(0)))
    ensures Leads(r, v, r.g.(target0 := {}, target1 := {}), Bare(Restart(Wipe(2))), r')
  {
    hide Ok;
    r' := Step(r, v, false);
    r' := Step(r', v, false);
    assert r'.vs == r.vs[v := r'.vs[v]];
  }

  lemma WipesRekicks(r: Run, v: nat) returns (r': Run)
    requires Ok(r) && v < |r.vs| && r.vs[v] == Bare(Restart(Wipe(2)))
    ensures Leads(r, v, r.g.(rekick0 := {}, rekick1 := {}), Bare(Restart(TestKicked)), r')
  {
    hide Ok;
    r' := Step(r, v, false);
    r' := Step(r', v, false);
    assert r'.vs == r.vs[v := r'.vs[v]];
  }

  lemma Tests(r: Run, v: nat) returns (r': Run)
    requires Ok(r) && v < |r.vs| && r.vs[v] == Bare(Restart(TestKicked)) && r.g.kicked == {}
    ensures Leads(r, v, r.g, Bare(Restart(if r.pool - |r.g.inactive| == 1 then ResetFree else Copy(0))), r')
  {
    hide Ok;
    r' := Step(r, v, false);
    r' := Step(r', v, false);
    assert r'.vs == r.vs[v := r'.vs[v]];
  }

  lemma Resets(r: Run, v: nat) returns (r': Run)
    requires Ok(r) && v < |r.vs| && r.vs[v] == Bare(Restart(ResetFree))
    ensures Leads(r, v, r.g.(numFree := 1, runnable := 0), Bare(Restart(Copy(0))), r')
  {
    hide Ok;
    r' := Step(r, v, false);
    r' := Step(r', v, false);
    assert r'.vs == r.vs[v := r'.vs[v]];
  }

  lemma Copies(r: Run, v: nat) returns (r': Run)
    requires Ok(r) && v < |r.vs| && r.vs[v] == Bare(Restart(Copy(0))) && r.g.inCount == IN_COUNT
    ensures Leads(r, v, r.g, Bare(Restart(StartCount)), r')
  {
    hide Ok;
    r' := Step(r, v, false);
    assert r'.g == r.g;
    r' := Step(r', v, false);
    assert r'.vs == r.vs[v := r'.vs[v]];
  }

  lemma Publishes(r: Run, v: nat) returns (r': Run)
    requires Ok(r) && v < |r.vs| && r.vs[v] == Bare(Restart(StartCount)) && r.g.run == {}
    ensures Leads(r, v, r.g.(runnable := r.g.runnable + 1, run := {0}), Bare(Work(Scan(0))), r')
  {
    hide Ok;
    r' := Step(r, v, false);
    r' := Step(r', v, false);
    assert r'.vs == r.vs[v := r'.vs[v]];
  }

  /** The function is taken, and the vcpu counted busy. */
  lemma Takes(r: Run, v: nat) returns (r': Run)
    requires Ok(r) && v < |r.vs| && r.vs[v] == Bare(Work(Scan(0))) && r.g.run == {0}
    ensures Leads(r, v, r.g.(run := {}, numFree := r.g.numFree - 1), Bare(Work(GotRunnable(0))), r')
  {
    hide Ok;
    assert WordOf(r.g.run, 0) == {0};
    assert {0} - {0} == {};
    r' := Step(r, v, false);
    r' := Step(r', v, false);
    r' := Step(r', v, false);
    assert r'.vs == r.vs[v := r'.vs[v]];
  }

  /** From the wipe to the function taken, without the recovery store. */
  lemma Restarts(r: Run, v: nat) returns (r': Run)
    requires Ok(r) && v < |r.vs| && r.vs[v] == Bare(Restart(TestKicked)) && r.g.kicked == {}
    requires r.pool - |r.g.inactive| != 1 && r.g.inCount == IN_COUNT && r.g.run == {}
    ensures Leads(r, v, r.g.(runnable := r.g.runnable + 1, numFree := r.g.numFree - 1), Bare(Work(GotRunnable(0))), r')
  {
    hide Ok;
    r' := Tests(r, v);
    r' := Copies(r', v);
    r' := Publishes(r', v);
    r' := Takes(r', v);
    assert r'.vs == r.vs[v := r'.vs[v]];
  }

  /** The function runs and ends. */
  lemma Runs(r: Run, v: nat) returns (r': Run)
    requires Ok(r) && v < |r.vs| && r.vs[v] == Bare(Work(GotRunnable(0)))
    ensures Leads(r, v, r.g.(runnable := r.g.runnable - 1), Vcpu(Enter, 0), r')
  {
    hide Ok;
    r' := Step(r, v, false);
    r' := Step(r', v, false);
    r' := Step(r', v, false);
    assert r'.vs == r.vs[v := r'.vs[v]];
  }

  /** Its edges are processed: there are none. */
  lemma Retires(r: Run, v: nat) returns (r': Run)
    requires Ok(r) && v < |r.vs| && r.vs[v] == Vcpu(Enter, 0)
    ensures Leads(r, v, r.g.(numFree := r.g.numFree + 1), Bare(Wake(0, ReadKicked)), r')
  {
    hide Ok;
    r' := Step(r, v, false);
    r' := Step(r', v, false);
    r' := Step(r', v, false);
    r' := Step(r', v, false);
    assert r'.vs == r.vs[v := r'.vs[v]];
  }

  lemma Finishes(r: Run, v: nat) returns (r': Run)
    requires Ok(r) && v < |r.vs| && r.vs[v] == Bare(Wake(0, WakeDone)) && r.g.run == {}
    ensures Leads(r, v, r.g.(numFin := r.g.numFin + 1, numFree := r.g.numFree - 1), Bare(Work(RoundCas)), r')
  {
    hide Ok;
    r' := Step(r, v, false);
    r' := Step(r', v, false);
    r' := GivesUp(r', v);
    assert r'.vs == r.vs[v := r'.vs[v]];
  }

  /** From the function taken to the race for the next round. */
  lemma Completes(r: Run, v: nat) returns (r': Run)
    requires Ok(r) && v < |r.vs| && r.vs[v] == Bare(Work(GotRunnable(0))) && r.g.run == {}
    requires r.g.kicked == r.g.rekick0 == r.g.rekick1 == {} && r.g.wakeNum <= 0
    requires r.g.runnable - 1 <= r.g.numFree + 1
    ensures Leads(r, v, Posted(r.g).(runnable := r.g.runnable - 1, numFin := r.g.numFin + 1,
                                     wakeNum := r.g.wakeNum - 1),
                  Bare(Work(RoundCas)), r')
  {
    hide Ok;
    r' := Runs(r, v);
    r' := Retires(r', v);
    r' := Pass(r', v, 0);
    r' := Finishes(r', v);
    assert r'.vs == r.vs[v := r'.vs[v]];
  }

  // ---------------------------------------------------------------- the recovery store loses a count

  /** The first round, as far as its recovery store, with every helper still asleep. */
  lemma FirstRound(pool: nat) returns (r: Run)
    requires 2 <= pool <= 63
    ensures Ok(r) && r.pool == pool && r.vs == [Bare(Restart(ResetFree))] + seq(pool - 1, _ => ASLEEP)
    ensures r.g == Shared({}, 0, IN_COUNT, 0, 1, -1, 1, {}, Others(pool), {}, {}, {}, {})
  {
    hide Ok;
    HelpersCount(pool);
    r := Begin(pool);
    var helpers := r.vs[1..];
    r := FirstPass(r, 0);
    r := Wins(r, 0);
    r := WipesTargets(r, 0);
    r := WipesRekicks(r, 0);
    r := Tests(r, 0);
    assert r.vs == [Bare(Restart(ResetFree))] + helpers;
  }

  lemma {:induction false} HelpersCount(pool: nat)
    requires pool >= 1
    ensures |Others(pool)| == pool - 1
  {
    if pool == 1 {
      assert Others(1) == {};
    } else {
      HelpersCount(pool - 1);
      assert Others(pool) == Others(pool - 1) + {pool - 1};
    }
  }

  /** With a recovery store that races, the free-vcpu counter does underflow: on this graph, from this boot state, some
      interleaving leads to it. */
  lemma RacedRecoveryUnderflows() returns (moves: Schedule)
    ensures WellFormed(Small(2)) && ValidSchedule(Small(2), moves)
    ensures After(Small(2), IN_COUNT, moves).g.numFree == -1 && !LastRecoveryExact(Small(2), IN_COUNT, moves)
  {
    OneFunction(2);
    var r := RacedRun();
    moves := r.moves;
    if LastRecoveryExact(Small(2), IN_COUNT, moves) {
      FreeNeverUnderflows(Small(2), IN_COUNT, moves, 0);
    }
  }

  lemma RacedRun() returns (r: Run)
    ensures Ok(r) && r.pool == 2 && r.g.numFree == -1
  {
    hide Ok;
    r := FirstRound(2);
    assert Others(2) - {1} == {};
    r := Rises(r, 1);
    r := Counts(r, 1);
    r := Resets(r, 0);
    r := FirstPass(r, 1);
    r := Copies(r, 0);
    r := Publishes(r, 0);
    r := Takes(r, 0);
  }

  // ---------------------------------------------------------------- the wipe breaks a claim

  /** Vcpu v posts its snapshot between the two stores with which vcpu u wipes the bitmap. */
  lemma PostsInWipe(r: Run, u: nat, v: nat, snap: Word) returns (r': Run)
    requires Ok(r) && u < |r.vs| && v < |r.vs| && u != v && r.vs[u] == Bare(Restart(Wipe(0)))
    requires r.vs[v] == Bare(Wake(NULL_FUNC, PostTargets(snap))) && r.g.target0 == r.g.target1 == {}
    ensures Ok(r') && r'.pool == r.pool && r'.g.target0 == snap && r'.g.target1 == {}
  {
    hide Ok;
    r' := Step(r, u, false);
    r' := Step(r', v, false);
    r' := Step(r', u, false);
  }

  /** A wipe that meets a vcpu on its first entry can break a claim: on this graph, from this boot state, some
      interleaving leaves a target in word 0 that is missing from word 1. */
  lemma DirtyWipeBreaksClaim() returns (moves: Schedule)
    ensures WellFormed(Small(3)) && ValidSchedule(Small(3), moves)
    ensures var s := After(Small(3), IN_COUNT, moves);
            s.g.target0 == {2} && s.g.target1 == {} && !Exact(Small(3), s, Targets)
  {
    OneFunction(3);
    var r := DirtyRun();
    moves := r.moves;
    assert Bit(2 in Word1(Targets, r.g)) < Bit(2 in Word0(Targets, r.g));
  }

  /** Vcpu 1 takes its snapshot when vcpu 2 is inactive, and posts it between the two stores of the wipe. */
  lemma DirtyRun() returns (r: Run)
    ensures Ok(r) && r.pool == 3 && r.g.target0 == {2} && r.g.target1 == {}
  {
    hide Ok, WakeSteps;
    r := Begin(3);
    assert Others(3) - {1} == {2} && {2} - {2} == {};
    r := Rises(r, 1);
    r := Counts(r, 1);
    r := Looks(r, 1);
    NoTokens(r.g);
    r := WakeRun(r, 1, NULL_FUNC, ReadCounters, 3);
    r := Rises(r, 2);
    r := FirstPass(r, 0);
    r := Wins(r, 0);
    r := PostsInWipe(r, 0, 1, {2});
  }

  // ---------------------------------------------------------------- a target with two owners

  /** Vcpus 1 and 3 wake up before the recovery store, which loses both counts; the counter then lags so far behind that
      vcpu 1 finds a token for the one runnable function, and claims vcpu 2. It stops there, and vcpu 0 completes the
      round. */
  lemma Claimed() returns (r: Run)
    ensures Ok(r) && r.pool == 4
    ensures r.g == Shared({}, 0, IN_COUNT, 1, 0, -1, 1, {}, {2}, {}, {2}, {}, {})
    ensures r.vs == [Bare(Work(RoundCas)), Bare(Wake(NULL_FUNC, CompareStamps(2))), ASLEEP, Bare(Enter)]
  {
    hide Ok, WakeSteps;
    r := FirstRound(4);
    assert Others(4) - {1} - {3} == {2};
    r := Rises(r, 1);
    r := Counts(r, 1);
    r := Rises(r, 3);
    r := Counts(r, 3);
    r := Resets(r, 0);
    r := Looks(r, 1);
    r := Copies(r, 0);
    r := Publishes(r, 0);
    r := Takes(r, 0);
    r := Claims(r, 1, 2);
    r := Completes(r, 0);
  }

  /** After a wipe that meets an owner, a target can have two owners: some interleaving lets two vcpus on their first
      entry claim the same one, each bound to kick it. */
  lemma TwoOwners() returns (moves: Schedule)
    ensures WellFormed(Small(4)) && ValidSchedule(Small(4), moves)
    ensures var s := After(Small(4), IN_COUNT, moves);
            W(Small(4), OwnsTarget(2), s.vcpus[1]) == W(Small(4), OwnsTarget(2), s.vcpus[3]) == 1
  {
    OneFunction(4);
    hide W;
    var r := TwoOwnersRun();
    moves := r.moves;
    OwnerIs(2, r.vs[1]);
    OwnerIs(2, r.vs[3]);
  }

  lemma OwnerIs(t: nat, vc: Vcpu)
    requires vc == Bare(Wake(NULL_FUNC, CompareStamps(t)))
    ensures W(Small(4), OwnsTarget(t), vc) == 1
  {
  }

  lemma TwoOwnersRun() returns (r: Run)
    ensures Ok(r) && r.pool == 4
    ensures r.vs[1] == r.vs[3] == Bare(Wake(NULL_FUNC, CompareStamps(2)))
  {
    hide Ok, WakeSteps;
    r := Claimed();
    r := Wins(r, 0);
    r := WipesTargets(r, 0);
    r := WipesRekicks(r, 0);
    r := Restarts(r, 0);
    r := Looks(r, 3);
    r := Claims(r, 3, 2);
  }

  // ---------------------------------------------------------------- the wipe breaks a claim on a re-kick

  /** A first kick, as far as the mark. */
  lemma Marks(r: Run, v: nat, t: nat) returns (r': Run)
    requires Ok(r) && v < |r.vs| && r.vs[v] == Bare(Wake(NULL_FUNC, CompareStamps(t)))
    ensures Leads(r, v, r.g.(numFree := r.g.numFree + 1, kicked := r.g.kicked + {t}),
                  Bare(Wake(NULL_FUNC, KickCall(t))), r')
  {
    hide Ok;
    r' := Step(r, v, true);
    r' := Step(r', v, false);
    r' := Step(r', v, false);
    assert r'.vs == r.vs[v := r'.vs[v]];
  }

  lemma ReadsKicked(r: Run, v: nat) returns (r': Run)
    requires Ok(r) && v < |r.vs| && r.vs[v] == Bare(Enter)
    ensures Leads(r, v, r.g, Bare(Wake(NULL_FUNC, PostRekick(r.g.kicked))), r')
  {
    hide Ok;
    r' := PassIn(r, v);
    r' := Step(r', v, false);
    assert r'.vs == r.vs[v := r'.vs[v]];
  }

  lemma PostsInRekickWipe(r: Run, u: nat, v: nat, snap: Word) returns (r': Run)
    requires Ok(r) && u < |r.vs| && v < |r.vs| && u != v && r.vs[u] == Bare(Restart(Wipe(2)))
    requires r.vs[v] == Bare(Wake(NULL_FUNC, PostRekick(snap))) && r.g.rekick0 == r.g.rekick1 == {}
    ensures Ok(r') && r'.pool == r.pool && r'.g.rekick0 == snap && r'.g.rekick1 == {}
  {
    hide Ok;
    r' := Step(r, u, false);
    r' := Step(r', v, false);
    r' := Step(r', u, false);
  }

  /** The wipe of the other bitmap can break a claim in the same way. */
  lemma DirtyWipeBreaksRekick() returns (moves: Schedule)
    ensures WellFormed(Small(4)) && ValidSchedule(Small(4), moves)
    ensures var s := After(Small(4), IN_COUNT, moves);
            s.g.rekick0 == {2} && s.g.rekick1 == {} && !Exact(Small(4), s, Rekicks)
  {
    OneFunction(4);
    var r := DirtyRekickRun();
    moves := r.moves;
    assert Bit(2 in Word1(Rekicks, r.g)) < Bit(2 in Word0(Rekicks, r.g));
  }

  /** Vcpu 1 marks its target as kicked, vcpu 3 takes its snapshot of the kicked vcpus, and posts it in the wipe. */
  lemma DirtyRekickRun() returns (r: Run)
    ensures Ok(r) && r.pool == 4 && r.g.rekick0 == {2} && r.g.rekick1 == {}
  {
    hide Ok;
    r := Claimed();
    assert {} + {2} == {2};
    r := Marks(r, 1, 2);
    assert r.g.kicked == {2};
    r := ReadsKicked(r, 3);
    r := Wins(r, 0);
    r := WipesTargets(r, 0);
    r := PostsInRekickWipe(r, 0, 3, {2});
  }
}
