/** The counters of the scheduler, each against what it stands for. */
module SchedLedgers {
  import opened Bits
  import opened Dag
  import opened SchedModel
  import opened SchedTotals
  import opened SchedRounds
  import opened Sums

  // ---------------------------------------------------------------- runnable_tasks

  /** `runnable_tasks` is the run set, plus the publishers that have counted and not set their bit, plus the takers
      that have cleared a bit and not counted. */
  ghost predicate RunnableExact(c: Config, s: State) {
    s.g.runnable == |s.g.run| + Total(c, s.vcpus, MidQueue)
  }

  /** A publisher's function is not in the run set, and a recovering winner finds nothing there. */
  lemma QueueFacts(c: Config, s: State, v: nat)
    requires RoundInv(c, s) && v < c.pool
    ensures s.vcpus[v].pc.Proc? && s.vcpus[v].pc.p.PubSet? ==> c.dag[s.vcpus[v].pc.p.i] !in s.g.run
    ensures s.vcpus[v].pc.Restart? ==> s.g.run == {}
    ensures s.vcpus[v].pc == Restart(ResetRunnable) ==> Total(c, s.vcpus, MidQueue) == 0
  {
    var pc := s.vcpus[v].pc;
    if pc.Proc? && pc.p.PubSet? {
      var f := c.dag[pc.p.i];
      TotalAtLeast(c, s.vcpus, v, Publishing(f));
      assert Books(c, s.g, s.h.round, s.vcpus, f);
    }
    if pc == Restart(ResetRunnable) {
      TotalZero(c, s.vcpus, MidQueue);
    }
  }

  /** A step changes the counter by what it changes in the run set and between the two. */
  ghost predicate RunnableBalance(c: Config, g: Shared, vc: Vcpu, g': Shared, vc': Vcpu) {
    g'.runnable + |g.run| + W(c, MidQueue, vc) == g.runnable + |g'.run| + W(c, MidQueue, vc')
  }

  lemma RunnableWork(c: Config, v: nat, choice: bool, g: Shared, vc: Vcpu)
    requires Header(c) && SharedOk(c.n, g) && PcOk(c, vc)
    requires vc.pc.Work?
    ensures var (g', vc') := Exec(c, v, choice, g, vc);
            RunnableBalance(c, g, vc, g', vc')
  {
  }

  lemma RunnableProc(c: Config, v: nat, choice: bool, g: Shared, vc: Vcpu)
    requires Header(c) && SharedOk(c.n, g) && PcOk(c, vc)
    requires vc.pc.Proc? && (vc.pc.p.PubSet? ==> c.dag[vc.pc.p.i] !in g.run)
    ensures var (g', vc') := Exec(c, v, choice, g, vc);
            RunnableBalance(c, g, vc, g', vc')
  {
  }

  lemma RunnableRestart(c: Config, v: nat, choice: bool, g: Shared, vc: Vcpu)
    requires Header(c) && SharedOk(c.n, g) && PcOk(c, vc)
    requires vc.pc.Restart? && vc.pc != Restart(ResetRunnable) && g.run == {}
    ensures var (g', vc') := Exec(c, v, choice, g, vc);
            RunnableBalance(c, g, vc, g', vc')
  {
  }

  lemma RunnableRest(c: Config, v: nat, choice: bool, g: Shared, vc: Vcpu)
    requires Header(c) && SharedOk(c.n, g) && PcOk(c, vc)
    requires !vc.pc.Work? && !vc.pc.Proc? && !vc.pc.Restart?
    ensures var (g', vc') := Exec(c, v, choice, g, vc);
            RunnableBalance(c, g, vc, g', vc')
  {
  }

  lemma RunnableStep(c: Config, s: State, v: nat, choice: bool)
    requires RoundInv(c, s) && v < c.pool && RunnableExact(c, s)
    ensures RunnableExact(c, Next(c, s, v, choice))
  {
    QueueFacts(c, s, v);
    TotalStep(c, s.vcpus, v, Next(c, s, v, choice).vcpus[v], MidQueue);
    if s.vcpus[v].pc.Work? {
      RunnableWork(c, v, choice, s.g, s.vcpus[v]);
    } else if s.vcpus[v].pc.Proc? {
      RunnableProc(c, v, choice, s.g, s.vcpus[v]);
    } else if !s.vcpus[v].pc.Restart? {
      RunnableRest(c, v, choice, s.g, s.vcpus[v]);
    } else if s.vcpus[v].pc != Restart(ResetRunnable) {
      RunnableRestart(c, v, choice, s.g, s.vcpus[v]);
    }
  }

  lemma {:induction false} RunnableAlways(c: Config, inCount: seq<nat>, moves: Schedule)
    requires WellFormed(c) && |inCount| == c.n && ValidSchedule(c, moves)
    ensures RunnableExact(c, After(c, inCount, moves))
  {
    if moves == [] {
      TotalZero(c, Start(c, inCount).vcpus, MidQueue);
    } else {
      var k := |moves| - 1;
      RunnableAlways(c, inCount, moves[..k]);
      RoundAlways(c, inCount, moves[..k]);
      RunnableStep(c, After(c, inCount, moves[..k]), moves[k].0, moves[k].1);
    }
  }

  /** The counter never falls below the run set, its decrement never underflows, and the recovery store to it stores
      the value it has. */
  lemma RunnableNeverUnderflows(c: Config, inCount: seq<nat>, moves: Schedule, v: nat)
    requires WellFormed(c) && |inCount| == c.n && ValidSchedule(c, moves) && v < c.pool
    ensures var s := After(c, inCount, moves);
            && s.g.runnable >= |s.g.run|
            && (s.vcpus[v].pc.Work? && s.vcpus[v].pc.k.GotRunnable? ==> s.g.runnable >= 1)
            && (s.vcpus[v].pc == Restart(ResetRunnable) ==> s.g.runnable == 0)
            && (s.vcpus[v].pc == Work(RoundCas) && s.g.numFin == c.n ==> s.g.runnable == 0)
  {
    var s := After(c, inCount, moves);
    RunnableAlways(c, inCount, moves);
    RoundAlways(c, inCount, moves);
    QueueFacts(c, s, v);
    TotalAtLeast(c, s.vcpus, v, MidQueue);
    if s.vcpus[v].pc == Work(RoundCas) && s.g.numFin == c.n {
      if s.h.round.mode.Underway? {
        RoundComplete(c, s);
      }
      TotalZero(c, s.vcpus, MidQueue);
    }
  }

  // ---------------------------------------------------------------- wake tokens

  /** The right to issue tokens is in one place only: the signal, a pending store, the tokens that are left, or a
      pending re-arm. */
  ghost predicate TokensExact(c: Config, s: State) {
    && s.g.sig >= 0
    && s.g.sig + Total(c, s.vcpus, Storing) + Total(c, s.vcpus, Rearming) + Bit(s.g.wakeNum > 0) == 1
    && s.h.tokens.issued == s.h.tokens.passes + Positive(s.g.wakeNum)
    && s.h.tokens.stores == s.h.tokens.rearms + Total(c, s.vcpus, Rearming) + Bit(s.g.wakeNum > 0)
    && s.h.tokens.kicks + Total(c, s.vcpus, InPass) <= s.h.tokens.passes
  }

  /** A step hands the right on without doubling or losing it. */
  lemma TokenRight(c: Config, v: nat, choice: bool, g: Shared, vc: Vcpu)
    requires Header(c) && SharedOk(c.n, g) && PcOk(c, vc)
    requires 0 <= g.sig <= 1
    requires W(c, Storing, vc) == 1 ==> g.sig == 0 && g.wakeNum <= 0
    requires W(c, Rearming, vc) == 1 ==> g.sig == 0
    ensures var (g', vc') := Exec(c, v, choice, g, vc);
            && g'.sig >= 0
            && g'.sig + W(c, Storing, vc') + W(c, Rearming, vc') + Bit(g'.wakeNum > 0)
               == g.sig + W(c, Storing, vc) + W(c, Rearming, vc) + Bit(g.wakeNum > 0)
  {
  }

  lemma TokenCounts(c: Config, v: nat, choice: bool, g: Shared, t: Tokens, vc: Vcpu)
    requires Header(c) && SharedOk(c.n, g) && PcOk(c, vc)
    requires W(c, Storing, vc) == 1 ==> g.wakeNum <= 0
    ensures var (g', vc') := Exec(c, v, choice, g, vc);
            var t' := ObserveTokens(g, vc, t);
            && t'.issued + t.passes + Positive(g.wakeNum) == t.issued + t'.passes + Positive(g'.wakeNum)
            && t'.stores + t.rearms + W(c, Rearming, vc) + Bit(g.wakeNum > 0)
               == t.stores + t'.rearms + W(c, Rearming, vc') + Bit(g'.wakeNum > 0)
  {
  }

  /** A vcpu makes a first kick only in a pass that it was granted, and once in it. */
  lemma TokenPasses(c: Config, v: nat, choice: bool, g: Shared, t: Tokens, vc: Vcpu)
    requires Header(c) && SharedOk(c.n, g) && PcOk(c, vc)
    ensures var (_, vc') := Exec(c, v, choice, g, vc);
            var t' := ObserveTokens(g, vc, t);
            t'.kicks + W(c, InPass, vc') + t.passes <= t.kicks + W(c, InPass, vc) + t'.passes
  {
  }

  lemma TokensStep(c: Config, s: State, v: nat, choice: bool)
    requires Typed(c, s) && v < c.pool && TokensExact(c, s)
    ensures TokensExact(c, Next(c, s, v, choice))
  {
    var vc' := Next(c, s, v, choice).vcpus[v];
    TotalStep(c, s.vcpus, v, vc', Storing);
    TotalStep(c, s.vcpus, v, vc', Rearming);
    TotalStep(c, s.vcpus, v, vc', InPass);
    TokenRight(c, v, choice, s.g, s.vcpus[v]);
    TokenCounts(c, v, choice, s.g, s.h.tokens, s.vcpus[v]);
    TokenPasses(c, v, choice, s.g, s.h.tokens, s.vcpus[v]);
  }

  lemma {:induction false} TokensAlways(c: Config, inCount: seq<nat>, moves: Schedule)
    requires Layout(c) && |inCount| == c.n && ValidSchedule(c, moves)
    ensures TokensExact(c, After(c, inCount, moves))
  {
    if moves == [] {
      TotalZero(c, Start(c, inCount).vcpus, Storing);
      TotalZero(c, Start(c, inCount).vcpus, Rearming);
      TotalZero(c, Start(c, inCount).vcpus, InPass);
    } else {
      var k := |moves| - 1;
      TokensAlways(c, inCount, moves[..k]);
      TokensStep(c, After(c, inCount, moves[..k]), moves[k].0, moves[k].1);
    }
  }

  /** While the signal is up, no token is left and nobody is about to store or re-arm; each token stored has then
      granted one loop pass and each store one re-arm. At all times first kicks are no more than the tokens stored. */
  lemma TokensConserved(c: Config, inCount: seq<nat>, moves: Schedule)
    requires Layout(c) && |inCount| == c.n && ValidSchedule(c, moves)
    ensures var s := After(c, inCount, moves);
            && 0 <= s.g.sig <= 1
            && (s.g.sig == 1 ==>
                  && s.g.wakeNum <= 0
                  && Total(c, s.vcpus, Storing) == Total(c, s.vcpus, Rearming) == 0
                  && s.h.tokens.issued == s.h.tokens.passes && s.h.tokens.stores == s.h.tokens.rearms)
            && (s.g.sig == 0 ==>
                  Total(c, s.vcpus, Storing) + Bit(s.g.wakeNum > 0) + Total(c, s.vcpus, Rearming) == 1)
            && s.h.tokens.kicks <= s.h.tokens.passes <= s.h.tokens.issued
  {
    TokensAlways(c, inCount, moves);
  }

  // ---------------------------------------------------------------- num_free_vcpu

  predicate MarkedInactive(vc: Vcpu) {
    vc.pc.Sleep? && (vc.pc.z.Hlt? || vc.pc.z.ClearInactive?)
  }

  /** What `num_free_vcpu` stands for: vcpus counted free, kickers that have counted their target and not marked it, and
      targets marked as kicked. */
  function Standing(c: Config, s: State): nat {
    Total(c, s.vcpus, Counted) + Total(c, s.vcpus, Kicking) + |s.g.kicked|
  }

  /** The counter exceeds what it stands for by the recorded excess, and the inactive bits are exactly the vcpus between
      setting and clearing them. */
  ghost predicate FreeExact(c: Config, s: State) {
    && |s.vcpus| == c.pool
    && s.g.numFree == Standing(c, s) + s.h.excess
    && (forall v: nat :: v in s.g.inactive <==> v < c.pool && MarkedInactive(s.vcpus[v]))
  }

  lemma {:induction false} BelowCard(s: Word, n: nat)
    requires forall x :: x in s ==> x < n
    ensures |s| <= n
    ensures |s| == n ==> forall x: nat :: x < n ==> x in s
  {
    if n == 0 {
      assert s == {};
    } else {
      BelowCard(s - {n - 1}, n - 1);
      if |s| == n {
        assert n - 1 in s;
        assert |s - {n - 1}| == n - 1;
      }
    }
  }

  /** When the recovery test holds while a winner is past its first increment, exactly that winner is counted free,
      nobody is mid-kick and no target is marked: what the counter stands for is one. */
  lemma RecoveryTestMeans(c: Config, s: State, v: nat)
    requires Typed(c, s) && FreeExact(c, s) && v < c.pool
    requires s.vcpus[v].pc.Restart? && !s.vcpus[v].pc.r.WonCount? && RecoveryTest(c, s.g)
    ensures Total(c, s.vcpus, Counted) == 1 && Total(c, s.vcpus, Kicking) == 0 && Standing(c, s) == 1
  {
    assert forall u: nat :: u in s.g.inactive + {v} ==> u < c.pool;
    BelowCard(s.g.inactive + {v}, c.pool);
    assert |s.g.inactive + {v}| == c.pool;
    forall u: nat | u < c.pool
      ensures u == v || MarkedInactive(s.vcpus[u])
    {
      assert u in s.g.inactive + {v};
    }
    TotalZero(c, s.vcpus, Kicking);
    var asleep := s.vcpus[v := Vcpu(Sleep(false, Hlt), 0)];
    TotalStep(c, s.vcpus, v, asleep[v], Counted);
    TotalZero(c, asleep, Counted);
  }

  /** A step changes the counter by what it changes in the things the counter stands for, and in the excess. */
  ghost predicate FreeBalance(c: Config, g: Shared, x: int, vc: Vcpu, g': Shared, x': int, vc': Vcpu) {
    g'.numFree + W(c, Counted, vc) + W(c, Kicking, vc) + |g.kicked| + x
    == g.numFree + W(c, Counted, vc') + W(c, Kicking, vc') + |g'.kicked| + x'
  }

  lemma FreeLocalMark(c: Config, v: nat, choice: bool, g: Shared, x: int, vc: Vcpu)
    requires Header(c) && SharedOk(c.n, g) && PcOk(c, vc) && vc.pc.Wake? && vc.pc.w.KickMark?
    ensures var (g', vc') := Exec(c, v, choice, g, vc);
            FreeBalance(c, g, x, vc, g', ObserveExcess(g, vc, x), vc')
  {
    if vc.pc.w.t in g.kicked {
      assert g.kicked + {vc.pc.w.t} == g.kicked;
    }
  }

  lemma FreeLocalWake(c: Config, v: nat, choice: bool, g: Shared, x: int, vc: Vcpu)
    requires Header(c) && SharedOk(c.n, g) && PcOk(c, vc) && vc.pc.Wake? && !vc.pc.w.KickMark?
    ensures var (g', vc') := Exec(c, v, choice, g, vc);
            FreeBalance(c, g, x, vc, g', ObserveExcess(g, vc, x), vc')
  {
  }

  lemma FreeLocalWork(c: Config, v: nat, choice: bool, g: Shared, x: int, vc: Vcpu)
    requires Header(c) && SharedOk(c.n, g) && PcOk(c, vc) && (vc.pc.Work? || vc.pc.Sleep?)
    ensures var (g', vc') := Exec(c, v, choice, g, vc);
            FreeBalance(c, g, x, vc, g', ObserveExcess(g, vc, x), vc')
  {
    assert v !in g.kicked ==> g.kicked - {v} == g.kicked;
  }

  lemma FreeLocalRest(c: Config, v: nat, choice: bool, g: Shared, x: int, vc: Vcpu)
    requires Header(c) && SharedOk(c.n, g) && PcOk(c, vc) && !vc.pc.Wake? && !vc.pc.Work? && !vc.pc.Sleep?
    ensures var (g', vc') := Exec(c, v, choice, g, vc);
            FreeBalance(c, g, x, vc, g', ObserveExcess(g, vc, x), vc')
  {
  }

  lemma InactiveLocal(c: Config, v: nat, choice: bool, g: Shared, vc: Vcpu)
    requires Header(c) && SharedOk(c.n, g) && PcOk(c, vc)
    requires v in g.inactive <==> MarkedInactive(vc)
    ensures var (g', vc') := Exec(c, v, choice, g, vc);
            && (v in g'.inactive <==> MarkedInactive(vc'))
            && forall u: nat :: u != v ==> (u in g'.inactive <==> u in g.inactive)
  {
  }

  lemma FreeStep(c: Config, s: State, v: nat, choice: bool)
    requires Typed(c, s) && v < c.pool && FreeExact(c, s)
    ensures FreeExact(c, Next(c, s, v, choice))
  {
    var s' := Next(c, s, v, choice);
    TotalStep(c, s.vcpus, v, s'.vcpus[v], Counted);
    TotalStep(c, s.vcpus, v, s'.vcpus[v], Kicking);
    if s.vcpus[v].pc.Wake? && s.vcpus[v].pc.w.KickMark? {
      FreeLocalMark(c, v, choice, s.g, s.h.excess, s.vcpus[v]);
    } else if s.vcpus[v].pc.Wake? {
      FreeLocalWake(c, v, choice, s.g, s.h.excess, s.vcpus[v]);
    } else if s.vcpus[v].pc.Work? || s.vcpus[v].pc.Sleep? {
      FreeLocalWork(c, v, choice, s.g, s.h.excess, s.vcpus[v]);
    } else {
      FreeLocalRest(c, v, choice, s.g, s.h.excess, s.vcpus[v]);
    }
    InactiveLocal(c, v, choice, s.g, s.vcpus[v]);
  }

  lemma {:induction false} FreeAlways(c: Config, inCount: seq<nat>, moves: Schedule)
    requires Layout(c) && |inCount| == c.n && ValidSchedule(c, moves)
    ensures FreeExact(c, After(c, inCount, moves))
  {
    if moves == [] {
      var s := Start(c, inCount);
      var asleep := s.vcpus[0 := Vcpu(Sleep(false, Hlt), 0)];
      TotalStep(c, s.vcpus, 0, asleep[0], Counted);
      TotalZero(c, asleep, Counted);
      TotalZero(c, s.vcpus, Kicking);
    } else {
      var k := |moves| - 1;
      FreeAlways(c, inCount, moves[..k]);
      FreeStep(c, After(c, inCount, moves[..k]), moves[k].0, moves[k].1);
    }
  }

  predicate MidKick(vc: Vcpu) {
    vc.pc.Wake? && vc.pc.w.KickMark?
  }

  /** The counter stands for vcpu v alone. */
  ghost predicate OnlyOneFree(c: Config, s: State, v: nat)
    requires |s.vcpus| == c.pool
  {
    s.g.kicked == {} && forall u :: 0 <= u < c.pool && u != v ==> !StandsFree(s.vcpus[u]) && !MidKick(s.vcpus[u])
  }

  lemma StandingOne(c: Config, s: State, v: nat)
    requires |s.vcpus| == c.pool && v < c.pool && StandsFree(s.vcpus[v]) && !MidKick(s.vcpus[v])
    ensures Standing(c, s) == 1 <==> OnlyOneFree(c, s, v)
  {
    var rest := s.vcpus[v := Vcpu(Sleep(false, Hlt), 0)];
    TotalStep(c, s.vcpus, v, rest[v], Counted);
    TotalStep(c, s.vcpus, v, rest[v], Kicking);
    forall u: nat | u < c.pool && u != v
      ensures Bit(StandsFree(s.vcpus[u])) <= Total(c, rest, Counted)
      ensures Bit(MidKick(s.vcpus[u])) <= Total(c, rest, Kicking)
    {
      assert rest[u] == s.vcpus[u];
      TotalAtLeast(c, rest, u, Counted);
      TotalAtLeast(c, rest, u, Kicking);
    }
    if OnlyOneFree(c, s, v) {
      TotalZero(c, rest, Counted);
      TotalZero(c, rest, Kicking);
    }
  }

  /** The store itself changes the counter and nothing that the counter stands for. */
  lemma ResetStep(c: Config, s: State, v: nat, choice: bool)
    requires Typed(c, s) && v < c.pool && s.vcpus[v].pc == Restart(ResetFree)
    ensures var s' := Next(c, s, v, choice);
            s'.g.numFree == 1 && Standing(c, s') == Standing(c, s) >= 1
  {
    var s' := Next(c, s, v, choice);
    TotalStep(c, s.vcpus, v, s'.vcpus[v], Counted);
    TotalStep(c, s.vcpus, v, s'.vcpus[v], Kicking);
    TotalAtLeast(c, s.vcpus, v, Counted);
  }

  /** The recovery store makes the counter exact, and no less than what it stands for, if and only if no target is
      marked kicked and no other vcpu is counted free or about to mark one; the recovery test ensures that when it
      still holds at the store. */
  lemma RecoveryRestores(c: Config, inCount: seq<nat>, moves: Schedule, v: nat, choice: bool)
    requires Layout(c) && |inCount| == c.n && ValidSchedule(c, moves) && v < c.pool
    requires After(c, inCount, moves).vcpus[v].pc == Restart(ResetFree)
    ensures var s := After(c, inCount, moves);
            var s' := Next(c, s, v, choice);
            && (s'.g.numFree == Standing(c, s') <==> OnlyOneFree(c, s, v))
            && (s'.g.numFree >= Standing(c, s') <==> OnlyOneFree(c, s, v))
            && (RecoveryTest(c, s.g) ==> OnlyOneFree(c, s, v))
  {
    var s := After(c, inCount, moves);
    FreeAlways(c, inCount, moves);
    StandingOne(c, s, v);
    ResetStep(c, s, v, choice);
    if RecoveryTest(c, s.g) {
      RecoveryTestMeans(c, s, v);
    }
  }

  /** The last recovery store of the schedule, if there was one, met the condition under which it is exact. */
  ghost predicate LastRecoveryExact(c: Config, inCount: seq<nat>, moves: Schedule)
    requires Layout(c) && |inCount| == c.n && ValidSchedule(c, moves)
  {
    moves != [] ==>
      var k := |moves| - 1;
      var s := After(c, inCount, moves[..k]);
      var v := moves[k].0;
      if s.vcpus[v].pc == Restart(ResetFree) then OnlyOneFree(c, s, v)
      else LastRecoveryExact(c, inCount, moves[..k])
  }

  lemma {:induction false} ExcessAlways(c: Config, inCount: seq<nat>, moves: Schedule)
    requires Layout(c) && |inCount| == c.n && ValidSchedule(c, moves)
    requires LastRecoveryExact(c, inCount, moves)
    ensures After(c, inCount, moves).h.excess >= 0
  {
    if moves != [] {
      var k := |moves| - 1;
      var s := After(c, inCount, moves[..k]);
      var (v, choice) := moves[k];
      if s.vcpus[v].pc == Restart(ResetFree) {
        RecoveryExcess(c, inCount, moves[..k], v, choice);
      } else {
        ExcessAlways(c, inCount, moves[..k]);
      }
    }
  }

  /** After a recovery store the counter falls short of what it stands for if and only if the store did not meet its
      condition. */
  lemma RecoveryExcess(c: Config, inCount: seq<nat>, moves: Schedule, v: nat, choice: bool)
    requires Layout(c) && |inCount| == c.n && ValidSchedule(c, moves) && v < c.pool
    requires After(c, inCount, moves).vcpus[v].pc == Restart(ResetFree)
    ensures Next(c, After(c, inCount, moves), v, choice).h.excess < 0
       <==> !OnlyOneFree(c, After(c, inCount, moves), v)
  {
    hide OnlyOneFree, Standing;
    RecoveryRestores(c, inCount, moves, v, choice);
    FreeAlways(c, inCount, moves);
    FreeStep(c, After(c, inCount, moves), v, choice);
  }

  /** As long as the last recovery store was exact, the counter is at least what it stands for, so neither decrement of
      the code underflows, spurious wake-ups and repeated kicks included. */
  lemma FreeNeverUnderflows(c: Config, inCount: seq<nat>, moves: Schedule, v: nat)
    requires Layout(c) && |inCount| == c.n && ValidSchedule(c, moves) && v < c.pool
    requires LastRecoveryExact(c, inCount, moves)
    ensures var s := After(c, inCount, moves);
            && s.g.numFree >= Standing(c, s)
            && (s.vcpus[v].pc.Work? && (s.vcpus[v].pc.k.GotFree? || s.vcpus[v].pc.k.NoWork?) ==> s.g.numFree >= 1)
  {
    hide LastRecoveryExact;
    FreeAlways(c, inCount, moves);
    ExcessAlways(c, inCount, moves);
    TotalAtLeast(c, After(c, inCount, moves).vcpus, v, Counted);
  }
}
