/** One vcpu of the scheduler alone: its steps on the shared words, and what wake_up_task does in its hands. */
module SchedSolo {
  import opened Bits
  import opened Dag
  import opened SchedModel
  import opened Sums

  /** How the choices of a vcpu come out: the vcpus whose time stamps ask for a first kick, and which of the two
      counters is loaded first. */
  datatype Picks = Picks(due: Word, freeFirst: bool)

  const STALE: Picks := Picks({}, false)

  function Pick(p: Picks, w: WakePc): bool {
    if w.CompareStamps? then w.t in p.due else p.freeFirst
  }

  // ---------------------------------------------------------------- inside wake_up_task

  /** The state after k steps inside wake_up_task. */
  ghost function WakeSteps(p: Picks, g: Shared, w: WakePc, k: nat): (Shared, WakePc)
    decreases k
  {
    if k == 0 || w.WakeDone? then (g, w)
    else var (g', w') := ExecWake(Pick(p, w), g, w); WakeSteps(p, g', w', k - 1)
  }

  lemma OneStep(p: Picks, g: Shared, w: WakePc, k: nat)
    requires k > 0 && !w.WakeDone?
    ensures var (g', w') := ExecWake(Pick(p, w), g, w);
            && WakeSteps(p, g, w, k) == WakeSteps(p, g', w', k - 1)
            && (k == 1 ==> WakeSteps(p, g, w, k) == (g', w'))
  {
  }

  lemma {:induction false} WakeJoin(p: Picks, g: Shared, w: WakePc, j: nat, k: nat)
    ensures var (g', w') := WakeSteps(p, g, w, j); WakeSteps(p, g, w, j + k) == WakeSteps(p, g', w', k)
    decreases j
  {
    if j > 0 && !w.WakeDone? {
      var (g', w') := ExecWake(Pick(p, w), g, w);
      WakeJoin(p, g', w', j - 1, k);
    }
  }

  /** The loop over the kicked vcpus empties word 0, and releases in word 1 what it claimed. */
  lemma {:induction false} Rekicks(p: Picks, g: Shared) returns (k: nat)
    ensures WakeSteps(p, g, ScanRekick, k)
         == (g.(rekick0 := {}, rekick1 := g.rekick1 - g.rekick0), ReadCounters)
    decreases |g.rekick0|
  {
    hide WakeSteps;
    if g.rekick0 == {} {
      k := 1;
      OneStep(p, g, ScanRekick, 1);
      assert g.rekick1 - {} == g.rekick1;
    } else {
      var t := Lowest(g.rekick0);
      var g1 := g.(rekick0 := g.rekick0 - {t});
      var g2 := g1.(rekick1 := g.rekick1 - {t});
      k := Rekicks(p, g2);
      assert g.rekick1 - {t} - (g.rekick0 - {t}) == g.rekick1 - g.rekick0;
      OneStep(p, g, ScanRekick, k + 4);
      OneStep(p, g, ClaimRekick(t), k + 3);
      OneStep(p, g1, Rekick(t), k + 2);
      OneStep(p, g1, ReleaseRekick(t), k + 1);
      k := k + 4;
    }
  }

  /** The words of the re-kick bitmap when the first loop is over. */
  function AfterRekicks(g: Shared): Shared {
    if g.rekick0 == {} && g.rekick1 == {} then g
    else g.(rekick0 := {}, rekick1 := g.rekick1 - g.rekick0)
  }

  lemma RekicksAlone(p: Picks, g: Shared) returns (k: nat)
    ensures WakeSteps(p, g, ReadKicked, k) == (AfterRekicks(g), ReadCounters)
  {
    hide WakeSteps;
    var g1 := if g.rekick0 == {} && g.rekick1 == {} then g.(rekick0 := g.kicked, rekick1 := g.kicked) else g;
    k := Rekicks(p, g1);
    assert g.kicked - g.kicked == {};
    OneStep(p, g, ReadKicked, k + 2);
    OneStep(p, g, PostRekick(g.kicked), k + 1);
    k := k + 2;
  }

  // ---------------------------------------------------------------- tokens and first kicks

  /** The words after the vcpus in `woken` were kicked, `takes` passes asked for, and `rest` left in word 0. */
  function Woke(g: Shared, woken: Word, takes: nat, rest: Word): Shared {
    g.(wakeNum := g.wakeNum - takes,
       sig := if 1 <= g.wakeNum <= takes then 1 else g.sig,
       numFree := g.numFree + |woken|,
       kicked := g.kicked + woken,
       target0 := rest,
       target1 := g.target1 - (g.target0 - rest))
  }

  /** Of the targets that ask for a first kick the lowest are kicked; the rest stay in word 0. */
  ghost predicate LowestWoken(targets: Word, due: Word, woken: Word, rest: Word) {
    && woken <= targets * due && rest <= targets && targets * due <= woken + rest
    && forall x, y :: x in woken && y in rest ==> x < y
  }

  /** One target out of word 0, in a pass already granted. */
  lemma Claims(p: Picks, g: Shared, t: nat, k: nat)
    requires g.target0 != {} && t == Lowest(g.target0) && k >= 4
    ensures var g1 := g.(target0 := g.target0 - {t});
            && (t in p.due ==> WakeSteps(p, g, ScanTarget, k) == WakeSteps(p, g1, KickCount(t), k - 3))
            && (t !in p.due ==>
                  WakeSteps(p, g, ScanTarget, k) == WakeSteps(p, g1.(target1 := g.target1 - {t}), ScanTarget, k - 4))
  {
    hide WakeSteps;
    var g1 := g.(target0 := g.target0 - {t});
    OneStep(p, g, ScanTarget, k);
    OneStep(p, g, ClaimTarget(t), k - 1);
    OneStep(p, g1, CompareStamps(t), k - 2);
    if t !in p.due {
      OneStep(p, g1, Release(t, true), k - 3);
    }
  }

  /** A first kick, as far as the next request for a token. */
  lemma FirstKick(p: Picks, g: Shared, t: nat, k: nat)
    requires k >= 4
    ensures WakeSteps(p, g, KickCount(t), k)
         == WakeSteps(p, g.(numFree := g.numFree + 1, kicked := g.kicked + {t}, target1 := g.target1 - {t}),
                      TakeToken, k - 4)
  {
    hide WakeSteps;
    var g1 := g.(numFree := g.numFree + 1);
    var g2 := g1.(kicked := g1.kicked + {t});
    OneStep(p, g, KickCount(t), k);
    OneStep(p, g1, KickMark(t), k - 1);
    OneStep(p, g2, KickCall(t), k - 2);
    OneStep(p, g2, Release(t, false), k - 3);
  }

  /** A pass granted, seen from the request for its token. */
  lemma WokeGranted(g: Shared, g': Shared, woken: Word, rest: Word)
    requires g.wakeNum > 0
    requires g' == g.(wakeNum := g.wakeNum - 1, sig := if g.wakeNum == 1 then 1 else g.sig)
    ensures Woke(g', woken, |woken|, rest) == Woke(g, woken, |woken| + 1, rest)
  {
  }

  lemma WokeNobody(g: Shared, takes: nat)
    ensures Woke(g, {}, takes, g.target0)
         == g.(wakeNum := g.wakeNum - takes, sig := if 1 <= g.wakeNum <= takes then 1 else g.sig)
  {
    assert g.target1 - (g.target0 - g.target0) == g.target1 && g.kicked + {} == g.kicked;
  }

  /** A target kicked before the others. */
  lemma WokeMore(g: Shared, g': Shared, t: nat, others: Word, takes: nat, rest: Word)
    requires t in g.target0 && t !in others && rest <= g.target0 - {t}
    requires g' == g.(target0 := g.target0 - {t}, target1 := g.target1 - {t}, numFree := g.numFree + 1,
                      kicked := g.kicked + {t})
    ensures Woke(g', others, takes, rest) == Woke(g, others + {t}, takes, rest)
  {
    assert g.kicked + {t} + others == g.kicked + (others + {t});
    assert g.target1 - {t} - (g.target0 - {t} - rest) == g.target1 - (g.target0 - rest);
  }

  /** A target passed over. */
  lemma WokeLess(g: Shared, g': Shared, t: nat, woken: Word, takes: nat, rest: Word)
    requires t in g.target0 && rest <= g.target0 - {t}
    requires g' == g.(target0 := g.target0 - {t}, target1 := g.target1 - {t})
    ensures Woke(g', woken, takes, rest) == Woke(g, woken, takes, rest)
  {
    assert g.target1 - {t} - (g.target0 - {t} - rest) == g.target1 - (g.target0 - rest);
  }

  lemma LowestMore(targets: Word, due: Word, t: nat, woken: Word, rest: Word)
    requires t in targets && (forall x :: x in targets ==> t <= x) && LowestWoken(targets - {t}, due, woken, rest)
    ensures t !in woken && rest <= targets - {t}
    ensures t in due ==> LowestWoken(targets, due, woken + {t}, rest)
                         && |targets * due| == |(targets - {t}) * due| + 1
    ensures t !in due ==> LowestWoken(targets, due, woken, rest) && |targets * due| == |(targets - {t}) * due|
  {
    var left := targets - {t};
    if t in due {
      assert targets * due == left * due + {t};
    } else {
      assert targets * due == left * due;
    }
  }

  /** The second loop from a request for a token on. */
  lemma {:induction false} Passes(p: Picks, g: Shared) returns (k: nat, woken: Word, rest: Word)
    ensures WakeSteps(p, g, TakeToken, k) == (Woke(g, woken, |woken| + 1, rest), WakeDone)
    ensures LowestWoken(g.target0, p.due, woken, rest)
    ensures |woken| == Least(Positive(g.wakeNum), |g.target0 * p.due|)
    ensures |woken| < Positive(g.wakeNum) ==> rest == {}
    decreases |g.target0|, 1
  {
    hide WakeSteps, Woke, LowestWoken;
    var g1 := g.(wakeNum := g.wakeNum - 1);
    if g.wakeNum <= 0 {
      k, woken, rest := 1, {}, g.target0;
      OneStep(p, g, TakeToken, 1);
      WokeNobody(g, 1);
      NobodyWoken(g.target0, p.due);
    } else if g.wakeNum == 1 {
      k, woken, rest := Granted(p, g1.(sig := 1));
      OneStep(p, g, TakeToken, k + 2);
      OneStep(p, g1, Rearm, k + 1);
      WokeGranted(g, g1.(sig := 1), woken, rest);
      k := k + 2;
    } else {
      k, woken, rest := Granted(p, g1);
      OneStep(p, g, TakeToken, k + 1);
      WokeGranted(g, g1, woken, rest);
      k := k + 1;
    }
  }

  lemma NobodyWoken(targets: Word, due: Word)
    ensures LowestWoken(targets, due, {}, targets)
  {
  }

  /** The second loop in a pass already granted. */
  lemma {:induction false} Granted(p: Picks, g: Shared) returns (k: nat, woken: Word, rest: Word)
    requires g.wakeNum >= 0
    ensures WakeSteps(p, g, ScanTarget, k) == (Woke(g, woken, |woken|, rest), WakeDone)
    ensures LowestWoken(g.target0, p.due, woken, rest)
    ensures |woken| == Least(g.wakeNum + 1, |g.target0 * p.due|)
    ensures |woken| < g.wakeNum + 1 ==> rest == {}
    decreases |g.target0|, 0
  {
    hide WakeSteps, Woke, LowestWoken;
    if g.target0 == {} {
      k, woken, rest := 1, {}, {};
      OneStep(p, g, ScanTarget, 1);
      WokeNobody(g, 0);
      NobodyWoken(g.target0, p.due);
      assert {} * p.due == {};
    } else {
      k, woken, rest := NextTarget(p, g, Lowest(g.target0));
    }
  }

  lemma {:induction false} NextTarget(p: Picks, g: Shared, t: nat) returns (k: nat, woken: Word, rest: Word)
    requires g.wakeNum >= 0 && g.target0 != {} && t == Lowest(g.target0)
    ensures WakeSteps(p, g, ScanTarget, k) == (Woke(g, woken, |woken|, rest), WakeDone)
    ensures LowestWoken(g.target0, p.due, woken, rest)
    ensures |woken| == Least(g.wakeNum + 1, |g.target0 * p.due|)
    ensures |woken| < g.wakeNum + 1 ==> rest == {}
    decreases |g.target0 - {t}|, 2
  {
    hide WakeSteps, Woke, LowestWoken;
    var g1 := g.(target0 := g.target0 - {t}, target1 := g.target1 - {t});
    if t in p.due {
      var g2 := g1.(numFree := g.numFree + 1, kicked := g.kicked + {t});
      var others: Word;
      k, others, rest := Passes(p, g2);
      LowestMore(g.target0, p.due, t, others, rest);
      WokeMore(g, g2, t, others, |others| + 1, rest);
      Claims(p, g, t, k + 7);
      FirstKick(p, g.(target0 := g.target0 - {t}), t, k + 4);
      woken := others + {t};
      k := k + 7;
    } else {
      k, woken, rest := Granted(p, g1);
      LowestMore(g.target0, p.due, t, woken, rest);
      WokeLess(g, g1, t, woken, |woken|, rest);
      Claims(p, g, t, k + 4);
      k := k + 4;
    }
  }

  /** The surplus of runnable functions over free vcpus, which is stored as wake tokens when the signal is up. */
  function Surplus(g: Shared): int {
    g.runnable - g.numFree
  }

  /** The words when the tokens have been issued, or not. */
  function Issued(g: Shared): Shared {
    if Surplus(g) > 0 && g.sig == 1 then g.(sig := 0, wakeNum := Surplus(g)) else g
  }

  function Posted(g: Shared): Shared {
    if g.target0 == {} && g.target1 == {} then g.(target0 := g.inactive, target1 := g.inactive) else g
  }

  /** Comparing the counters, in either order. */
  lemma Compares(p: Picks, g: Shared, k: nat)
    requires k >= 2
    ensures WakeSteps(p, g, ReadCounters, k)
         == WakeSteps(p, g, if Surplus(g) > 0 then Arm(Surplus(g)) else ReadInactive, k - 2)
  {
    hide WakeSteps;
    OneStep(p, g, ReadCounters, k);
    OneStep(p, g, if p.freeFirst then ReadRunnable(g.numFree) else ReadFree(g.runnable), k - 1);
  }

  lemma PostsAlone(p: Picks, g: Shared)
    ensures WakeSteps(p, g, ReadInactive, 2) == (Posted(g), TakeToken)
  {
    hide WakeSteps;
    OneStep(p, g, ReadInactive, 2);
    OneStep(p, g, PostTargets(g.inactive), 1);
  }

  /** From the counters to the posted targets. */
  lemma IssuesAlone(p: Picks, g: Shared) returns (k: nat)
    ensures WakeSteps(p, g, ReadCounters, k) == (Posted(Issued(g)), TakeToken)
  {
    hide WakeSteps;
    var d := Surplus(g);
    if d <= 0 {
      k := 4;
    } else if g.sig == 1 {
      k := 6;
      OneStep(p, g, Arm(d), 4);
      OneStep(p, g.(sig := 0), StoreTokens(d), 3);
    } else {
      k := 5;
      OneStep(p, g, Arm(d), 3);
    }
    Compares(p, g, k);
    PostsAlone(p, Issued(g));
  }

  /** wake_up_task as a whole. */
  lemma WakeWhole(p: Picks, g: Shared) returns (k: nat, woken: Word, rest: Word)
    ensures var g1 := Posted(Issued(AfterRekicks(g)));
            && WakeSteps(p, g, ReadKicked, k) == (Woke(g1, woken, |woken| + 1, rest), WakeDone)
            && LowestWoken(g1.target0, p.due, woken, rest)
            && |woken| == Least(Positive(g1.wakeNum), |g1.target0 * p.due|)
            && (|woken| < Positive(g1.wakeNum) ==> rest == {})
  {
    hide WakeSteps, Woke, LowestWoken, Posted, Issued, AfterRekicks;
    var g1 := AfterRekicks(g);
    var i := RekicksAlone(p, g);
    var j := IssuesAlone(p, g1);
    k, woken, rest := Passes(p, Posted(Issued(g1)));
    WakeJoin(p, g1, ReadCounters, j, k);
    WakeJoin(p, g, ReadKicked, i, j + k);
    k := i + (j + k);
  }

  // ---------------------------------------------------------------- the steps of one vcpu

  /** A vcpu with no function of its own. */
  function Bare(pc: Pc): Vcpu {
    Vcpu(pc, NULL_FUNC)
  }

  /** A vcpu that runs alone, and the shared words with that vcpu. */
  datatype Lone = Lone(c: Config, v: nat, p: Picks)
  datatype Spot = Spot(g: Shared, vc: Vcpu)

  ghost predicate Fits(l: Lone, a: Spot) {
    Layout(l.c) && SharedOk(l.c.n, a.g) && PcOk(l.c, a.vc)
  }

  function Chosen(p: Picks, pc: Pc): bool {
    if pc.Wake? then Pick(p, pc.w) else p.freeFirst
  }

  ghost function Moved(l: Lone, a: Spot): (b: Spot)
    requires Fits(l, a)
    ensures Fits(l, b)
  {
    StepTyped(l.c, l.v, Chosen(l.p, a.vc.pc), a.g, a.vc);
    var (g', vc') := Exec(l.c, l.v, Chosen(l.p, a.vc.pc), a.g, a.vc);
    Spot(g', vc')
  }

  ghost function Steps(l: Lone, a: Spot, k: nat): (b: Spot)
    requires Fits(l, a)
    ensures Fits(l, b)
    decreases k
  {
    if k == 0 then a else Steps(l, Moved(l, a), k - 1)
  }

  /** Alone, the vcpu comes from here to there. */
  ghost predicate Leads(l: Lone, a: Spot, b: Spot) {
    Fits(l, a) && exists k: nat :: Steps(l, a, k) == b
  }

  lemma Stays(l: Lone, a: Spot)
    requires Fits(l, a)
    ensures Leads(l, a, a)
  {
    assert Steps(l, a, 0) == a;
  }

  lemma Moves(l: Lone, a: Spot)
    requires Fits(l, a)
    ensures Leads(l, a, Moved(l, a))
  {
    assert Steps(l, a, 1) == Moved(l, a);
  }

  lemma {:induction false} StepsJoin(l: Lone, a: Spot, j: nat, k: nat)
    requires Fits(l, a)
    ensures Steps(l, a, j + k) == Steps(l, Steps(l, a, j), k)
    decreases j
  {
    if j > 0 {
      StepsJoin(l, Moved(l, a), j - 1, k);
    }
  }

  lemma GoesOn(l: Lone, a: Spot, b: Spot, d: Spot)
    requires Leads(l, a, b) && Leads(l, b, d)
    ensures Leads(l, a, d)
  {
    var j: nat :| Steps(l, a, j) == b;
    var k: nat :| Steps(l, b, k) == d;
    StepsJoin(l, a, j, k);
  }

  /** One step, and then on. */
  lemma MovesOn(l: Lone, a: Spot, d: Spot)
    requires Fits(l, a) && Leads(l, Moved(l, a), d)
    ensures Leads(l, a, d)
  {
    Moves(l, a);
    GoesOn(l, a, Moved(l, a), d);
  }

  /** The same steps in the whole state. */
  ghost function Alone(c: Config, s: State, v: nat, p: Picks, k: nat): (r: State)
    requires Typed(c, s) && v < c.pool
    ensures Typed(c, r)
    decreases k
  {
    if k == 0 then s
    else
      var choice := Chosen(p, s.vcpus[v].pc);
      NextTyped(c, s, v, choice);
      Alone(c, Next(c, s, v, choice), v, p, k - 1)
  }

  lemma {:induction false} AloneIs(c: Config, s: State, v: nat, p: Picks, k: nat)
    requires Typed(c, s) && v < c.pool
    ensures var b := Steps(Lone(c, v, p), Spot(s.g, s.vcpus[v]), k);
            Alone(c, s, v, p, k).g == b.g && Alone(c, s, v, p, k).vcpus == s.vcpus[v := b.vc]
    decreases k
  {
    if k > 0 {
      var choice := Chosen(p, s.vcpus[v].pc);
      NextTyped(c, s, v, choice);
      AloneIs(c, Next(c, s, v, choice), v, p, k - 1);
    }
  }

  /** Vcpu v, alone in this state, comes to these shared words and this place; nobody else moves. */
  ghost predicate Brings(c: Config, s: State, v: nat, p: Picks, g: Shared, vc: Vcpu)
    requires Typed(c, s) && v < c.pool
  {
    exists k: nat :: var s' := Alone(c, s, v, p, k); s'.g == g && s'.vcpus == s.vcpus[v := vc]
  }

  lemma LeadsBrings(c: Config, s: State, v: nat, p: Picks, b: Spot)
    requires Typed(c, s) && v < c.pool && Leads(Lone(c, v, p), Spot(s.g, s.vcpus[v]), b)
    ensures Brings(c, s, v, p, b.g, b.vc)
  {
    var k: nat :| Steps(Lone(c, v, p), Spot(s.g, s.vcpus[v]), k) == b;
    AloneIs(c, s, v, p, k);
    var s' := Alone(c, s, v, p, k);
    assert s'.g == b.g && s'.vcpus == s.vcpus[v := b.vc];
  }

  lemma {:induction false} WakeLeads(l: Lone, g: Shared, fn: nat, w: WakePc, cur: nat, k: nat)
    requires Fits(l, Spot(g, Vcpu(Wake(fn, w), cur)))
    ensures var (g', w') := WakeSteps(l.p, g, w, k);
            Leads(l, Spot(g, Vcpu(Wake(fn, w), cur)), Spot(g', Vcpu(Wake(fn, w'), cur)))
    decreases k
  {
    hide Leads, ExecWake;
    var a := Spot(g, Vcpu(Wake(fn, w), cur));
    if k == 0 || w.WakeDone? {
      Stays(l, a);
    } else {
      var (g', w') := ExecWake(Pick(l.p, w), g, w);
      assert Moved(l, a) == Spot(g', Vcpu(Wake(fn, w'), cur));
      var (g2, w2) := WakeSteps(l.p, g, w, k);
      WakeLeads(l, g', fn, w', cur, k - 1);
      MovesOn(l, a, Spot(g2, Vcpu(Wake(fn, w2), cur)));
    }
  }
}
