/** Every reachable state in the hands of one vcpu: how it comes back from a function, wakes others, looks for work,
    restarts a round, and wakes up. */
module SchedAlone {
  import opened Bits
  import opened Dag
  import opened SchedModel
  import opened SchedQueue
  import opened SchedSolo
  import opened SchedPaths
  import opened SchedTotals
  import opened SchedRounds
  import opened SchedLedgers
  import opened Sums

  // ---------------------------------------------------------------- the slot of a vcpu

  /** A vcpu's slot of `metadata->current` names the function that it runs or has just run, and nothing at other
      times. */
  predicate SlotExact(vc: Vcpu) {
    match vc.pc
    case Enter => true
    case Proc(fn, _) => vc.cur == fn
    case Work(k) => !k.Running? ==> vc.cur == NULL_FUNC
    case _ => vc.cur == NULL_FUNC
  }

  lemma SlotStep(c: Config, v: nat, choice: bool, g: Shared, vc: Vcpu)
    requires Header(c) && SharedOk(c.n, g) && PcOk(c, vc) && SlotExact(vc)
    ensures SlotExact(Exec(c, v, choice, g, vc).1)
  {
  }

  lemma {:induction false} SlotAlways(c: Config, inCount: seq<nat>, moves: Schedule, v: nat)
    requires Layout(c) && |inCount| == c.n && ValidSchedule(c, moves) && v < c.pool
    ensures SlotExact(After(c, inCount, moves).vcpus[v])
  {
    if moves != [] {
      var k := |moves| - 1;
      SlotAlways(c, inCount, moves[..k], v);
      var s := After(c, inCount, moves[..k]);
      SlotStep(c, v, moves[k].1, s.g, s.vcpus[v]);
    }
  }

  lemma FitsHere(c: Config, s: State, v: nat, p: Picks)
    requires Typed(c, s) && v < c.pool
    ensures |s.vcpus| == c.pool && Fits(Lone(c, v, p), Spot(s.g, s.vcpus[v]))
  {
  }

  // ---------------------------------------------------------------- back from a function

  lemma {:induction false} EdgesToFirst(dag: seq<nat>, lo: nat, hi: nat, f: nat)
    requires lo < hi <= |dag|
    ensures EdgesTo(dag, lo, hi, f) == EdgesTo(dag, lo + 1, hi, f) + Bit(dag[lo] == f)
    decreases hi
  {
    if lo + 1 < hi {
      EdgesToFirst(dag, lo, hi - 1, f);
    }
  }

  /** Edges not processed are among those that their target waits for. */
  lemma {:induction false} PendingCovers(dag: seq<nat>, from: nat, done: set<nat>, lo: nat, hi: nat, f: nat)
    requires from <= lo <= hi <= |dag| && forall i :: lo <= i < hi ==> i !in done
    ensures EdgesTo(dag, lo, hi, f) <= Pending(dag, from, done, f)
    decreases |dag| - from
  {
    if from < |dag| {
      if from < lo || lo == hi {
        PendingCovers(dag, from + 1, done, if lo == hi then |dag| else lo, if lo == hi then |dag| else hi, f);
      } else {
        EdgesToFirst(dag, lo, hi, f);
        PendingCovers(dag, from + 1, done, lo + 1, hi, f);
      }
    }
  }

  /** A vcpu that comes back from a function finds the in-counts of its successors high enough. */
  lemma ReturnCovers(c: Config, s: State, v: nat)
    requires RoundInv(c, s) && v < c.pool && s.vcpus[v].pc == Enter && s.vcpus[v].cur < c.n
    ensures var fn := s.vcpus[v].cur;
            && Base(c) <= FirstEdge(c, fn) <= EndEdge(c, fn) <= |c.dag|
            && Covers(c, FirstEdge(c, fn), EndEdge(c, fn), s.g.inCount)
  {
    var (fn, r) := (s.vcpus[v].cur, s.h.round);
    EdgeBounds(c, fn);
    assert s.h.round.mode.Underway?;
    assert Progress(c, r.done, s.vcpus[v]);
    forall f: nat | f < c.n
      ensures EdgesTo(c.dag, FirstEdge(c, fn), EndEdge(c, fn), f) <= s.g.inCount[f] < 256
    {
      assert forall i :: FirstEdge(c, fn) <= i < EndEdge(c, fn) ==> HasEdge(c, fn, i);
      PendingCovers(c.dag, Base(c), r.done, FirstEdge(c, fn), EndEdge(c, fn), f);
      InCountSmall(c.dag, Base(c), r.done, f);
      assert Books(c, s.g, r, s.vcpus, f);
    }
  }

  /** A vcpu that comes back from function fn, alone: it counts itself free, lowers each in-count by the edges from fn
      to it, publishes exactly those brought to zero, clears its slot, wakes others if the pool has any, and counts fn
      as finished. */
  lemma ReturnsAlone(c: Config, inCount: seq<nat>, moves: Schedule, v: nat, p: Picks) returns (woken: Word, rest: Word)
    requires WellFormed(c) && |inCount| == c.n && ValidSchedule(c, moves) && v < c.pool
    requires var vc := After(c, inCount, moves).vcpus[v]; vc.pc == Enter && vc.cur < c.n
    ensures var s := After(c, inCount, moves);
            var (lo, hi) := (FirstEdge(c, s.vcpus[v].cur), EndEdge(c, s.vcpus[v].cur));
            && hi <= |c.dag| && Covers(c, lo, hi, s.g.inCount)
            && var g := Processed(c, lo, hi, s.g.(numFree := s.g.numFree + 1));
               var g' := if c.pool == 1 then g else Woke(Ready(g), woken, |woken| + 1, rest);
               && (c.pool > 1 ==> Wakes(p, Ready(g), woken, rest))
               && Brings(c, s, v, p, g'.(numFin := g'.numFin + 1), Bare(Work(Scan(0))))
  {
    hide Leads, Covers, Processed, Woke, Ready, Wakes, Brings, RoundInv, Typed, After, Fits;
    var s := After(c, inCount, moves);
    FitsHere(c, s, v, p);
    var (l, fn) := (Lone(c, v, p), s.vcpus[v].cur);
    RoundAlways(c, inCount, moves);
    ReturnCovers(c, s, v);
    var g' := s.g;
    g', woken, rest := ReturnLeads(l, s.g, fn);
    LeadsBrings(c, s, v, p, Spot(g'.(numFin := g'.numFin + 1), Bare(Work(Scan(0)))));
  }

  /** A vcpu on its first entry, alone: it wakes others if the pool has any, and looks for work. */
  lemma EntersAlone(c: Config, inCount: seq<nat>, moves: Schedule, v: nat, p: Picks) returns (woken: Word, rest: Word)
    requires Layout(c) && |inCount| == c.n && ValidSchedule(c, moves) && v < c.pool
    requires After(c, inCount, moves).vcpus[v] == Bare(Enter)
    ensures var s := After(c, inCount, moves);
            && (c.pool > 1 ==> Wakes(p, Ready(s.g), woken, rest))
            && Brings(c, s, v, p, if c.pool == 1 then s.g else Woke(Ready(s.g), woken, |woken| + 1, rest),
                      Bare(Work(Scan(0))))
  {
    hide Leads, Woke, Ready, Wakes, Brings;
    var s := After(c, inCount, moves);
    var l := Lone(c, v, p);
    var a := Spot(s.g, s.vcpus[v]);
    woken, rest := {}, {};
    if c.pool == 1 {
      Moves(l, a);
      LeadsBrings(c, s, v, p, Spot(s.g, Bare(Work(Scan(0)))));
    } else {
      woken, rest := WakeAndFinish(l, s.g, NULL_FUNC);
      var b := Spot(Woke(Ready(s.g), woken, |woken| + 1, rest), Bare(Work(Scan(0))));
      MovesOn(l, a, b);
      LeadsBrings(c, s, v, p, b);
    }
  }

  // ---------------------------------------------------------------- waking others

  /** A vcpu alone in wake_up_task, more functions runnable than vcpus free, with the signal up and no targets posted:
      it makes as many first kicks as the surplus, or as there are inactive vcpus that ask for one, each on a different
      vcpu, and always the lowest. Vcpus whose stamps do not ask for one cost no token. */
  lemma WakesTheSurplus(c: Config, inCount: seq<nat>, moves: Schedule, v: nat, p: Picks, fn: nat, w: WakePc)
    returns (woken: Word, k: nat)
    requires Layout(c) && |inCount| == c.n && ValidSchedule(c, moves) && v < c.pool
    requires After(c, inCount, moves).vcpus[v].pc == Wake(fn, w) && (w == ReadKicked || w == ReadCounters)
    requires var g := After(c, inCount, moves).g;
             g.runnable > g.numFree && g.sig == 1 && g.target0 == g.target1 == {}
    ensures var s := After(c, inCount, moves);
            var s' := Alone(c, s, v, p, k);
            && |woken| == Least(s.g.runnable - s.g.numFree, |s.g.inactive * p.due|)
            && woken <= s.g.inactive * p.due
            && (forall x, y :: x in woken && y in s.g.inactive * p.due - woken ==> x < y)
            && s'.g.numFree == s.g.numFree + |woken| && s'.g.kicked == s.g.kicked + woken
            && s'.g.run == s.g.run && s'.g.runnable == s.g.runnable && s'.g.inactive == s.g.inactive
            && s'.g.inCount == s.g.inCount && s'.g.numFin == s.g.numFin
            && s'.vcpus == s.vcpus[v := Vcpu(Wake(fn, WakeDone), s.vcpus[v].cur)]
  {
    hide Leads, WakeSteps, Alone, Steps;
    var s := After(c, inCount, moves);
    var j: nat, rest: Word;
    j, woken, rest := SurplusSteps(p, s.g, w);
    var (g', w') := WakeSteps(p, s.g, w, j);
    var b := Spot(g', Vcpu(Wake(fn, WakeDone), s.vcpus[v].cur));
    WakeLeads(Lone(c, v, p), s.g, fn, w, s.vcpus[v].cur, j);
    k := StepsOf(c, s, v, p, b);
  }

  lemma StepsOf(c: Config, s: State, v: nat, p: Picks, b: Spot) returns (k: nat)
    requires Typed(c, s) && v < c.pool && Leads(Lone(c, v, p), Spot(s.g, s.vcpus[v]), b)
    ensures Alone(c, s, v, p, k).g == b.g && Alone(c, s, v, p, k).vcpus == s.vcpus[v := b.vc]
  {
    LeadsBrings(c, s, v, p, b);
    k :| var s' := Alone(c, s, v, p, k); s'.g == b.g && s'.vcpus == s.vcpus[v := b.vc];
  }

  lemma SurplusSteps(p: Picks, g: Shared, w: WakePc) returns (k: nat, woken: Word, rest: Word)
    requires (w == ReadKicked || w == ReadCounters) && g.runnable > g.numFree && g.sig == 1
    requires g.target0 == g.target1 == {}
    ensures WakeSteps(p, g, w, k).1 == WakeDone && LowestWoken(g.inactive, p.due, woken, rest)
    ensures |woken| == Least(g.runnable - g.numFree, |g.inactive * p.due|)
    ensures var g' := WakeSteps(p, g, w, k).0;
            && g'.numFree == g.numFree + |woken| && g'.kicked == g.kicked + woken
            && g'.run == g.run && g'.runnable == g.runnable && g'.inactive == g.inactive
            && g'.inCount == g.inCount && g'.numFin == g.numFin
  {
    hide WakeSteps, LowestWoken;
    if w == ReadKicked {
      k, woken, rest := WakeWhole(p, g);
    } else {
      var i := IssuesAlone(p, g);
      k, woken, rest := Passes(p, Posted(Issued(g)));
      WakeJoin(p, g, ReadCounters, i, k);
      k := i + k;
    }
  }

  // ---------------------------------------------------------------- looking for work

  /** A vcpu that looks for work, alone, with some function runnable: it takes the least one and runs it. */
  lemma TakesAlone(c: Config, inCount: seq<nat>, moves: Schedule, v: nat, p: Picks)
    requires Layout(c) && |inCount| == c.n && ValidSchedule(c, moves) && v < c.pool
    requires var s := After(c, inCount, moves); s.vcpus[v].pc == Work(Scan(0)) && s.g.run != {}
    ensures var s := After(c, inCount, moves);
            Brings(c, s, v, p,
                   s.g.(run := s.g.run - {Lowest(s.g.run)}, numFree := s.g.numFree - 1, runnable := s.g.runnable - 1),
                   Vcpu(Work(Running), Lowest(s.g.run)))
  {
    hide Leads, Brings, Typed, After, Fits;
    var s := After(c, inCount, moves);
    FitsHere(c, s, v, p);
    TakeLeads(Lone(c, v, p), s.g, s.vcpus[v].cur);
    LeadsBrings(c, s, v, p,
                Spot(s.g.(run := s.g.run - {Lowest(s.g.run)}, numFree := s.g.numFree - 1, runnable := s.g.runnable - 1),
                     Vcpu(Work(Running), Lowest(s.g.run))));
  }

  /** With nothing runnable and all functions finished: it sets up the next round. */
  lemma RestartsAlone(c: Config, inCount: seq<nat>, moves: Schedule, v: nat, p: Picks)
    requires Layout(c) && |inCount| == c.n && ValidSchedule(c, moves) && v < c.pool
    requires var s := After(c, inCount, moves);
             s.vcpus[v].pc == Work(Scan(0)) && s.g.run == {} && s.g.numFin == c.n
    ensures var s := After(c, inCount, moves); Brings(c, s, v, p, Restarted(c, s.g), Bare(Work(Scan(0))))
  {
    hide Leads, Brings, Restarted, Typed, After, Fits;
    var s := After(c, inCount, moves);
    FitsHere(c, s, v, p);
    SlotAlways(c, inCount, moves, v);
    RestartLeads(Lone(c, v, p), s.g, NULL_FUNC);
    LeadsBrings(c, s, v, p, Spot(Restarted(c, s.g), Bare(Work(Scan(0)))));
  }

  /** With nothing runnable and functions still running: it goes to sleep, marked inactive and not counted free. */
  lemma SleepsAlone(c: Config, inCount: seq<nat>, moves: Schedule, v: nat, p: Picks)
    requires Layout(c) && |inCount| == c.n && ValidSchedule(c, moves) && v < c.pool
    requires var s := After(c, inCount, moves);
             s.vcpus[v].pc == Work(Scan(0)) && s.g.run == {} && s.g.numFin != c.n
    ensures var s := After(c, inCount, moves);
            Brings(c, s, v, p, s.g.(numFree := s.g.numFree - 1, inactive := s.g.inactive + {v}),
                   Bare(Sleep(false, Hlt)))
  {
    hide Leads, Brings, Typed, After, Fits;
    var s := After(c, inCount, moves);
    FitsHere(c, s, v, p);
    SlotAlways(c, inCount, moves, v);
    SleepLeads(Lone(c, v, p), s.g, NULL_FUNC);
    LeadsBrings(c, s, v, p, Spot(s.g.(numFree := s.g.numFree - 1, inactive := s.g.inactive + {v}),
                                 Bare(Sleep(false, Hlt))));
  }

  /** A halted vcpu that wakes up, alone: it is no longer inactive nor marked as kicked, and counts itself free exactly
      when no kick has. */
  lemma RisesAlone(c: Config, inCount: seq<nat>, moves: Schedule, v: nat, p: Picks)
    requires Layout(c) && |inCount| == c.n && ValidSchedule(c, moves) && v < c.pool
    requires var pc := After(c, inCount, moves).vcpus[v].pc; pc.Sleep? && pc.z.Hlt?
    ensures var s := After(c, inCount, moves);
            Brings(c, s, v, p,
                   s.g.(inactive := s.g.inactive - {v}, kicked := s.g.kicked - {v},
                        numFree := s.g.numFree + (if v in s.g.kicked then 0 else 1)),
                   Bare(if s.vcpus[v].pc.boot then Enter else Work(Scan(0))))
  {
    hide Leads, Brings, Typed, After, Fits;
    var s := After(c, inCount, moves);
    FitsHere(c, s, v, p);
    SlotAlways(c, inCount, moves, v);
    RiseLeads(Lone(c, v, p), s.g, s.vcpus[v].pc.boot, NULL_FUNC);
    LeadsBrings(c, s, v, p,
                Spot(s.g.(inactive := s.g.inactive - {v}, kicked := s.g.kicked - {v},
                          numFree := s.g.numFree + Bit(v !in s.g.kicked)),
                     Bare(if s.vcpus[v].pc.boot then Enter else Work(Scan(0)))));
  }

  // ---------------------------------------------------------------- the recovery

  lemma AllButOne(s: Word, n: nat, w: nat)
    requires w < n && forall x: nat :: x in s <==> x < n && x != w
    ensures |s| == n - 1
  {
    var full := s + {w};
    BelowCard(full, n);
    FullCard(full, n);
  }

  lemma {:induction false} FullCard(s: Word, n: nat)
    requires forall x: nat :: x in s <==> x < n
    ensures |s| == n
  {
    if n == 0 {
      assert s == {};
    } else {
      FullCard(s - {n - 1}, n - 1);
    }
  }

  /** What the counter stands for does not change between the test and the copy. */
  lemma StandingThrough(c: Config, s: State, s': State, w: nat)
    requires |s.vcpus| == c.pool && w < c.pool && s.vcpus[w].pc == Restart(TestKicked)
    requires s'.g.kicked == s.g.kicked && s'.vcpus == s.vcpus[w := Vcpu(Restart(Copy(0)), s.vcpus[w].cur)]
    ensures Standing(c, s') == Standing(c, s)
  {
    TotalStep(c, s.vcpus, w, s'.vcpus[w], Counted);
    TotalStep(c, s.vcpus, w, s'.vcpus[w], Kicking);
  }

  /** The winner of a round, alone from the recovery block to the copy of the in-degrees: the counters are reset exactly
      when no kick is marked and all other vcpus are inactive; `num_free_vcpu` still covers what it stands for if it did
      before; and if everybody else was asleep with no kick marked it is exact. */
  lemma RecoveryAlone(c: Config, inCount: seq<nat>, moves: Schedule, w: nat, p: Picks) returns (k: nat)
    requires Layout(c) && |inCount| == c.n && ValidSchedule(c, moves) && w < c.pool
    requires After(c, inCount, moves).vcpus[w].pc == Restart(TestKicked)
    ensures var s := After(c, inCount, moves);
            var s' := Alone(c, s, w, p, k);
            var asleep := s.g.kicked == {} && forall u :: 0 <= u < c.pool && u != w ==> MarkedInactive(s.vcpus[u]);
            && s'.vcpus == s.vcpus[w := Vcpu(Restart(Copy(0)), s.vcpus[w].cur)]
            && s'.g == (if asleep then s.g.(numFree := 1, runnable := 0) else s.g)
            && (s.h.excess >= 0 ==> s'.g.numFree >= Standing(c, s'))
            && (asleep ==> s'.g.numFree == Standing(c, s') == 1)
  {
    hide Leads, Alone, Standing;
    var s := After(c, inCount, moves);
    FreeAlways(c, inCount, moves);
    RecoveryLeads(Lone(c, w, p), s.g, s.vcpus[w].cur);
    k := StepsOf(c, s, w, p, Spot(Recovered(c, s.g), Vcpu(Restart(Copy(0)), s.vcpus[w].cur)));
    TestIs(c, s, w);
    if RecoveryTest(c, s.g) {
      RecoveryTestMeans(c, s, w);
    }
    StandingThrough(c, s, Alone(c, s, w, p, k), w);
  }

  /** The recovery test says that everybody else is asleep and nobody marked as kicked. */
  lemma TestIs(c: Config, s: State, w: nat)
    requires FreeExact(c, s) && w < c.pool && !MarkedInactive(s.vcpus[w])
    ensures RecoveryTest(c, s.g) <==>
              s.g.kicked == {} && forall u :: 0 <= u < c.pool && u != w ==> MarkedInactive(s.vcpus[u])
  {
    hide Standing;
    if c.pool - |s.g.inactive| == 1 {
      BelowCard(s.g.inactive + {w}, c.pool);
      forall u: nat | u < c.pool && u != w
        ensures MarkedInactive(s.vcpus[u])
      {
        assert u in s.g.inactive + {w};
      }
    }
    if forall u :: 0 <= u < c.pool && u != w ==> MarkedInactive(s.vcpus[u]) {
      AllButOne(s.g.inactive, c.pool, w);
    }
  }
}
