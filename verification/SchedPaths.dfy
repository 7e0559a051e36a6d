/** What a vcpu does when nobody interferes: each way through `sched`, from the shared words before it to those behind
    it. */
module SchedPaths {
  import opened Bits
  import opened Dag
  import opened SchedModel
  import opened SchedQueue
  import opened SchedSolo
  import opened SchedTotals
  import opened SchedRounds
  import opened SchedLedgers
  import opened Sums

  // ---------------------------------------------------------------- back from a function

  /** Every edge in [lo, hi) finds the in-count of its target above zero. */
  ghost predicate Covers(c: Config, lo: nat, hi: nat, inCount: seq<nat>)
    requires hi <= |c.dag|
  {
    && |inCount| == c.n
    && forall f: nat :: f < c.n ==> EdgesTo(c.dag, lo, hi, f) <= inCount[f] < 256
  }

  /** The in-counts when the edges in [lo, hi) are processed. */
  ghost function Lowered(c: Config, lo: nat, hi: nat, inCount: seq<nat>): (r: seq<nat>)
    requires hi <= |c.dag| && Covers(c, lo, hi, inCount)
    ensures |r| == c.n && forall f: nat :: f < c.n ==> r[f] == inCount[f] - EdgesTo(c.dag, lo, hi, f)
  {
    seq(c.n, f requires 0 <= f < c.n => inCount[f] - EdgesTo(c.dag, lo, hi, f))
  }

  /** The shared words when a function's edges in [lo, hi) are processed: exactly the functions brought to zero are
      published and counted. */
  ghost function Processed(c: Config, lo: nat, hi: nat, g: Shared): (r: Shared)
    requires hi <= |c.dag| && Covers(c, lo, hi, g.inCount)
    ensures |r.inCount| == c.n
  {
    var zeroed := Zeroed(c, lo, hi, g.inCount);
    g.(inCount := Lowered(c, lo, hi, g.inCount), runnable := g.runnable + |zeroed|, run := g.run + zeroed)
  }

  lemma CoversLess(c: Config, lo: nat, i: nat, hi: nat, inCount: seq<nat>)
    requires i <= hi <= |c.dag| && Covers(c, lo, hi, inCount)
    ensures Covers(c, lo, i, inCount)
  {
    forall f: nat | f < c.n ensures EdgesTo(c.dag, lo, i, f) <= inCount[f] {
      EdgesToMore(c.dag, lo, i, hi, f);
    }
  }

  /** One edge more lowers the in-count of its target by one. */
  lemma LoweredNext(c: Config, lo: nat, i: nat, inCount: seq<nat>)
    requires Header(c) && Base(c) <= lo <= i < |c.dag| && Covers(c, lo, i + 1, inCount)
    ensures Covers(c, lo, i, inCount)
    ensures var (a, b, out) := (Lowered(c, lo, i, inCount), Lowered(c, lo, i + 1, inCount), c.dag[i]);
            out < c.n && 0 < a[out] < 256 && b == a[out := a[out] - 1]
  {
    CoversLess(c, lo, i, i + 1, inCount);
    var (a, b, out) := (Lowered(c, lo, i, inCount), Lowered(c, lo, i + 1, inCount), c.dag[i]);
    assert EdgesTo(c.dag, lo, i + 1, out) == EdgesTo(c.dag, lo, i, out) + 1;
    assert forall f: nat :: f < c.n && f != out ==> b[f] == a[f];
  }

  /** It publishes the target exactly when that leaves zero. */
  lemma ZeroedNext(c: Config, lo: nat, i: nat, inCount: seq<nat>)
    requires Header(c) && Base(c) <= lo <= i < |c.dag| && Covers(c, lo, i + 1, inCount) && Covers(c, lo, i, inCount)
    ensures var (a, out) := (Zeroed(c, lo, i, inCount), c.dag[i]);
            && out !in a
            && Zeroed(c, lo, i + 1, inCount) == if Lowered(c, lo, i, inCount)[out] == 1 then a + {out} else a
  {
    var out := c.dag[i];
    assert EdgesTo(c.dag, lo, i + 1, out) == EdgesTo(c.dag, lo, i, out) + 1;
    ZeroedStep(c, lo, i, inCount, out);
    assert Zeroed(c, lo, i, inCount) + {} == Zeroed(c, lo, i, inCount);
  }

  lemma ProcessedNext(c: Config, lo: nat, i: nat, g: Shared)
    requires Header(c) && Base(c) <= lo <= i < |c.dag| && Covers(c, lo, i + 1, g.inCount)
    ensures Covers(c, lo, i, g.inCount)
    ensures var (a, b, out) := (Processed(c, lo, i, g), Processed(c, lo, i + 1, g), c.dag[i]);
            && out < c.n && 0 < a.inCount[out] < 256
            && b == a.(inCount := a.inCount[out := a.inCount[out] - 1],
                       runnable := a.runnable + Bit(a.inCount[out] == 1),
                       run := if a.inCount[out] == 1 then a.run + {out} else a.run)
  {
    hide Covers, Zeroed, EdgesTo;
    LoweredNext(c, lo, i, g.inCount);
    ZeroedNext(c, lo, i, g.inCount);
    var (zeroed, out) := (Zeroed(c, lo, i, g.inCount), c.dag[i]);
    assert g.run + zeroed + {out} == g.run + (zeroed + {out});
  }

  lemma EdgeLeads(l: Lone, g: Shared, fn: nat, i: nat, cur: nat)
    requires Fits(l, Spot(g, Vcpu(Proc(fn, Edge(i)), cur))) && i < EndEdge(l.c, fn)
    requires 0 < g.inCount[l.c.dag[i]] < 256
    ensures var (out, left) := (l.c.dag[i], g.inCount[l.c.dag[i]] - 1);
            Leads(l, Spot(g, Vcpu(Proc(fn, Edge(i)), cur)),
                  Spot(g.(inCount := g.inCount[out := left], runnable := g.runnable + Bit(left == 0),
                          run := if left == 0 then g.run + {out} else g.run),
                       Vcpu(Proc(fn, Edge(i + 1)), cur)))
  {
    hide Leads;
    var a := Spot(g, Vcpu(Proc(fn, Edge(i)), cur));
    var a1 := Moved(l, a);
    if g.inCount[l.c.dag[i]] == 1 {
      var a2 := Moved(l, a1);
      Moves(l, a2);
      MovesOn(l, a1, Moved(l, a2));
      MovesOn(l, a, Moved(l, a2));
    } else {
      Moves(l, a);
    }
  }

  /** The edge loop of process_sched_dag. */
  lemma {:induction false} EdgesLead(l: Lone, g: Shared, fn: nat, i: nat, cur: nat)
    requires Header(l.c) && fn < l.c.n && Fits(l, Spot(g, Vcpu(Proc(fn, Edge(FirstEdge(l.c, fn))), cur)))
    requires FirstEdge(l.c, fn) <= i <= EndEdge(l.c, fn) && Covers(l.c, FirstEdge(l.c, fn), i, g.inCount)
    ensures Leads(l, Spot(g, Vcpu(Proc(fn, Edge(FirstEdge(l.c, fn))), cur)),
                  Spot(Processed(l.c, FirstEdge(l.c, fn), i, g), Vcpu(Proc(fn, Edge(i)), cur)))
    decreases i
  {
    hide Leads, Processed, Covers;
    var lo := FirstEdge(l.c, fn);
    var a := Spot(g, Vcpu(Proc(fn, Edge(lo)), cur));
    if i == lo {
      Stays(l, a);
      ProcessedNone(l.c, lo, g);
    } else {
      ProcessedNext(l.c, lo, i - 1, g);
      EdgesLead(l, g, fn, i - 1, cur);
      var g1 := Processed(l.c, lo, i - 1, g);
      LeadsFits(l, a, Spot(g1, Vcpu(Proc(fn, Edge(i - 1)), cur)));
      EdgeLeads(l, g1, fn, i - 1, cur);
      GoesOn(l, a, Spot(g1, Vcpu(Proc(fn, Edge(i - 1)), cur)),
             Spot(Processed(l.c, lo, i, g), Vcpu(Proc(fn, Edge(i)), cur)));
    }
  }

  lemma LeadsFits(l: Lone, a: Spot, b: Spot)
    requires Leads(l, a, b)
    ensures Fits(l, b)
  {
  }

  lemma ProcessedNone(c: Config, lo: nat, g: Shared)
    requires lo <= |c.dag| && Covers(c, lo, lo, g.inCount)
    ensures Processed(c, lo, lo, g) == g
  {
    assert Zeroed(c, lo, lo, g.inCount) == {};
    assert Lowered(c, lo, lo, g.inCount) == g.inCount;
    assert g.run + {} == g.run;
  }

  /** From the return of the user function to the end of process_sched_dag. */
  lemma ProcLeads(l: Lone, g: Shared, fn: nat)
    requires Fits(l, Spot(g, Vcpu(Enter, fn))) && fn < l.c.n
    requires Base(l.c) <= FirstEdge(l.c, fn) <= EndEdge(l.c, fn) <= |l.c.dag|
    requires Covers(l.c, FirstEdge(l.c, fn), EndEdge(l.c, fn), g.inCount)
    ensures Leads(l, Spot(g, Vcpu(Enter, fn)),
                  Spot(Processed(l.c, FirstEdge(l.c, fn), EndEdge(l.c, fn), g.(numFree := g.numFree + 1)),
                       Bare(if l.c.pool != 1 then Wake(fn, ReadKicked) else Finish(fn))))
  {
    hide Leads, Processed, Covers;
    var (lo, hi) := (FirstEdge(l.c, fn), EndEdge(l.c, fn));
    var a := Spot(g, Vcpu(Enter, fn));
    var a1 := Moved(l, a);
    var a2 := Moved(l, a1);
    assert a2 == Spot(g.(numFree := g.numFree + 1), Vcpu(Proc(fn, Edge(lo)), fn));
    EdgesLead(l, a2.g, fn, hi, fn);
    var b := Spot(Processed(l.c, lo, hi, a2.g), Vcpu(Proc(fn, Edge(hi)), fn));
    LeadsFits(l, a2, b);
    var b1 := Moved(l, b);
    Moves(l, b1);
    MovesOn(l, b, Moved(l, b1));
    GoesOn(l, a2, b, Moved(l, b1));
    MovesOn(l, a1, Moved(l, b1));
    MovesOn(l, a, Moved(l, b1));
  }

  /** From wake_up_task, however it leaves the shared words, to the next look for work: a function just run is counted
      as finished. */
  lemma FinishLeads(l: Lone, g: Shared, fn: nat)
    requires Fits(l, Spot(g, Bare(Wake(fn, WakeDone))))
    ensures Leads(l, Spot(g, Bare(Wake(fn, WakeDone))),
                  Spot(if fn == NULL_FUNC then g else g.(numFin := g.numFin + 1), Bare(Work(Scan(0)))))
  {
    hide Leads;
    var a := Spot(g, Bare(Wake(fn, WakeDone)));
    var a1 := Moved(l, a);
    if fn == NULL_FUNC {
      Moves(l, a);
    } else {
      Moves(l, a1);
      MovesOn(l, a, Moved(l, a1));
    }
  }

  // ---------------------------------------------------------------- wake_up_task

  /** wake_up_task in these shared words: of the targets that ask for a first kick the lowest are kicked, as many as
      there are tokens; a target whose stamps do not ask for one costs no token. */
  ghost predicate Wakes(p: Picks, g: Shared, woken: Word, rest: Word) {
    && LowestWoken(g.target0, p.due, woken, rest)
    && |woken| == Least(Positive(g.wakeNum), |g.target0 * p.due|)
    && (|woken| < Positive(g.wakeNum) ==> rest == {})
  }

  /** The shared words when the targets are about to be kicked. */
  function Ready(g: Shared): Shared {
    Posted(Issued(AfterRekicks(g)))
  }

  lemma WholeLeads(l: Lone, g: Shared, fn: nat) returns (woken: Word, rest: Word)
    requires Fits(l, Spot(g, Bare(Wake(fn, ReadKicked))))
    ensures Wakes(l.p, Ready(g), woken, rest)
    ensures Leads(l, Spot(g, Bare(Wake(fn, ReadKicked))),
                  Spot(Woke(Ready(g), woken, |woken| + 1, rest), Bare(Wake(fn, WakeDone))))
  {
    hide Leads, Woke, LowestWoken, Posted, Issued, AfterRekicks, WakeSteps;
    var k: nat;
    k, woken, rest := WakeWhole(l.p, g);
    WakeLeads(l, g, fn, ReadKicked, NULL_FUNC, k);
  }

  /** wake_up_task, and what follows it. */
  lemma WakeAndFinish(l: Lone, g: Shared, fn: nat) returns (woken: Word, rest: Word)
    requires Fits(l, Spot(g, Bare(Wake(fn, ReadKicked))))
    ensures Wakes(l.p, Ready(g), woken, rest)
    ensures var g' := Woke(Ready(g), woken, |woken| + 1, rest);
            Leads(l, Spot(g, Bare(Wake(fn, ReadKicked))),
                  Spot(if fn == NULL_FUNC then g' else g'.(numFin := g'.numFin + 1), Bare(Work(Scan(0)))))
  {
    hide Leads, Woke, Wakes, Ready;
    woken, rest := WholeLeads(l, g, fn);
    var g' := Woke(Ready(g), woken, |woken| + 1, rest);
    var a := Spot(g, Bare(Wake(fn, ReadKicked)));
    var b := Spot(g', Bare(Wake(fn, WakeDone)));
    LeadsFits(l, a, b);
    FinishLeads(l, g', fn);
    GoesOn(l, a, b, Spot(if fn == NULL_FUNC then g' else g'.(numFin := g'.numFin + 1), Bare(Work(Scan(0)))));
  }

  /** From the return of the user function to the next look for work. */
  lemma ReturnLeads(l: Lone, g: Shared, fn: nat) returns (g': Shared, woken: Word, rest: Word)
    requires Fits(l, Spot(g, Vcpu(Enter, fn))) && fn < l.c.n
    requires Base(l.c) <= FirstEdge(l.c, fn) <= EndEdge(l.c, fn) <= |l.c.dag|
    requires Covers(l.c, FirstEdge(l.c, fn), EndEdge(l.c, fn), g.inCount)
    ensures var g1 := Processed(l.c, FirstEdge(l.c, fn), EndEdge(l.c, fn), g.(numFree := g.numFree + 1));
            if l.c.pool == 1 then g' == g1
            else Wakes(l.p, Ready(g1), woken, rest) && g' == Woke(Ready(g1), woken, |woken| + 1, rest)
    ensures Leads(l, Spot(g, Vcpu(Enter, fn)), Spot(g'.(numFin := g'.numFin + 1), Bare(Work(Scan(0)))))
  {
    hide Leads, Covers, Processed, Woke, Ready, Wakes;
    ProcLeads(l, g, fn);
    g' := Processed(l.c, FirstEdge(l.c, fn), EndEdge(l.c, fn), g.(numFree := g.numFree + 1));
    var a := Spot(g, Vcpu(Enter, fn));
    var b := Spot(g', Bare(if l.c.pool != 1 then Wake(fn, ReadKicked) else Finish(fn)));
    LeadsFits(l, a, b);
    woken, rest := {}, {};
    if l.c.pool == 1 {
      Moves(l, b);
    } else {
      woken, rest := WakeAndFinish(l, g', fn);
      g' := Woke(Ready(g'), woken, |woken| + 1, rest);
    }
    GoesOn(l, a, b, Spot(g'.(numFin := g'.numFin + 1), Bare(Work(Scan(0)))));
  }

  // ---------------------------------------------------------------- looking for work

  /** get_work: the least function is taken out of the run set, or none is found exactly when there is none. */
  lemma {:induction false} ScanLeads(l: Lone, g: Shared, w: nat, cur: nat)
    requires Fits(l, Spot(g, Vcpu(Work(Scan(w)), cur))) && forall f :: f in g.run ==> f / 64 >= w
    ensures Leads(l, Spot(g, Vcpu(Work(Scan(w)), cur)),
                  if g.run == {} then Spot(g, Vcpu(Work(NoWork), cur))
                  else Spot(g.(run := g.run - {Lowest(g.run)}), Vcpu(Work(GotFree(Lowest(g.run))), cur)))
    decreases 4 - w
  {
    hide Leads;
    var a := Spot(g, Vcpu(Work(Scan(w)), cur));
    var a1 := Moved(l, a);
    var word := WordOf(g.run, w);
    if word != {} {
      LowestOfAll(g.run, w);
      Moves(l, a1);
      MovesOn(l, a, Moved(l, a1));
    } else {
      assert forall f :: f in g.run && f / 64 == w ==> f in word;
      if w < 3 {
        ScanLeads(l, g, w + 1, cur);
        MovesOn(l, a, if g.run == {} then Spot(g, Vcpu(Work(NoWork), cur))
                      else Spot(g.(run := g.run - {Lowest(g.run)}), Vcpu(Work(GotFree(Lowest(g.run))), cur)));
      } else {
        assert forall f :: f in g.run ==> f < 256;
        assert g.run == {};
        Moves(l, a);
      }
    }
  }

  lemma LowestOfAll(run: Word, w: nat)
    requires WordOf(run, w) != {} && forall f :: f in run ==> f / 64 >= w
    ensures run != {} && Lowest(WordOf(run, w)) == Lowest(run)
  {
    var b := Lowest(WordOf(run, w));
    assert b in run;
    forall f | f in run ensures b <= f {
      if f / 64 == w {
        assert f in WordOf(run, w);
      }
    }
  }

  /** Taking work: from the scan into the user function. */
  lemma TakeLeads(l: Lone, g: Shared, cur: nat)
    requires Fits(l, Spot(g, Vcpu(Work(Scan(0)), cur))) && g.run != {}
    ensures Leads(l, Spot(g, Vcpu(Work(Scan(0)), cur)),
                  Spot(g.(run := g.run - {Lowest(g.run)}, numFree := g.numFree - 1, runnable := g.runnable - 1),
                       Vcpu(Work(Running), Lowest(g.run))))
  {
    hide Leads;
    var a := Spot(g, Vcpu(Work(Scan(0)), cur));
    var b := Spot(g.(run := g.run - {Lowest(g.run)}), Vcpu(Work(GotFree(Lowest(g.run))), cur));
    ScanLeads(l, g, 0, cur);
    LeadsFits(l, a, b);
    var b1 := Moved(l, b);
    var b2 := Moved(l, b1);
    Moves(l, b2);
    MovesOn(l, b1, Moved(l, b2));
    MovesOn(l, b, Moved(l, b2));
    GoesOn(l, a, b, Moved(l, b2));
  }

  /** Finding none, as far as the race for the round. */
  lemma RaceLeads(l: Lone, g: Shared, cur: nat)
    requires Fits(l, Spot(g, Vcpu(Work(Scan(0)), cur))) && g.run == {}
    ensures Leads(l, Spot(g, Vcpu(Work(Scan(0)), cur)),
                  Spot(g.(numFree := g.numFree - 1), Vcpu(Work(RoundCas), cur)))
  {
    hide Leads;
    var a := Spot(g, Vcpu(Work(Scan(0)), cur));
    var b := Spot(g, Vcpu(Work(NoWork), cur));
    ScanLeads(l, g, 0, cur);
    LeadsFits(l, a, b);
    Moves(l, b);
    GoesOn(l, a, b, Moved(l, b));
  }

  /** The race lost: to sleep, marked inactive. */
  lemma SleepLeads(l: Lone, g: Shared, cur: nat)
    requires Fits(l, Spot(g, Vcpu(Work(Scan(0)), cur))) && g.run == {} && g.numFin != l.c.n
    ensures Leads(l, Spot(g, Vcpu(Work(Scan(0)), cur)),
                  Spot(g.(numFree := g.numFree - 1, inactive := g.inactive + {l.v}), Vcpu(Sleep(false, Hlt), cur)))
  {
    hide Leads;
    var a := Spot(g, Vcpu(Work(Scan(0)), cur));
    RaceLeads(l, g, cur);
    var b := Spot(g.(numFree := g.numFree - 1), Vcpu(Work(RoundCas), cur));
    LeadsFits(l, a, b);
    var b1 := Moved(l, b);
    Moves(l, b1);
    MovesOn(l, b, Moved(l, b1));
    GoesOn(l, a, b, Moved(l, b1));
  }

  /** Waking up: both bits are cleared, and the vcpu counts itself free exactly when nobody has done so with a kick. */
  lemma RiseLeads(l: Lone, g: Shared, boot: bool, cur: nat)
    requires Fits(l, Spot(g, Vcpu(Sleep(boot, Hlt), cur)))
    ensures Leads(l, Spot(g, Vcpu(Sleep(boot, Hlt), cur)),
                  Spot(g.(inactive := g.inactive - {l.v}, kicked := g.kicked - {l.v},
                          numFree := g.numFree + Bit(l.v !in g.kicked)),
                       Vcpu(if boot then Enter else Work(Scan(0)), cur)))
  {
    hide Leads;
    var a := Spot(g, Vcpu(Sleep(boot, Hlt), cur));
    var a1 := Moved(l, a);
    var a2 := Moved(l, a1);
    var a3 := Moved(l, a2);
    if l.v in g.kicked {
      Moves(l, a2);
      MovesOn(l, a1, a3);
      MovesOn(l, a, a3);
    } else {
      Moves(l, a3);
      MovesOn(l, a2, Moved(l, a3));
      MovesOn(l, a1, Moved(l, a3));
      MovesOn(l, a, Moved(l, a3));
    }
  }

  // ---------------------------------------------------------------- a new round

  /** The recovery block: both counters are reset exactly when no kick is marked and all but one vcpu are inactive. */
  function Recovered(c: Config, g: Shared): Shared {
    if g.kicked == {} && c.pool == |g.inactive| + 1 then g.(numFree := 1, runnable := 0) else g
  }

  lemma RecoveryLeads(l: Lone, g: Shared, cur: nat)
    requires Fits(l, Spot(g, Vcpu(Restart(TestKicked), cur)))
    ensures Leads(l, Spot(g, Vcpu(Restart(TestKicked), cur)), Spot(Recovered(l.c, g), Vcpu(Restart(Copy(0)), cur)))
  {
    hide Leads;
    var a := Spot(g, Vcpu(Restart(TestKicked), cur));
    var a1 := Moved(l, a);
    if g.kicked != {} {
      Moves(l, a);
    } else if l.c.pool != |g.inactive| + 1 {
      Moves(l, a1);
      MovesOn(l, a, Moved(l, a1));
    } else {
      var a2 := Moved(l, a1);
      var a3 := Moved(l, a2);
      Moves(l, a3);
      MovesOn(l, a2, Moved(l, a3));
      MovesOn(l, a1, Moved(l, a3));
      MovesOn(l, a, Moved(l, a3));
    }
  }

  lemma WipeLeads(l: Lone, g: Shared, cur: nat)
    requires Fits(l, Spot(g, Vcpu(Restart(Wipe(0)), cur)))
    ensures Leads(l, Spot(g, Vcpu(Restart(Wipe(0)), cur)),
                  Spot(g.(target0 := {}, target1 := {}, rekick0 := {}, rekick1 := {}), Vcpu(Restart(TestKicked), cur)))
  {
    hide Leads;
    var a := Spot(g, Vcpu(Restart(Wipe(0)), cur));
    var a1 := Moved(l, a);
    var a2 := Moved(l, a1);
    var a3 := Moved(l, a2);
    Moves(l, a3);
    MovesOn(l, a2, Moved(l, a3));
    MovesOn(l, a1, Moved(l, a3));
    MovesOn(l, a, Moved(l, a3));
  }

  /** The copy of the in-degrees, from node i on. */
  lemma {:induction false} CopyLeads(l: Lone, g: Shared, i: nat, cur: nat)
    requires Fits(l, Spot(g, Vcpu(Restart(Copy(i)), cur))) && g.inCount[..i] == l.c.dag[..i]
    ensures Leads(l, Spot(g, Vcpu(Restart(Copy(i)), cur)),
                  Spot(g.(inCount := l.c.dag[..l.c.n]), Vcpu(Restart(StartCount), cur)))
    decreases l.c.n - i
  {
    hide Leads;
    var a := Spot(g, Vcpu(Restart(Copy(i)), cur));
    if i == l.c.n {
      assert g.inCount == g.inCount[..i];
      Moves(l, a);
    } else {
      var g1 := g.(inCount := g.inCount[i := l.c.dag[i]]);
      assert g1.inCount[..i + 1] == l.c.dag[..i + 1];
      CopyLeads(l, g1, i + 1, cur);
      MovesOn(l, a, Spot(g.(inCount := l.c.dag[..l.c.n]), Vcpu(Restart(StartCount), cur)));
    }
  }

  lemma StartLeads(l: Lone, g: Shared, cur: nat)
    requires Fits(l, Spot(g, Vcpu(Restart(StartCount), cur)))
    ensures Leads(l, Spot(g, Vcpu(Restart(StartCount), cur)),
                  Spot(g.(runnable := g.runnable + 1, run := g.run + {l.c.start}), Vcpu(Work(Scan(0)), cur)))
  {
    hide Leads;
    var a := Spot(g, Vcpu(Restart(StartCount), cur));
    var a1 := Moved(l, a);
    Moves(l, a1);
    MovesOn(l, a, Moved(l, a1));
  }

  /** The shared words when the winner has set up the next round. */
  function Restarted(c: Config, g: Shared): Shared
    requires c.n <= |c.dag|
  {
    var g1 := Recovered(c, g);
    g1.(numFin := 0, target0 := {}, target1 := {}, rekick0 := {}, rekick1 := {},
        inCount := c.dag[..c.n], runnable := g1.runnable + 1, run := g1.run + {c.start})
  }

  /** The race won: from the scan that finds nothing through the whole set-up of the next round, back to the scan. */
  lemma RestartLeads(l: Lone, g: Shared, cur: nat)
    requires Fits(l, Spot(g, Vcpu(Work(Scan(0)), cur))) && g.run == {} && g.numFin == l.c.n
    ensures Leads(l, Spot(g, Vcpu(Work(Scan(0)), cur)), Spot(Restarted(l.c, g), Vcpu(Work(Scan(0)), cur)))
  {
    hide Leads;
    var a := Spot(g, Vcpu(Work(Scan(0)), cur));
    var b := Spot(g.(numFree := g.numFree - 1), Vcpu(Work(RoundCas), cur));
    RaceLeads(l, g, cur);
    LeadsFits(l, a, b);
    var b1 := Moved(l, b);
    var b2 := Moved(l, b1);
    WipeLeads(l, b2.g, cur);
    var g3 := g.(numFin := 0, target0 := {}, target1 := {}, rekick0 := {}, rekick1 := {});
    var d := Spot(g3, Vcpu(Restart(TestKicked), cur));
    LeadsFits(l, b2, d);
    RestartRest(l, g3, cur);
    var e := Spot(Restarted(l.c, g), Vcpu(Work(Scan(0)), cur));
    assert Restarted(l.c, g3) == Restarted(l.c, g);
    GoesOn(l, b2, d, e);
    MovesOn(l, b1, e);
    MovesOn(l, b, e);
    GoesOn(l, a, b, e);
  }

  lemma RestartRest(l: Lone, g: Shared, cur: nat)
    requires Fits(l, Spot(g, Vcpu(Restart(TestKicked), cur)))
    requires g.numFin == 0 && g.target0 == g.target1 == g.rekick0 == g.rekick1 == {}
    ensures Leads(l, Spot(g, Vcpu(Restart(TestKicked), cur)), Spot(Restarted(l.c, g), Vcpu(Work(Scan(0)), cur)))
  {
    hide Leads;
    var g1 := Recovered(l.c, g);
    var g2 := g1.(inCount := l.c.dag[..l.c.n]);
    var a := Spot(g, Vcpu(Restart(TestKicked), cur));
    var b := Spot(g1, Vcpu(Restart(Copy(0)), cur));
    var d := Spot(g2, Vcpu(Restart(StartCount), cur));
    var e := Spot(Restarted(l.c, g), Vcpu(Work(Scan(0)), cur));
    RecoveryLeads(l, g, cur);
    LeadsFits(l, a, b);
    assert g1.inCount[..0] == l.c.dag[..0];
    CopyLeads(l, g1, 0, cur);
    LeadsFits(l, b, d);
    StartLeads(l, g2, cur);
    GoesOn(l, a, b, d);
    GoesOn(l, a, d, e);
  }
}
