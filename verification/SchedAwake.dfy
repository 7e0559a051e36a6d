/** No runnable function is orphaned, and the pool never goes to sleep as a whole. */
module SchedAwake {
  import opened Dag
  import opened SchedModel
  import opened SchedTotals
  import opened SchedRounds
  import opened Sums

  /** Past the failed race for the round, or asleep: nothing but a wake-up makes this vcpu look for work again. */
  predicate Committed(vc: Vcpu) {
    vc.pc.Sleep? && (vc.pc.z.Mark? || vc.pc.z.Hlt?)
  }

  /** Bound to look into word w of the run set before it can go to sleep. */
  predicate WillScan(vc: Vcpu, w: nat) {
    match vc.pc
    case Sleep(_, z) => !z.Mark? && !z.Hlt?
    case Work(k) =>
      (match k
       case Scan(at) => at <= w
       case Take(at, _) => at <= w
       case NoWork => false
       case RoundCas => false
       case _ => true)
    case _ => true
  }

  ghost predicate NoOrphan(c: Config, s: State)
    requires |s.vcpus| == c.pool
  {
    forall f :: f in s.g.run ==> exists v :: 0 <= v < c.pool && WillScan(s.vcpus[v], f / 64)
  }

  /** While the finished counter stands at the number of functions, someone is on the way to the race for the round. */
  ghost predicate RaceAttended(c: Config, s: State)
    requires |s.vcpus| == c.pool
  {
    !s.h.round.mode.Restarting? && s.g.numFin == c.n ==> exists v :: 0 <= v < c.pool && !Committed(s.vcpus[v])
  }

  ghost predicate AwakeInv(c: Config, s: State) {
    && RoundInv(c, s)
    && NoOrphan(c, s)
    && RaceAttended(c, s)
  }

  // ---------------------------------------------------------------- one step

  /** A vcpu passes a word only when it is empty, and publishes only ahead of a scan. */
  lemma ScanStep(c: Config, v: nat, choice: bool, g: Shared, vc: Vcpu, f: nat)
    requires Header(c) && SharedOk(c.n, g) && PcOk(c, vc)
    requires var (g', _) := Exec(c, v, choice, g, vc); f in g'.run
    ensures var (_, vc') := Exec(c, v, choice, g, vc);
            WillScan(vc', f / 64) || (f in g.run && !WillScan(vc, f / 64))
  {
    assert f in g.run ==> f in WordOf(g.run, f / 64);
  }

  lemma NoOrphanStep(c: Config, s: State, v: nat, choice: bool)
    requires AwakeInv(c, s) && v < c.pool
    ensures |Next(c, s, v, choice).vcpus| == c.pool
    ensures NoOrphan(c, Next(c, s, v, choice))
  {
    var s' := Next(c, s, v, choice);
    forall f: nat | f in s'.g.run
      ensures exists u :: 0 <= u < c.pool && WillScan(s'.vcpus[u], f / 64)
    {
      ScanStep(c, v, choice, s.g, s.vcpus[v], f);
      if !WillScan(s'.vcpus[v], f / 64) {
        var u :| 0 <= u < c.pool && WillScan(s.vcpus[u], f / 64);
        assert WillScan(s'.vcpus[u], f / 64);
      }
    }
  }

  /** A vcpu commits itself to sleep only after it has seen the counter short of n; the counter moves up only in the
      hands of an awake vcpu. */
  lemma RaceStep(c: Config, s: State, v: nat, choice: bool)
    requires AwakeInv(c, s) && v < c.pool
    ensures |Next(c, s, v, choice).vcpus| == c.pool
    ensures RaceAttended(c, Next(c, s, v, choice))
  {
    var s' := Next(c, s, v, choice);
    var (g', vc') := Exec(c, v, choice, s.g, s.vcpus[v]);
    assert s'.vcpus[v] == vc';
    if !s'.h.round.mode.Restarting? && s'.g.numFin == c.n {
      if Committed(s'.vcpus[v]) {
        var u :| 0 <= u < c.pool && !Committed(s.vcpus[u]);
        assert !Committed(s'.vcpus[u]);
      }
    }
  }

  lemma AwakeStep(c: Config, s: State, v: nat, choice: bool)
    requires AwakeInv(c, s) && v < c.pool
    ensures AwakeInv(c, Next(c, s, v, choice))
  {
    RoundStep(c, s, v, choice);
    NoOrphanStep(c, s, v, choice);
    RaceStep(c, s, v, choice);
  }

  lemma {:induction false} AwakeAlways(c: Config, inCount: seq<nat>, moves: Schedule)
    requires WellFormed(c) && |inCount| == c.n && ValidSchedule(c, moves)
    ensures AwakeInv(c, After(c, inCount, moves))
  {
    if moves == [] {
      assert !Committed(Start(c, inCount).vcpus[0]);
    } else {
      var k := |moves| - 1;
      AwakeAlways(c, inCount, moves[..k]);
      AwakeStep(c, After(c, inCount, moves[..k]), moves[k].0, moves[k].1);
    }
  }

  // ---------------------------------------------------------------- why the pool cannot stall

  /** All vcpus vacant and nothing runnable: then, rank by rank, every function of the round has been finished. */
  lemma {:induction false} VacantMeansFinished(c: Config, s: State, rank: seq<nat>, k: nat)
    requires RoundInv(c, s) && s.h.round.mode.Underway? && Ranked(c, rank) && Quiet(c, s)
    ensures forall f :: 0 <= f < c.n && rank[f] < k ==> s.h.round.fin[f] == 1
  {
    if k > 0 {
      VacantMeansFinished(c, s, rank, k - 1);
      forall f: nat | f < c.n && rank[f] < k
        ensures s.h.round.fin[f] == 1
      {
        RankFinished(c, s, rank, f);
      }
    }
  }

  lemma RankFinished(c: Config, s: State, rank: seq<nat>, f: nat)
    requires RoundInv(c, s) && s.h.round.mode.Underway? && Ranked(c, rank) && Quiet(c, s) && f < c.n
    requires forall p :: 0 <= p < c.n && rank[p] < rank[f] ==> s.h.round.fin[p] == 1
    ensures s.h.round.fin[f] == 1
  {
    var r := s.h.round;
    forall i: nat | Base(c) <= i < |c.dag| && c.dag[i] == f
      ensures i in r.done
    {
      var p := EdgeSource(c, i, c.n - 1);
      assert rank[p] < rank[f];
      assert EdgesOf(c, r, p);
    }
    PendingNone(c.dag, Base(c), r.done, f);
    forall v: nat | v < c.pool
      ensures W(c, Publishing(f), s.vcpus[v]) == W(c, Holding(f), s.vcpus[v]) == W(c, Retiring(f), s.vcpus[v]) == 0
    {
      VacantMeans(c, s.vcpus[v], f);
    }
    TotalZero(c, s.vcpus, Publishing(f));
    TotalZero(c, s.vcpus, Holding(f));
    TotalZero(c, s.vcpus, Retiring(f));
    assert Books(c, s.g, r, s.vcpus, f);
  }

  lemma {:induction false} RankBound(rank: seq<nat>) returns (k: nat)
    ensures forall f :: 0 <= f < |rank| ==> rank[f] < k
  {
    if rank == [] {
      k := 0;
    } else {
      var m := RankBound(rank[1..]);
      assert forall f :: 1 <= f < |rank| ==> rank[f] == rank[1..][f - 1];
      k := if m > rank[0] then m else rank[0] + 1;
    }
  }

  /** Nothing runnable, all vcpus vacant and a round under way: the round is complete. */
  lemma QuietMeansComplete(c: Config, s: State)
    requires RoundInv(c, s) && s.h.round.mode.Underway? && Quiet(c, s)
    ensures s.g.numFin == c.n
  {
    var rank :| Ranked(c, rank);
    var k := RankBound(rank);
    VacantMeansFinished(c, s, rank, k);
    SumFull(s.h.round.fin);
  }

  lemma SomeoneAwake(c: Config, s: State) returns (v: nat)
    requires AwakeInv(c, s)
    ensures v < c.pool && !Committed(s.vcpus[v])
  {
    if s.h.round.mode.Restarting? {
      v := s.h.round.mode.winner;
    } else if s.g.numFin == c.n {
      v :| v < c.pool && !Committed(s.vcpus[v]);
    } else if f :| f in s.g.run {
      v :| v < c.pool && WillScan(s.vcpus[v], f / 64);
    } else {
      if Quiet(c, s) {
        QuietMeansComplete(c, s);
        assert false;
      }
      v :| v < c.pool && !Vacant(s.vcpus[v]);
    }
  }

  // ---------------------------------------------------------------- the results

  /** For every graph, pool size, boot state and interleaving, spurious wake-ups included: at least one vcpu is awake,
      and not even committed to going to sleep. */
  lemma PoolNeverSleeps(c: Config, inCount: seq<nat>, moves: Schedule)
    requires WellFormed(c) && |inCount| == c.n && ValidSchedule(c, moves)
    ensures exists v :: 0 <= v < c.pool && !Committed(After(c, inCount, moves).vcpus[v])
  {
    AwakeAlways(c, inCount, moves);
    var v := SomeoneAwake(c, After(c, inCount, moves));
  }

  /** For every runnable function some vcpu is awake that cannot sleep before looking into its word of the run set. */
  lemma RunnableNeverOrphaned(c: Config, inCount: seq<nat>, moves: Schedule, f: nat)
    requires WellFormed(c) && |inCount| == c.n && ValidSchedule(c, moves)
    requires f in After(c, inCount, moves).g.run
    ensures exists v :: 0 <= v < c.pool && WillScan(After(c, inCount, moves).vcpus[v], f / 64)
  {
    AwakeAlways(c, inCount, moves);
  }
}
