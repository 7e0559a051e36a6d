/** Rounds: what every interleaving keeps about the functions of the graph. */
module SchedRounds {
  import opened Dag
  import opened SchedModel
  import opened SchedTotals
  import opened Sums

  // ---------------------------------------------------------------- the invariant

  /** A vcpu that holds no function and publishes none. */
  predicate Vacant(vc: Vcpu) {
    match vc.pc
    case Sleep(_, _) => true
    case Enter => vc.cur == NULL_FUNC
    case Proc(_, _) => false
    case Wake(fn, _) => fn == NULL_FUNC
    case Finish(_) => false
    case Work(k) => !(k.GotFree? || k.GotRunnable? || k.Jump? || k.Running?)
    case Restart(_) => true
  }

  /** The books of one function in a round: its in-count is the number of in-edges not yet processed; it is published,
      or about to be, exactly when that number is zero; and each later stage is reached at most as often. */
  ghost predicate Books(c: Config, g: Shared, r: Round, vcpus: seq<Vcpu>, f: nat)
    requires f < c.n == |g.inCount| == |r.pub| == |r.took| == |r.ended| == |r.fin|
  {
    && g.inCount[f] == Unprocessed(c, r.done, f)
    && Total(c, vcpus, Publishing(f)) + r.pub[f] == Bit(g.inCount[f] == 0)
    && Bit(f in g.run) + r.took[f] == r.pub[f]
    && Total(c, vcpus, Holding(f)) + r.ended[f] == r.took[f]
    && Total(c, vcpus, Retiring(f)) + r.fin[f] == r.ended[f]
  }

  /** Of the edges of the function it retires, a vcpu has processed those it has passed. */
  ghost predicate Progress(c: Config, done: set<nat>, vc: Vcpu)
    requires Layout(c) && PcOk(c, vc)
  {
    match vc.pc
    case Enter => vc.cur < c.n ==> forall i: nat :: HasEdge(c, vc.cur, i) ==> i !in done
    case Proc(fn, p) =>
      forall i: nat :: HasEdge(c, fn, i) ==> (i in done <==>
        match p
        case CountFree => false
        case Edge(j) => i < j
        case PubCount(j) => i <= j
        case PubSet(j) => i <= j
        case ClearCurrent => true)
    case Wake(fn, _) => fn < c.n ==> forall i: nat :: HasEdge(c, fn, i) ==> i in done
    case Finish(fn) => forall i: nat :: HasEdge(c, fn, i) ==> i in done
    case _ => true
  }

  /** Only an ended function has processed edges, and a finished one has processed them all. */
  ghost predicate EdgesOf(c: Config, r: Round, f: nat)
    requires Layout(c) && f < c.n == |r.ended| == |r.fin|
  {
    && (forall i: nat :: HasEdge(c, f, i) && i in r.done ==> r.ended[f] == 1)
    && (r.fin[f] == 1 ==> forall i: nat :: HasEdge(c, f, i) ==> i in r.done)
  }

  ghost predicate RoundUnderway(c: Config, s: State)
    requires Typed(c, s)
  {
    && s.g.numFin == Sum(s.h.round.fin)
    && (forall f :: 0 <= f < c.n ==> Books(c, s.g, s.h.round, s.vcpus, f))
    && (forall f :: 0 <= f < c.n ==> EdgesOf(c, s.h.round, f))
    && (forall v :: 0 <= v < c.pool ==> Progress(c, s.h.round.done, s.vcpus[v]))
    && (forall v :: 0 <= v < c.pool ==> !s.vcpus[v].pc.Restart?)
  }

  /** How far the winner has got with the in-counts. */
  predicate Copied(c: Config, inCount: seq<nat>, cold: bool, r: RestartPc)
    requires |inCount| == c.n <= |c.dag|
  {
    match r
    case Copy(i) =>
      && (forall f :: 0 <= f < c.n && f < i ==> inCount[f] == c.dag[f])
      && (forall f :: 0 <= f < c.n && i <= f && !cold ==> inCount[f] == 0)
    case StartCount => forall f :: 0 <= f < c.n ==> inCount[f] == c.dag[f]
    case StartSet => forall f :: 0 <= f < c.n ==> inCount[f] == c.dag[f]
    case _ => forall f :: 0 <= f < c.n && !cold ==> inCount[f] == 0
  }

  /** Nothing is runnable and nobody holds a function. */
  ghost predicate Quiet(c: Config, s: State)
    requires Typed(c, s)
  {
    && s.g.run == {}
    && forall v :: 0 <= v < c.pool ==> Vacant(s.vcpus[v])
  }

  ghost predicate RoundInv(c: Config, s: State) {
    && WellFormed(c)
    && Typed(c, s)
    && match s.h.round.mode
       case Idle =>
         && Quiet(c, s)
         && s.g.numFin == c.n
         && (forall v :: 0 <= v < c.pool ==> !s.vcpus[v].pc.Restart?)
       case Restarting(w, cold) =>
         && Quiet(c, s)
         && s.g.numFin == 0
         && s.h.round == NewRound(c, s.h.round.mode)
         && w < c.pool
         && (forall v :: 0 <= v < c.pool ==> (s.vcpus[v].pc.Restart? <==> v == w))
         && Copied(c, s.g.inCount, cold, s.vcpus[w].pc.r)
       case Underway => RoundUnderway(c, s)
  }

  // ---------------------------------------------------------------- one step

  lemma VacantMeans(c: Config, vc: Vcpu, f: nat)
    requires Layout(c) && PcOk(c, vc) && f < c.n
    ensures Vacant(vc) ==> W(c, Publishing(f), vc) == W(c, Holding(f), vc) == W(c, Retiring(f), vc) == 0
  {
  }

  /** A vcpu that is not vacant holds or retires a function. */
  lemma NotVacant(c: Config, vc: Vcpu) returns (f: nat)
    requires Layout(c) && PcOk(c, vc) && !Vacant(vc)
    ensures f < c.n && W(c, Holding(f), vc) + W(c, Retiring(f), vc) == 1
  {
    match vc.pc
    case Enter => f := vc.cur;
    case Proc(fn, _) => f := fn;
    case Wake(fn, _) => f := fn;
    case Finish(fn) => f := fn;
    case Work(k) => f := if k.Running? then vc.cur else k.got;
  }

  /** A vacant vcpu stays so while nothing is runnable. */
  lemma VacantStep(c: Config, v: nat, choice: bool, g: Shared, vc: Vcpu)
    requires Layout(c) && SharedOk(c.n, g) && PcOk(c, vc)
    requires Vacant(vc) && g.run == {} && !vc.pc.Restart?
    ensures var (g', vc') := Exec(c, v, choice, g, vc);
            && Vacant(vc') && g'.run == {} && g'.inCount == g.inCount
            && (g'.numFin == g.numFin || (vc.pc == Work(RoundCas) && g.numFin == c.n))
            && (vc'.pc.Restart? <==> vc.pc == Work(RoundCas) && g.numFin == c.n)
  {
  }

  lemma IdleStep(c: Config, s: State, v: nat, choice: bool)
    requires RoundInv(c, s) && v < c.pool && s.h.round.mode.Idle?
    ensures RoundInv(c, Next(c, s, v, choice))
  {
    NextTyped(c, s, v, choice);
    VacantStep(c, v, choice, s.g, s.vcpus[v]);
  }

  lemma BystanderStep(c: Config, s: State, v: nat, choice: bool)
    requires RoundInv(c, s) && v < c.pool && s.h.round.mode.Restarting? && v != s.h.round.mode.winner
    ensures RoundInv(c, Next(c, s, v, choice))
  {
    NextTyped(c, s, v, choice);
    VacantStep(c, v, choice, s.g, s.vcpus[v]);
  }

  lemma WinnerStep(c: Config, s: State, choice: bool)
    requires RoundInv(c, s) && s.h.round.mode.Restarting?
    requires s.vcpus[s.h.round.mode.winner].pc != Restart(StartSet)
    ensures RoundInv(c, Next(c, s, s.h.round.mode.winner, choice))
  {
    NextTyped(c, s, s.h.round.mode.winner, choice);
  }

  lemma StartStep(c: Config, s: State, choice: bool)
    requires RoundInv(c, s) && s.h.round.mode.Restarting?
    requires s.vcpus[s.h.round.mode.winner].pc == Restart(StartSet)
    ensures RoundInv(c, Next(c, s, s.h.round.mode.winner, choice))
  {
    var w := s.h.round.mode.winner;
    NextTyped(c, s, w, choice);
    var s' := Next(c, s, w, choice);
    SumZero(s.h.round.fin);
    forall f: nat | f < c.n
      ensures Books(c, s'.g, s'.h.round, s'.vcpus, f)
    {
      forall v | 0 <= v < c.pool
        ensures W(c, Publishing(f), s'.vcpus[v]) == 0
        ensures W(c, Holding(f), s'.vcpus[v]) == 0
        ensures W(c, Retiring(f), s'.vcpus[v]) == 0
      {
        VacantMeans(c, s'.vcpus[v], f);
      }
      TotalZero(c, s'.vcpus, Publishing(f));
      TotalZero(c, s'.vcpus, Holding(f));
      TotalZero(c, s'.vcpus, Retiring(f));
    }
  }

  predicate Wins(c: Config, s: State, v: nat)
    requires v < |s.vcpus|
  {
    s.vcpus[v].pc == Work(RoundCas) && s.g.numFin == c.n
  }

  /** The edge that a vcpu is about to process leads to a function that still waits for it. */
  lemma EdgeWaits(c: Config, s: State, v: nat)
    requires RoundInv(c, s) && v < c.pool && s.h.round.mode.Underway?
    requires s.vcpus[v].pc.Proc? && s.vcpus[v].pc.p.Edge? && s.vcpus[v].pc.p.i < EndEdge(c, s.vcpus[v].pc.fn)
    ensures var (fn, i) := (s.vcpus[v].pc.fn, s.vcpus[v].pc.p.i);
            && Base(c) <= i < |c.dag| && c.dag[i] < c.n && i !in s.h.round.done
            && s.g.inCount[c.dag[i]] > 0
            && forall f: nat :: f < c.n ==>
              Unprocessed(c, s.h.round.done + {i}, f) + Bit(c.dag[i] == f) == Unprocessed(c, s.h.round.done, f)
  {
    var (fn, i) := (s.vcpus[v].pc.fn, s.vcpus[v].pc.p.i);
    EdgeBounds(c, fn);
    assert HasEdge(c, fn, i);
    assert Progress(c, s.h.round.done, s.vcpus[v]);
    forall f: nat | f < c.n
      ensures Unprocessed(c, s.h.round.done + {i}, f) + Bit(c.dag[i] == f) == Unprocessed(c, s.h.round.done, f)
    {
      PendingAdd(c.dag, Base(c), s.h.round.done, i, f);
    }
    assert Books(c, s.g, s.h.round, s.vcpus, c.dag[i]);
  }

  lemma InCountSmall(dag: seq<nat>, from: nat, done: set<nat>, f: nat)
    ensures Pending(dag, from, done, f) <= if from <= |dag| then |dag| - from else 0
    decreases |dag| - from
  {
  }

  /** What the books say a step may rely on. */
  ghost predicate MayStep(c: Config, f: nat, g: Shared, r: Round, vc: Vcpu)
    requires Header(c) && SharedOk(c.n, g) && PcOk(c, vc)
  {
    && f < c.n == |r.pub| == |r.took| == |r.ended| == |r.fin|
    && !vc.pc.Restart?
    && !(vc.pc == Work(RoundCas) && g.numFin == c.n)
  }

  /** A step keeps the balance of processing an edge into f and lowering its in-count. */
  lemma BalanceWait(c: Config, v: nat, choice: bool, g: Shared, r: Round, vc: Vcpu, f: nat)
    requires Header(c) && SharedOk(c.n, g) && PcOk(c, vc) && MayStep(c, f, g, r, vc)
    requires g.inCount[f] < 256
    requires vc.pc.Proc? && vc.pc.p.Edge? && vc.pc.p.i < EndEdge(c, vc.pc.fn) ==>
               Unprocessed(c, r.done + {vc.pc.p.i}, f) + Bit(c.dag[vc.pc.p.i] == f) == Unprocessed(c, r.done, f) &&
               (c.dag[vc.pc.p.i] == f ==> g.inCount[f] > 0)
    ensures var (g', vc') := Exec(c, v, choice, g, vc);
            var r' := ObserveRound(c, v, g, vc, r);
            g'.inCount[f] + Unprocessed(c, r.done, f) == g.inCount[f] + Unprocessed(c, r'.done, f)
  {
  }

  /** A step keeps the balance of publishing f, or owing its publication. */
  lemma BalancePub(c: Config, v: nat, choice: bool, g: Shared, r: Round, vc: Vcpu, f: nat)
    requires Header(c) && SharedOk(c.n, g) && PcOk(c, vc) && MayStep(c, f, g, r, vc)
    requires g.inCount[f] < 256
    requires vc.pc.Proc? && vc.pc.p.Edge? && vc.pc.p.i < EndEdge(c, vc.pc.fn) && c.dag[vc.pc.p.i] == f ==>
               g.inCount[f] > 0
    ensures var (g', vc') := Exec(c, v, choice, g, vc);
            var r' := ObserveRound(c, v, g, vc, r);
            W(c, Publishing(f), vc') + r'.pub[f] + Bit(g.inCount[f] == 0)
               == W(c, Publishing(f), vc) + r.pub[f] + Bit(g'.inCount[f] == 0)
  {
  }

  /** A step keeps the balance of the bit of f in the run set. */
  lemma BalanceTook(c: Config, v: nat, choice: bool, g: Shared, r: Round, vc: Vcpu, f: nat)
    requires Header(c) && SharedOk(c.n, g) && PcOk(c, vc) && MayStep(c, f, g, r, vc)
    requires Publishes(c, vc, f) ==> f !in g.run
    ensures var (g', vc') := Exec(c, v, choice, g, vc);
            var r' := ObserveRound(c, v, g, vc, r);
            Bit(f in g'.run) + r'.took[f] + r.pub[f] == Bit(f in g.run) + r.took[f] + r'.pub[f]
  {
  }

  /** A step keeps the balance of running f. */
  lemma BalanceHold(c: Config, v: nat, choice: bool, g: Shared, r: Round, vc: Vcpu, f: nat)
    requires Header(c) && SharedOk(c.n, g) && PcOk(c, vc) && MayStep(c, f, g, r, vc)
    ensures var (g', vc') := Exec(c, v, choice, g, vc);
            var r' := ObserveRound(c, v, g, vc, r);
            W(c, Holding(f), vc') + r'.ended[f] + r.took[f] == W(c, Holding(f), vc) + r.ended[f] + r'.took[f]
  {
  }

  /** A step keeps the balance of retiring f. */
  lemma BalanceRet(c: Config, v: nat, choice: bool, g: Shared, r: Round, vc: Vcpu, f: nat)
    requires Header(c) && SharedOk(c.n, g) && PcOk(c, vc) && MayStep(c, f, g, r, vc)
    ensures var (g', vc') := Exec(c, v, choice, g, vc);
            var r' := ObserveRound(c, v, g, vc, r);
            W(c, Retiring(f), vc') + r'.fin[f] + r.ended[f] == W(c, Retiring(f), vc) + r.fin[f] + r'.ended[f]
  {
  }

  /** A step keeps the books of f, provided that an edge into f finds its in-count above zero. */
  lemma BooksLocal(c: Config, v: nat, choice: bool, g: Shared, r: Round, vcpus: seq<Vcpu>, f: nat)
    requires Header(c) && SharedOk(c.n, g) && v < |vcpus| && PcOk(c, vcpus[v]) && MayStep(c, f, g, r, vcpus[v])
    requires g.inCount[f] < 256 && Books(c, g, r, vcpus, f)
    requires var pc := vcpus[v].pc;
             pc.Proc? && pc.p.Edge? && pc.p.i < EndEdge(c, pc.fn) ==>
               Unprocessed(c, r.done + {pc.p.i}, f) + Bit(c.dag[pc.p.i] == f) == Unprocessed(c, r.done, f) &&
               (c.dag[pc.p.i] == f ==> g.inCount[f] > 0)
    ensures var (g', vc') := Exec(c, v, choice, g, vcpus[v]);
            var r' := ObserveRound(c, v, g, vcpus[v], r);
            && |g'.inCount| == |r'.pub| == |r'.took| == |r'.ended| == |r'.fin| == c.n
            && Books(c, g', r', vcpus[v := vc'], f)
  {
    var vc := vcpus[v];
    var (_, vc') := Exec(c, v, choice, g, vc);
    TotalStep(c, vcpus, v, vc', Publishing(f));
    TotalStep(c, vcpus, v, vc', Holding(f));
    TotalStep(c, vcpus, v, vc', Retiring(f));
    BalanceWait(c, v, choice, g, r, vc, f);
    BalancePub(c, v, choice, g, r, vc, f);
    BalanceTook(c, v, choice, g, r, vc, f);
    BalanceHold(c, v, choice, g, r, vc, f);
    BalanceRet(c, v, choice, g, r, vc, f);
  }

  lemma BooksStep(c: Config, s: State, v: nat, choice: bool, f: nat)
    requires RoundInv(c, s) && v < c.pool && s.h.round.mode.Underway? && !Wins(c, s, v) && f < c.n
    ensures var s' := Next(c, s, v, choice);
            && |s'.g.inCount| == |s'.h.round.pub| == |s'.h.round.took| == |s'.h.round.ended| == |s'.h.round.fin| == c.n
            && Books(c, s'.g, s'.h.round, s'.vcpus, f)
  {
    var pc := s.vcpus[v].pc;
    assert Books(c, s.g, s.h.round, s.vcpus, f);
    InCountSmall(c.dag, Base(c), s.h.round.done, f);
    if pc.Proc? && pc.p.Edge? && pc.p.i < EndEdge(c, pc.fn) {
      EdgeWaits(c, s, v);
    }
    BooksLocal(c, v, choice, s.g, s.h.round, s.vcpus, f);
  }

  /** The stages of a function come in order, each at most once, and at most one vcpu retires it. */
  lemma StagesOrdered(c: Config, s: State, f: nat)
    requires RoundInv(c, s) && s.h.round.mode.Underway? && f < c.n
    ensures var r := s.h.round;
            && r.fin[f] <= r.ended[f] <= r.took[f] <= r.pub[f] <= 1
            && Total(c, s.vcpus, Publishing(f)) <= 1
            && Total(c, s.vcpus, Holding(f)) + Total(c, s.vcpus, Retiring(f)) <= 1
  {
    assert Books(c, s.g, s.h.round, s.vcpus, f);
  }

  /** Two vcpus never retire the same function. */
  lemma RetiresAlone(c: Config, s: State, u: nat, v: nat, f: nat)
    requires RoundInv(c, s) && s.h.round.mode.Underway? && f < c.n && u < c.pool && v < c.pool
    requires Retires(s.vcpus[u], f) && Retires(s.vcpus[v], f)
    ensures u == v && s.h.round.ended[f] == 1
  {
    StagesOrdered(c, s, f);
    TotalUnique(c, s.vcpus, u, v, Retiring(f));
    TotalAtLeast(c, s.vcpus, u, Retiring(f));
    assert Books(c, s.g, s.h.round, s.vcpus, f);
  }

  lemma ProgressSelf(c: Config, v: nat, choice: bool, g: Shared, r: Round, vc: Vcpu)
    requires Layout(c) && SharedOk(c.n, g) && PcOk(c, vc) && !vc.pc.Restart?
    requires !(vc.pc == Work(RoundCas) && g.numFin == c.n)
    requires Progress(c, r.done, vc)
    requires vc.pc == Work(Running) ==> forall i: nat :: HasEdge(c, vc.cur, i) ==> i !in r.done
    ensures var (_, vc') := Exec(c, v, choice, g, vc);
            PcOk(c, vc') && Progress(c, ObserveRound(c, v, g, vc, r).done, vc')
  {
    StepTyped(c, v, choice, g, vc);
    if vc.pc.Proc? {
      ProgressProc(c, v, choice, g, r, vc);
    } else {
      ProgressRest(c, v, choice, g, r, vc);
    }
  }

  lemma ProgressProc(c: Config, v: nat, choice: bool, g: Shared, r: Round, vc: Vcpu)
    requires Layout(c) && SharedOk(c.n, g) && PcOk(c, vc) && vc.pc.Proc? && Progress(c, r.done, vc)
    requires var (_, vc') := Exec(c, v, choice, g, vc); PcOk(c, vc')
    ensures var (_, vc') := Exec(c, v, choice, g, vc);
            Progress(c, ObserveRound(c, v, g, vc, r).done, vc')
  {
  }

  lemma ProgressRest(c: Config, v: nat, choice: bool, g: Shared, r: Round, vc: Vcpu)
    requires Layout(c) && SharedOk(c.n, g) && PcOk(c, vc) && !vc.pc.Restart? && !vc.pc.Proc?
    requires !(vc.pc == Work(RoundCas) && g.numFin == c.n)
    requires Progress(c, r.done, vc)
    requires vc.pc == Work(Running) ==> forall i: nat :: HasEdge(c, vc.cur, i) ==> i !in r.done
    requires var (_, vc') := Exec(c, v, choice, g, vc); PcOk(c, vc')
    ensures var (_, vc') := Exec(c, v, choice, g, vc);
            Progress(c, ObserveRound(c, v, g, vc, r).done, vc')
  {
  }

  /** Progress looks only at the edges of the function that the vcpu retires. */
  lemma ProgressFrame(c: Config, done: set<nat>, done': set<nat>, vc: Vcpu)
    requires Layout(c) && PcOk(c, vc) && Progress(c, done, vc)
    requires forall f: nat, i: nat :: f < c.n && Retires(vc, f) && HasEdge(c, f, i) ==> (i in done <==> i in done')
    ensures Progress(c, done', vc)
  {
  }

  /** An edge processed by one vcpu belongs to no function that another one retires. */
  lemma EdgeApart(c: Config, s: State, v: nat, u: nat, f: nat, i: nat)
    requires RoundInv(c, s) && s.h.round.mode.Underway? && v < c.pool && u < c.pool && u != v
    requires s.vcpus[v].pc.Proc? && HasEdge(c, s.vcpus[v].pc.fn, i)
    requires f < c.n && Retires(s.vcpus[u], f)
    ensures !HasEdge(c, f, i)
  {
    if HasEdge(c, f, i) {
      EdgeOwner(c, f, s.vcpus[v].pc.fn, i);
      RetiresAlone(c, s, u, v, f);
    }
  }

  lemma ProgressOther(c: Config, s: State, v: nat, choice: bool, u: nat)
    requires RoundInv(c, s) && v < c.pool && s.h.round.mode.Underway? && !Wins(c, s, v)
    requires u < c.pool && u != v
    ensures Progress(c, ObserveRound(c, v, s.g, s.vcpus[v], s.h.round).done, s.vcpus[u])
  {
    var done' := ObserveRound(c, v, s.g, s.vcpus[v], s.h.round).done;
    forall f: nat, i: nat | f < c.n && Retires(s.vcpus[u], f) && HasEdge(c, f, i)
      ensures i in s.h.round.done <==> i in done'
    {
      if s.vcpus[v].pc.Proc? && HasEdge(c, s.vcpus[v].pc.fn, i) {
        EdgeApart(c, s, v, u, f, i);
      }
    }
    ProgressFrame(c, s.h.round.done, done', s.vcpus[u]);
  }

  lemma ProgressStep(c: Config, s: State, v: nat, choice: bool, u: nat)
    requires RoundInv(c, s) && v < c.pool && s.h.round.mode.Underway? && !Wins(c, s, v) && u < c.pool
    ensures var s' := Next(c, s, v, choice);
            PcOk(c, s'.vcpus[u]) && Progress(c, s'.h.round.done, s'.vcpus[u])
  {
    if u != v {
      ProgressOther(c, s, v, choice, u);
    } else {
      var vc := s.vcpus[v];
      assert Progress(c, s.h.round.done, vc);
      if vc.pc == Work(Running) {
        StagesOrdered(c, s, vc.cur);
        TotalAtLeast(c, s.vcpus, v, Holding(vc.cur));
        assert Books(c, s.g, s.h.round, s.vcpus, vc.cur);
        assert EdgesOf(c, s.h.round, vc.cur);
      }
      ProgressSelf(c, v, choice, s.g, s.h.round, vc);
    }
  }

  lemma EdgesStep(c: Config, s: State, v: nat, choice: bool, f: nat)
    requires RoundInv(c, s) && v < c.pool && s.h.round.mode.Underway? && !Wins(c, s, v) && f < c.n
    ensures var r' := ObserveRound(c, v, s.g, s.vcpus[v], s.h.round);
            |r'.ended| == |r'.fin| == c.n && EdgesOf(c, r', f)
  {
    var vc := s.vcpus[v];
    assert EdgesOf(c, s.h.round, f);
    assert Progress(c, s.h.round.done, vc);
    StagesOrdered(c, s, f);
    if vc.pc.Proc? && vc.pc.p.Edge? && HasEdge(c, f, vc.pc.p.i) && vc.pc.p.i < EndEdge(c, vc.pc.fn) {
      EdgeOwner(c, f, vc.pc.fn, vc.pc.p.i);
    }
    if Holds(vc, f) || Retires(vc, f) {
      HolderStage(c, s, v, f);
    }
    EdgesLocal(c, v, s.g, s.h.round, vc, f);
  }

  /** A function that a vcpu holds has not ended; one that a vcpu retires has ended once and not been counted. */
  lemma HolderStage(c: Config, s: State, v: nat, f: nat)
    requires RoundInv(c, s) && s.h.round.mode.Underway? && f < c.n && v < c.pool
    ensures Holds(s.vcpus[v], f) ==> s.h.round.ended[f] == 0
    ensures Retires(s.vcpus[v], f) ==> s.h.round.ended[f] == 1 && s.h.round.fin[f] == 0
  {
    StagesOrdered(c, s, f);
    assert Books(c, s.g, s.h.round, s.vcpus, f);
    TotalAtLeast(c, s.vcpus, v, Holding(f));
    TotalAtLeast(c, s.vcpus, v, Retiring(f));
  }

  lemma EdgesLocal(c: Config, v: nat, g: Shared, r: Round, vc: Vcpu, f: nat)
    requires Layout(c) && SharedOk(c.n, g) && PcOk(c, vc) && MayStep(c, f, g, r, vc)
    requires EdgesOf(c, r, f) && Progress(c, r.done, vc)
    requires Holds(vc, f) ==> r.ended[f] == 0
    requires Retires(vc, f) ==> r.ended[f] == 1 && r.fin[f] == 0
    requires vc.pc.Proc? && vc.pc.p.Edge? && HasEdge(c, f, vc.pc.p.i) && vc.pc.p.i < EndEdge(c, vc.pc.fn)
             ==> Retires(vc, f)
    ensures var r' := ObserveRound(c, v, g, vc, r);
            |r'.ended| == |r'.fin| == c.n && EdgesOf(c, r', f)
  {
  }

  lemma CountLocal(c: Config, v: nat, choice: bool, g: Shared, r: Round, vc: Vcpu)
    requires Header(c) && SharedOk(c.n, g) && PcOk(c, vc) && !vc.pc.Restart?
    requires !(vc.pc == Work(RoundCas) && g.numFin == c.n)
    ensures var (g', vc') := Exec(c, v, choice, g, vc);
            var r' := ObserveRound(c, v, g, vc, r);
            && !vc'.pc.Restart? && r'.mode == r.mode
            && (if vc.pc.Finish? then g'.numFin == g.numFin + 1 && r'.fin == Bump(r.fin, vc.pc.fn)
                else g'.numFin == g.numFin && r'.fin == r.fin)
  {
  }

  lemma CountStep(c: Config, s: State, v: nat, choice: bool)
    requires RoundInv(c, s) && v < c.pool && s.h.round.mode.Underway? && !Wins(c, s, v)
    ensures var s' := Next(c, s, v, choice);
            && s'.g.numFin == Sum(s'.h.round.fin)
            && !s'.vcpus[v].pc.Restart?
            && s'.h.round.mode == Underway
  {
    CountLocal(c, v, choice, s.g, s.h.round, s.vcpus[v]);
    if s.vcpus[v].pc.Finish? {
      var fn := s.vcpus[v].pc.fn;
      SumUpdate(s.h.round.fin, fn, s.h.round.fin[fn] + 1);
    }
  }

  lemma UnderwayStep(c: Config, s: State, v: nat, choice: bool)
    requires RoundInv(c, s) && v < c.pool && s.h.round.mode.Underway? && !Wins(c, s, v)
    ensures RoundInv(c, Next(c, s, v, choice))
  {
    var s' := Next(c, s, v, choice);
    NextTyped(c, s, v, choice);
    CountStep(c, s, v, choice);
    forall f: nat | f < c.n
      ensures Books(c, s'.g, s'.h.round, s'.vcpus, f)
      ensures EdgesOf(c, s'.h.round, f)
    {
      BooksStep(c, s, v, choice, f);
      EdgesStep(c, s, v, choice, f);
    }
    forall u: nat | u < c.pool
      ensures Progress(c, s'.h.round.done, s'.vcpus[u])
    {
      ProgressStep(c, s, v, choice, u);
    }
  }

  /** When the finished counter has reached the number of functions, everything in the round has happened exactly once
      and nobody is left in it. */
  lemma RoundComplete(c: Config, s: State)
    requires RoundInv(c, s) && s.h.round.mode.Underway? && s.g.numFin == c.n
    ensures var r := s.h.round;
            forall f :: 0 <= f < c.n ==>
              r.pub[f] == r.took[f] == r.ended[f] == r.fin[f] == 1 && s.g.inCount[f] == 0
    ensures Quiet(c, s)
  {
    var r := s.h.round;
    forall f: nat | f < c.n ensures r.fin[f] <= 1 {
      StagesOrdered(c, s, f);
    }
    SumFull(r.fin);
    forall f: nat | f < c.n
      ensures r.pub[f] == r.took[f] == r.ended[f] == r.fin[f] == 1 && s.g.inCount[f] == 0 && f !in s.g.run
    {
      StagesOrdered(c, s, f);
      assert Books(c, s.g, r, s.vcpus, f);
    }
    forall v: nat, f: nat | v < c.pool && f < c.n
      ensures W(c, Holding(f), s.vcpus[v]) == W(c, Retiring(f), s.vcpus[v]) == 0
    {
      assert Books(c, s.g, r, s.vcpus, f);
      TotalAtLeast(c, s.vcpus, v, Holding(f));
      TotalAtLeast(c, s.vcpus, v, Retiring(f));
    }
    forall v: nat | v < c.pool
      ensures Vacant(s.vcpus[v])
    {
      if !Vacant(s.vcpus[v]) {
        var f := NotVacant(c, s.vcpus[v]);
        assert false;
      }
    }
  }

  lemma WinStep(c: Config, s: State, v: nat, choice: bool)
    requires RoundInv(c, s) && v < c.pool && s.h.round.mode.Underway? && Wins(c, s, v)
    ensures RoundInv(c, Next(c, s, v, choice))
  {
    RoundComplete(c, s);
    NextTyped(c, s, v, choice);
  }

  lemma RoundStep(c: Config, s: State, v: nat, choice: bool)
    requires RoundInv(c, s) && v < c.pool
    ensures RoundInv(c, Next(c, s, v, choice))
  {
    match s.h.round.mode
    case Idle => IdleStep(c, s, v, choice);
    case Restarting(w, _) =>
      if v != w {
        BystanderStep(c, s, v, choice);
      } else if s.vcpus[v].pc == Restart(StartSet) {
        StartStep(c, s, choice);
      } else {
        WinnerStep(c, s, choice);
      }
    case Underway =>
      if Wins(c, s, v) {
        WinStep(c, s, v, choice);
      } else {
        UnderwayStep(c, s, v, choice);
      }
  }

  lemma {:induction false} RoundAlways(c: Config, inCount: seq<nat>, moves: Schedule)
    requires WellFormed(c) && |inCount| == c.n && ValidSchedule(c, moves)
    ensures RoundInv(c, After(c, inCount, moves))
  {
    if moves != [] {
      var k := |moves| - 1;
      RoundAlways(c, inCount, moves[..k]);
      RoundStep(c, After(c, inCount, moves[..k]), moves[k].0, moves[k].1);
    }
  }

  // ---------------------------------------------------------------- the results

  /** In every round each function is published, taken, run to its end and counted as finished in this order and at most
      once; at most one vcpu publishes it, and at most one holds or retires it; and its in-count is the number of its
      in-edges not processed yet, zero exactly when it is published or about to be. */
  lemma EveryStageOnce(c: Config, inCount: seq<nat>, moves: Schedule, f: nat)
    requires WellFormed(c) && |inCount| == c.n && ValidSchedule(c, moves) && f < c.n
    requires After(c, inCount, moves).h.round.mode.Underway?
    ensures var s := After(c, inCount, moves);
            var r := s.h.round;
            && r.fin[f] <= r.ended[f] <= r.took[f] <= r.pub[f] <= 1
            && (forall u, v :: 0 <= u < c.pool && 0 <= v < c.pool ==>
                  ((Holds(s.vcpus[u], f) || Retires(s.vcpus[u], f)) && (Holds(s.vcpus[v], f) || Retires(s.vcpus[v], f))
                   ==> u == v))
            && (forall u, v :: 0 <= u < c.pool && 0 <= v < c.pool ==>
                  (Publishes(c, s.vcpus[u], f) && Publishes(c, s.vcpus[v], f) ==> u == v))
            && s.g.inCount[f] == Unprocessed(c, r.done, f)
            && (s.g.inCount[f] == 0 <==>
                  r.pub[f] == 1 || exists v :: 0 <= v < c.pool && Publishes(c, s.vcpus[v], f))
            && (f in s.g.run <==> r.pub[f] == 1 && r.took[f] == 0)
  {
    var s := After(c, inCount, moves);
    RoundAlways(c, inCount, moves);
    StagesOrdered(c, s, f);
    assert Books(c, s.g, s.h.round, s.vcpus, f);
    forall u: nat, v: nat | u < c.pool && v < c.pool
      ensures (Holds(s.vcpus[u], f) || Retires(s.vcpus[u], f)) && (Holds(s.vcpus[v], f) || Retires(s.vcpus[v], f)) ==>
                u == v
      ensures Publishes(c, s.vcpus[u], f) && Publishes(c, s.vcpus[v], f) ==> u == v
    {
      OneHolder(c, s, f, u, v);
    }
    if Total(c, s.vcpus, Publishing(f)) > 0 {
      var v := TotalWitness(c, s.vcpus, Publishing(f));
    }
    forall v: nat | v < c.pool && Publishes(c, s.vcpus[v], f)
      ensures Total(c, s.vcpus, Publishing(f)) > 0
    {
      TotalAtLeast(c, s.vcpus, v, Publishing(f));
    }
  }

  lemma OneHolder(c: Config, s: State, f: nat, u: nat, v: nat)
    requires RoundInv(c, s) && s.h.round.mode.Underway? && f < c.n && u < c.pool && v < c.pool
    ensures (Holds(s.vcpus[u], f) || Retires(s.vcpus[u], f)) && (Holds(s.vcpus[v], f) || Retires(s.vcpus[v], f)) ==>
              u == v
    ensures Publishes(c, s.vcpus[u], f) && Publishes(c, s.vcpus[v], f) ==> u == v
  {
    StagesOrdered(c, s, f);
    TotalAtLeast(c, s.vcpus, u, Holding(f));
    TotalAtLeast(c, s.vcpus, u, Retiring(f));
    TotalAtLeast(c, s.vcpus, v, Holding(f));
    TotalAtLeast(c, s.vcpus, v, Retiring(f));
    if Holds(s.vcpus[u], f) && Holds(s.vcpus[v], f) {
      TotalUnique(c, s.vcpus, u, v, Holding(f));
    }
    if Retires(s.vcpus[u], f) && Retires(s.vcpus[v], f) {
      TotalUnique(c, s.vcpus, u, v, Retiring(f));
    }
    if Publishes(c, s.vcpus[u], f) && Publishes(c, s.vcpus[v], f) {
      TotalUnique(c, s.vcpus, u, v, Publishing(f));
    }
  }

  /** A function is published, and so taken, only after every one of its predecessors has run to its end. */
  lemma PublishedAfterPredecessors(c: Config, inCount: seq<nat>, moves: Schedule, p: nat, i: nat)
    requires WellFormed(c) && |inCount| == c.n && ValidSchedule(c, moves)
    requires After(c, inCount, moves).h.round.mode.Underway?
    requires p < c.n && HasEdge(c, p, i) && Base(c) <= i < |c.dag|
    ensures var r := After(c, inCount, moves).h.round;
            r.pub[c.dag[i]] == 1 || r.took[c.dag[i]] == 1 ==> r.ended[p] == 1
  {
    var s := After(c, inCount, moves);
    var f := c.dag[i];
    RoundAlways(c, inCount, moves);
    StagesOrdered(c, s, f);
    assert Books(c, s.g, s.h.round, s.vcpus, f);
    PendingNone(c.dag, Base(c), s.h.round.done, f);
    assert EdgesOf(c, s.h.round, p);
  }

  /** The in-count that a vcpu is about to lower is at least one, so it never wraps; and it is one exactly when all the
      other edges into that function are processed, which happens to one of them only. */
  lemma ZeroSeenOnce(c: Config, inCount: seq<nat>, moves: Schedule, v: nat)
    requires WellFormed(c) && |inCount| == c.n && ValidSchedule(c, moves) && v < c.pool
    requires var pc := After(c, inCount, moves).vcpus[v].pc; pc.Proc? && pc.p.Edge? && pc.p.i < EndEdge(c, pc.fn)
    ensures var s := After(c, inCount, moves);
            var i := s.vcpus[v].pc.p.i;
            var f := c.dag[i];
            && s.h.round.mode.Underway? && s.g.inCount[f] >= 1
            && s.h.round.pub[f] == 0 && Total(c, s.vcpus, Publishing(f)) == 0
            && (s.g.inCount[f] == 1 <==>
                  forall j :: Base(c) <= j < |c.dag| && c.dag[j] == f && j != i ==> j in s.h.round.done)
  {
    var s := After(c, inCount, moves);
    RoundAlways(c, inCount, moves);
    EdgeWaits(c, s, v);
    var i := s.vcpus[v].pc.p.i;
    var f := c.dag[i];
    assert Books(c, s.g, s.h.round, s.vcpus, f);
    PendingNone(c.dag, Base(c), s.h.round.done + {i}, f);
  }

  /** A round is won only when everything in it has happened exactly once. Nothing is runnable then, nobody holds a
      function, and every in-count is zero. */
  lemma WonRoundComplete(c: Config, inCount: seq<nat>, moves: Schedule, v: nat)
    requires WellFormed(c) && |inCount| == c.n && ValidSchedule(c, moves) && v < c.pool
    requires Wins(c, After(c, inCount, moves), v) && After(c, inCount, moves).h.round.mode.Underway?
    ensures var s := After(c, inCount, moves);
            && Quiet(c, s)
            && forall f :: 0 <= f < c.n ==>
                 && s.h.round.pub[f] == s.h.round.took[f] == s.h.round.ended[f] == s.h.round.fin[f] == 1
                 && s.g.inCount[f] == 0
  {
    RoundAlways(c, inCount, moves);
    RoundComplete(c, After(c, inCount, moves));
  }

  /** At most one vcpu restarts a round. While it does, the run set is empty, nobody else holds a function or is inside
      process_sched_dag, no other race can be won, and the in-counts not yet copied are still the zeros that the last
      round left. */
  lemma RestartAlone(c: Config, inCount: seq<nat>, moves: Schedule, w: nat, v: nat)
    requires WellFormed(c) && |inCount| == c.n && ValidSchedule(c, moves) && v < c.pool && w < c.pool
    requires After(c, inCount, moves).vcpus[w].pc.Restart?
    ensures var s := After(c, inCount, moves);
            && s.g.run == {} && s.g.numFin == 0
            && s.h.round.mode.Restarting? && s.h.round.mode.winner == w
            && Vacant(s.vcpus[v]) && !s.vcpus[v].pc.Proc? && !Wins(c, s, v)
            && (s.vcpus[v].pc.Restart? ==> v == w)
            && (s.vcpus[w].pc.r.Copy? && !s.h.round.mode.cold ==>
                  forall f :: s.vcpus[w].pc.r.i <= f < c.n ==> s.g.inCount[f] == 0)
            && (s.vcpus[w].pc.r.StartSet? ==> s.g.inCount == c.dag[..c.n])
  {
    RoundAlways(c, inCount, moves);
  }
}
