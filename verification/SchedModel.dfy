/** The scheduler of src/sched.c as a transition system: one step of one vcpu is one locked instruction, load or store.

    `Exec` is the code. `Observe` keeps a history beside it that no step of the code ever reads. */
module SchedModel {
  import opened Bits
  import opened Dag

  // ---------------------------------------------------------------- state

  /** Where a vcpu is inside wake_up_task. */
  datatype WakePc =
    | ReadKicked | PostRekick(snap: Word)
    | ScanRekick | ClaimRekick(t: nat) | Rekick(t: nat) | ReleaseRekick(t: nat)
    | ReadCounters | ReadFree(r: int) | ReadRunnable(f: int) | Arm(tokens: int) | StoreTokens(tokens: int)
    | ReadInactive | PostTargets(snap: Word)
    | TakeToken | Rearm | ScanTarget | ClaimTarget(t: nat) | CompareStamps(t: nat)
    | KickCount(t: nat) | KickMark(t: nat) | KickCall(t: nat) | Release(t: nat, retry: bool)
    | WakeDone

  /** Where a vcpu is between `start` and line 294: process_sched_dag, with add_runnable_fn inside. */
  datatype ProcPc = CountFree | Edge(i: nat) | PubCount(i: nat) | PubSet(i: nat) | ClearCurrent

  /** Where a vcpu is in get_work and on the ways out of it, up to the user function. */
  datatype WorkPc =
    | Scan(word: nat) | Take(word: nat, b: nat)
    | GotFree(got: nat) | GotRunnable(got: nat) | Jump(got: nat) | Running
    | NoWork | RoundCas

  /** Where the winner of a round is. */
  datatype RestartPc =
    | WonCount | Wipe(k: nat) | TestKicked | TestInactive | ResetFree | ResetRunnable | Copy(i: nat)
    | StartCount | StartSet

  /** Where a vcpu is that goes to sleep, sleeps or wakes up. */
  datatype SleepPc = Mark | Hlt | ClearInactive | ClearKicked | CountSelf

  /** Where a vcpu is. `fn` is the function it has just run, or NULL_FUNC on its first entry; `boot` tells the halt in
      main and wake_up_event from the halt in sched. */
  datatype Pc =
    | Sleep(boot: bool, z: SleepPc)
    | Enter
    | Proc(fn: nat, p: ProcPc)
    | Wake(fn: nat, w: WakePc)
    | Finish(fn: nat)
    | Work(k: WorkPc)
    | Restart(r: RestartPc)

  /** A vcpu: its program counter and its own slot of `metadata->current`. */
  datatype Vcpu = Vcpu(pc: Pc, cur: nat)

  /** The shared words. The counters are C words of 64 bits; a negative number here is a wrapped one there. */
  datatype Shared = Shared(
    run: Word, runnable: int, inCount: seq<nat>, numFin: int, numFree: int,
    wakeNum: int, sig: int, kicked: Word, inactive: Word,
    target0: Word, target1: Word,  // ss_reflective_bm
    rekick0: Word, rekick1: Word)  // ss_reflective_bm1

  /** No round yet, a round being restarted by its winner (`cold` for the first), or a round under way. */
  datatype Mode = Idle | Restarting(winner: nat, cold: bool) | Underway

  /** What has happened to each function in the current round, and the edges processed in it. */
  datatype Round = Round(mode: Mode, done: set<nat>, pub: seq<nat>, took: seq<nat>, ended: seq<nat>, fin: seq<nat>)

  /** Wake tokens stored, the stores and re-arms, loop passes granted and first kicks made. */
  datatype Tokens = Tokens(issued: nat, stores: nat, rearms: nat, passes: nat, kicks: nat)

  /** `excess` is how far num_free_vcpu is above the vcpus it stands for. */
  datatype History = History(round: Round, tokens: Tokens, excess: int)

  datatype State = State(g: Shared, h: History, vcpus: seq<Vcpu>)

  // ---------------------------------------------------------------- the code

  /** `lock decb`. */
  function Decb(x: nat): nat {
    U8(x + 255)
  }

  function WordOf(run: Word, w: nat): Word {
    set f | f in run && f / 64 == w
  }

  function NewWork(fn: nat): Pc {
    if fn != NULL_FUNC then Finish(fn) else Work(Scan(0))
  }

  function AfterProcessing(c: Config, fn: nat): Pc {
    if c.pool != 1 then Wake(fn, ReadKicked) else NewWork(fn)
  }

  ghost predicate ProcOk(c: Config, fn: nat, p: ProcPc)
    requires |c.dag| > 2 * c.n
  {
    && fn < c.n
    && Base(c) <= FirstEdge(c, fn) <= EndEdge(c, fn) <= |c.dag|
    && match p
       case CountFree => true
       case Edge(i) => FirstEdge(c, fn) <= i <= EndEdge(c, fn)
       case PubCount(i) => HasEdge(c, fn, i)
       case PubSet(i) => HasEdge(c, fn, i)
       case ClearCurrent => true
  }

  predicate WorkOk(n: nat, k: WorkPc) {
    match k
    case Scan(w) => w < 4
    case Take(w, b) => w < 4 && b / 64 == w
    case GotFree(fn) => fn < n
    case GotRunnable(fn) => fn < n
    case Jump(fn) => fn < n
    case _ => true
  }

  predicate RestartOk(n: nat, r: RestartPc) {
    match r
    case Wipe(k) => k < 4
    case Copy(i) => i <= n
    case _ => true
  }

  predicate WakeOk(w: WakePc) {
    w.StoreTokens? || w.Arm? ==> w.tokens > 0
  }

  ghost predicate PcOk(c: Config, vc: Vcpu)
    requires |c.dag| > 2 * c.n
  {
    match vc.pc
    case Sleep(boot, _) => boot ==> vc.cur == NULL_FUNC
    case Enter => vc.cur == NULL_FUNC || vc.cur < c.n
    case Proc(fn, p) => ProcOk(c, fn, p)
    case Wake(fn, w) => (fn == NULL_FUNC || fn < c.n) && WakeOk(w)
    case Finish(fn) => fn < c.n
    case Work(k) => WorkOk(c.n, k) && (k.Running? ==> vc.cur < c.n)
    case Restart(r) => RestartOk(c.n, r)
  }

  predicate SharedOk(n: nat, g: Shared) {
    && |g.inCount| == n
    && forall f :: f in g.run ==> f < n
  }

  /** process_sched_dag, and the counter and the slot on either side of it. */
  ghost function ExecProc(c: Config, g: Shared, fn: nat, p: ProcPc): (r: (Shared, Pc))
    requires Header(c) && SharedOk(c.n, g) && ProcOk(c, fn, p)
    ensures SharedOk(c.n, r.0)
    ensures r.1.Proc? ==> r.1.fn == fn && ProcOk(c, fn, r.1.p)
  {
    match p
    case CountFree => (g.(numFree := g.numFree + 1), Proc(fn, Edge(FirstEdge(c, fn))))
    case Edge(i) =>
      if i < EndEdge(c, fn) then
        var out := c.dag[i];
        var left := Decb(g.inCount[out]);
        (g.(inCount := g.inCount[out := left]), Proc(fn, if left == 0 then PubCount(i) else Edge(i + 1)))
      else (g, Proc(fn, ClearCurrent))
    case PubCount(i) => (g.(runnable := g.runnable + 1), Proc(fn, PubSet(i)))
    case PubSet(i) => (g.(run := g.run + {c.dag[i]}), Proc(fn, Edge(i + 1)))
    case ClearCurrent => (g, AfterProcessing(c, fn))
  }

  /** wake_up_task. `choice` settles the comparisons of time stamps, which may be arbitrary, and which of the two
      counters is loaded first, which C leaves open. */
  ghost function ExecWake(choice: bool, g: Shared, w: WakePc): (r: (Shared, WakePc))
    ensures r.0.run == g.run && r.0.inCount == g.inCount && r.0.runnable == g.runnable && r.0.numFin == g.numFin
    ensures WakeOk(w) ==> WakeOk(r.1)
  {
    match w
    case ReadKicked => (g, PostRekick(g.kicked))
    case PostRekick(snap) =>
      (if g.rekick0 == {} && g.rekick1 == {} then g.(rekick0 := snap, rekick1 := snap) else g, ScanRekick)
    case ScanRekick => (g, if g.rekick0 == {} then ReadCounters else ClaimRekick(Lowest(g.rekick0)))
    case ClaimRekick(t) =>
      if t in g.rekick0 then (g.(rekick0 := g.rekick0 - {t}), Rekick(t)) else (g, ScanRekick)
    case Rekick(t) => (g, ReleaseRekick(t))  // kicks t again, or not, by its time stamp
    case ReleaseRekick(t) => (g.(rekick1 := g.rekick1 - {t}), ScanRekick)
    case ReadCounters => (g, if choice then ReadRunnable(g.numFree) else ReadFree(g.runnable))
    case ReadFree(r) => (g, if r - g.numFree > 0 then Arm(r - g.numFree) else ReadInactive)
    case ReadRunnable(f) => (g, if g.runnable - f > 0 then Arm(g.runnable - f) else ReadInactive)
    case Arm(tokens) => if g.sig == 1 then (g.(sig := 0), StoreTokens(tokens)) else (g, ReadInactive)
    case StoreTokens(tokens) => (g.(wakeNum := tokens), ReadInactive)
    case ReadInactive => (g, PostTargets(g.inactive))
    case PostTargets(snap) =>
      (if g.target0 == {} && g.target1 == {} then g.(target0 := snap, target1 := snap) else g, TakeToken)
    case TakeToken =>
      (g.(wakeNum := g.wakeNum - 1),
       if g.wakeNum > 1 then ScanTarget else if g.wakeNum == 1 then Rearm else WakeDone)
    case Rearm => (g.(sig := 1), ScanTarget)
    case ScanTarget => (g, if g.target0 == {} then WakeDone else ClaimTarget(Lowest(g.target0)))
    case ClaimTarget(t) =>
      if t in g.target0 then (g.(target0 := g.target0 - {t}), CompareStamps(t)) else (g, ScanTarget)
    case CompareStamps(t) => (g, if choice then KickCount(t) else Release(t, true))
    case KickCount(t) => (g.(numFree := g.numFree + 1), KickMark(t))
    case KickMark(t) => (g.(kicked := g.kicked + {t}), KickCall(t))
    case KickCall(t) => (g, Release(t, false))
    case Release(t, retry) => (g.(target1 := g.target1 - {t}), if retry then ScanTarget else TakeToken)
    case WakeDone => (g, WakeDone)
  }

  /** get_work, taking what it found, and the race for the round when it found nothing. */
  ghost function ExecWork(n: nat, g: Shared, k: WorkPc): (r: (Shared, Pc))
    requires SharedOk(n, g) && WorkOk(n, k)
    ensures SharedOk(n, r.0)
    ensures r.1.Work? ==> WorkOk(n, r.1.k)
  {
    match k
    case Scan(w) =>
      (g, if WordOf(g.run, w) != {} then Work(Take(w, Lowest(WordOf(g.run, w))))
          else if w < 3 then Work(Scan(w + 1)) else Work(NoWork))
    case Take(w, b) =>
      if b in g.run then (g.(run := g.run - {b}), Work(GotFree(b))) else (g, Work(Scan(w)))
    case GotFree(fn) => (g.(numFree := g.numFree - 1), Work(GotRunnable(fn)))
    case GotRunnable(fn) => (g.(runnable := g.runnable - 1), Work(Jump(fn)))
    case Jump(fn) => (g, Work(Running))
    case Running => (g, Enter)  // the user function ends and re-enters sched
    case NoWork => (g.(numFree := g.numFree - 1), Work(RoundCas))
    case RoundCas =>
      if g.numFin == n then (g.(numFin := 0), Restart(WonCount)) else (g, Sleep(false, Mark))
  }

  /** The winner of a round sets up the next one. */
  function ExecRestart(c: Config, g: Shared, r: RestartPc): (x: (Shared, Pc))
    requires Header(c) && SharedOk(c.n, g) && RestartOk(c.n, r)
    ensures SharedOk(c.n, x.0)
    ensures x.1.Restart? ==> RestartOk(c.n, x.1.r)
  {
    match r
    case WonCount => (g.(numFree := g.numFree + 1), Restart(Wipe(0)))
    case Wipe(k) =>
      if k == 0 then (g.(target0 := {}), Restart(Wipe(1)))
      else if k == 1 then (g.(target1 := {}), Restart(Wipe(2)))
      else if k == 2 then (g.(rekick0 := {}), Restart(Wipe(3)))
      else (g.(rekick1 := {}), Restart(TestKicked))
    case TestKicked => (g, Restart(if g.kicked == {} then TestInactive else Copy(0)))
    case TestInactive => (g, Restart(if c.pool - |g.inactive| == 1 then ResetFree else Copy(0)))
    case ResetFree => (g.(numFree := 1), Restart(ResetRunnable))
    case ResetRunnable => (g.(runnable := 0), Restart(Copy(0)))
    case Copy(i) =>
      if i < c.n then (g.(inCount := g.inCount[i := c.dag[i]]), Restart(Copy(i + 1)))
      else (g, Restart(StartCount))
    case StartCount => (g.(runnable := g.runnable + 1), Restart(StartSet))
    case StartSet => (g.(run := g.run + {c.start}), Work(Scan(0)))
  }

  /** Going to sleep, and waking up: whenever scheduled, kicked or not. */
  function ExecSleep(v: nat, g: Shared, boot: bool, z: SleepPc): (Shared, Pc) {
    var awake := if boot then Enter else Work(Scan(0));
    match z
    case Mark => (g.(inactive := g.inactive + {v}), Sleep(boot, Hlt))
    case Hlt => (g, Sleep(boot, ClearInactive))
    case ClearInactive => (g.(inactive := g.inactive - {v}), Sleep(boot, ClearKicked))
    case ClearKicked => (g.(kicked := g.kicked - {v}), if v in g.kicked then awake else Sleep(boot, CountSelf))
    case CountSelf => (g.(numFree := g.numFree + 1), awake)
  }

  /** A vcpu's slot of `metadata->current` after its step. */
  function CurrentAfter(vc: Vcpu): nat {
    if vc.pc.Proc? && vc.pc.p.ClearCurrent? then NULL_FUNC
    else if vc.pc.Work? && vc.pc.k.Jump? then vc.pc.k.got
    else vc.cur
  }

  /** One step of vcpu v. */
  ghost function Exec(c: Config, v: nat, choice: bool, g: Shared, vc: Vcpu): (Shared, Vcpu)
    requires Header(c) && SharedOk(c.n, g) && PcOk(c, vc)
  {
    var (g', pc') :=
      match vc.pc
      case Sleep(boot, z) => ExecSleep(v, g, boot, z)
      case Enter => (g, if vc.cur != NULL_FUNC then Proc(vc.cur, CountFree) else AfterProcessing(c, vc.cur))
      case Proc(fn, p) => ExecProc(c, g, fn, p)
      case Wake(fn, w) =>
        if w.WakeDone? then (g, NewWork(fn))
        else var (g', w') := ExecWake(choice, g, w); (g', Wake(fn, w'))
      case Finish(fn) => (g.(numFin := g.numFin + 1), Work(Scan(0)))
      case Work(k) => ExecWork(c.n, g, k)
      case Restart(r) => ExecRestart(c, g, r);
    (g', Vcpu(pc', CurrentAfter(vc)))
  }

  // ---------------------------------------------------------------- the history

  function Zeros(n: nat): (z: seq<nat>)
    ensures |z| == n && forall i :: 0 <= i < n ==> z[i] == 0
  {
    seq(n, _ => 0)
  }

  function Bump(counts: seq<nat>, f: nat): (r: seq<nat>)
    ensures |r| == |counts|
  {
    if f < |counts| then counts[f := counts[f] + 1] else counts
  }

  function NewRound(c: Config, mode: Mode): Round {
    Round(mode, {}, Zeros(c.n), Zeros(c.n), Zeros(c.n), Zeros(c.n))
  }

  ghost function ObserveRound(c: Config, v: nat, g: Shared, vc: Vcpu, r: Round): Round
    requires Header(c) && PcOk(c, vc)
  {
    match vc.pc
    case Proc(fn, Edge(i)) => if i < EndEdge(c, fn) then r.(done := r.done + {i}) else r
    case Proc(fn, PubSet(i)) => r.(pub := Bump(r.pub, c.dag[i]))
    case Restart(StartSet) => r.(pub := Bump(r.pub, c.start), mode := Underway)
    case Work(Take(_, b)) => if b in g.run then r.(took := Bump(r.took, b)) else r
    case Work(Running) => r.(ended := Bump(r.ended, vc.cur))
    case Finish(fn) => r.(fin := Bump(r.fin, fn))
    case Work(RoundCas) => if g.numFin == c.n then NewRound(c, Restarting(v, r.mode.Idle?)) else r
    case _ => r
  }

  function ObserveTokens(g: Shared, vc: Vcpu, t: Tokens): Tokens {
    if !vc.pc.Wake? then t else
    match vc.pc.w
    case StoreTokens(k) => if k > 0 then t.(issued := t.issued + k, stores := t.stores + 1) else t
    case TakeToken => if g.wakeNum > 0 then t.(passes := t.passes + 1) else t
    case Rearm => t.(rearms := t.rearms + 1)
    case KickCount(_) => t.(kicks := t.kicks + 1)
    case _ => t
  }

  /** The test of the recovery block, taken at one moment. */
  predicate RecoveryTest(c: Config, g: Shared) {
    g.kicked == {} && c.pool - |g.inactive| == 1
  }

  function ObserveExcess(g: Shared, vc: Vcpu, excess: int): int {
    match vc.pc
    case Wake(_, KickMark(t)) => if t in g.kicked then excess + 1 else excess
    case Restart(ResetFree) => excess + 1 - g.numFree
    case _ => excess
  }

  // ---------------------------------------------------------------- runs

  ghost predicate Typed(c: Config, s: State) {
    && Layout(c)
    && |s.vcpus| == c.pool
    && |s.h.round.pub| == |s.h.round.took| == |s.h.round.ended| == |s.h.round.fin| == c.n
    && SharedOk(c.n, s.g)
    && forall v :: 0 <= v < c.pool ==> PcOk(c, s.vcpus[v])
  }

  ghost function Next(c: Config, s: State, v: nat, choice: bool): State
    requires Typed(c, s) && v < c.pool
  {
    var (g, vc) := (s.g, s.vcpus[v]);
    var (g', vc') := Exec(c, v, choice, g, vc);
    State(g',
          History(ObserveRound(c, v, g, vc, s.h.round),
                  ObserveTokens(g, vc, s.h.tokens),
                  ObserveExcess(g, vc, s.h.excess)),
          s.vcpus[v := vc'])
  }

  /** The vcpus that scheduler_init_pre marks inactive. */
  function Others(pool: nat): Word {
    set v: nat | v < pool && IsHelper(v)
  }

  predicate IsHelper(v: nat) {
    v != 0
  }

  /** The state that main leaves behind scheduler_init_post: vcpu 0 about to enter sched, every other vcpu halted in
      main and marked inactive, and whatever in-counts the host left. */
  function Start(c: Config, inCount: seq<nat>): State
    requires 1 <= c.pool
  {
    State(
      Shared({}, 0, inCount, c.n, 1, 0, 1, {}, Others(c.pool), {}, {}, {}, {}),
      History(NewRound(c, Idle), Tokens(0, 0, 0, 0, 0), 0),
      [Vcpu(Enter, NULL_FUNC)] + seq(c.pool - 1, _ => Vcpu(Sleep(true, Hlt), NULL_FUNC)))
  }

  lemma StartTyped(c: Config, inCount: seq<nat>)
    requires Layout(c) && |inCount| == c.n
    ensures Typed(c, Start(c, inCount))
  {
  }

  /** Steps keep the types; in particular no index of the code is ever out of range. */
  lemma StepTyped(c: Config, v: nat, choice: bool, g: Shared, vc: Vcpu)
    requires Layout(c) && SharedOk(c.n, g) && PcOk(c, vc)
    ensures var (g', vc') := Exec(c, v, choice, g, vc);
            SharedOk(c.n, g') && PcOk(c, vc')
  {
    if vc.pc.Enter? || vc.pc.Proc? {
      StepTypedProc(c, v, choice, g, vc);
    } else {
      StepTypedRest(c, v, choice, g, vc);
    }
  }

  lemma StepTypedProc(c: Config, v: nat, choice: bool, g: Shared, vc: Vcpu)
    requires Layout(c) && SharedOk(c.n, g) && PcOk(c, vc) && (vc.pc.Enter? || vc.pc.Proc?)
    ensures var (g', vc') := Exec(c, v, choice, g, vc);
            SharedOk(c.n, g') && PcOk(c, vc')
  {
    if vc.pc.Enter? && vc.cur < c.n {
      EdgeBounds(c, vc.cur);
    }
  }

  lemma StepTypedRest(c: Config, v: nat, choice: bool, g: Shared, vc: Vcpu)
    requires Layout(c) && SharedOk(c.n, g) && PcOk(c, vc) && !vc.pc.Enter? && !vc.pc.Proc?
    ensures var (g', vc') := Exec(c, v, choice, g, vc);
            SharedOk(c.n, g') && PcOk(c, vc')
  {
  }

  lemma NextTyped(c: Config, s: State, v: nat, choice: bool)
    requires Typed(c, s) && v < c.pool
    ensures Typed(c, Next(c, s, v, choice))
  {
    StepTyped(c, v, choice, s.g, s.vcpus[v]);
  }

  /** A schedule: which vcpu steps next, and how its choice comes out. */
  type Schedule = seq<(nat, bool)>

  ghost predicate ValidSchedule(c: Config, moves: Schedule) {
    forall i :: 0 <= i < |moves| ==> moves[i].0 < c.pool
  }

  /** The state after a schedule, from the boot state. */
  ghost function After(c: Config, inCount: seq<nat>, moves: Schedule): (s: State)
    requires Layout(c) && |inCount| == c.n && ValidSchedule(c, moves)
    ensures Typed(c, s)
  {
    if moves == [] then StartTyped(c, inCount); Start(c, inCount)
    else
      var k := |moves| - 1;
      var s := After(c, inCount, moves[..k]);
      NextTyped(c, s, moves[k].0, moves[k].1);
      Next(c, s, moves[k].0, moves[k].1)
  }
}
