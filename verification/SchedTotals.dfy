/** What each vcpu contributes to each ledger, and the total over the pool. */
module SchedTotals {
  import opened Dag
  import opened SchedModel
  import opened Sums

  /** A ledger: what a vcpu may be counted for. */
  datatype Kind =
    | Publishing(f: nat)  // has brought f's in-count to zero and not yet set its bit
    | Holding(f: nat)     // has taken f and not finished running it
    | Retiring(f: nat)    // has run f and not yet counted it as finished
    | MidQueue            // between runnable_tasks and the run set, in either direction
    | Counted             // stands in num_free_vcpu
    | Kicking             // has counted a target free and not yet marked it kicked
    | Storing             // about to store wake tokens
    | Rearming            // about to set the signal again
    | InPass              // has been granted a loop pass and made no first kick in it
    | Waking              // inside wake_up_task
    | OwnsTarget(t: nat) | OwnsRekick(t: nat)

  function Bit(b: bool): nat {
    if b then 1 else 0
  }

  /** The function that a vcpu is about to publish, while it counts and sets its bit. */
  predicate Publishes(c: Config, vc: Vcpu, f: nat) {
    && vc.pc.Proc?
    && (vc.pc.p.PubCount? || vc.pc.p.PubSet?)
    && vc.pc.p.i < |c.dag| && c.dag[vc.pc.p.i] == f
  }

  predicate Holds(vc: Vcpu, f: nat) {
    && vc.pc.Work?
    && match vc.pc.k
       case GotFree(fn) => fn == f
       case GotRunnable(fn) => fn == f
       case Jump(fn) => fn == f
       case Running => vc.cur == f
       case _ => false
  }

  predicate Retires(vc: Vcpu, f: nat) {
    match vc.pc
    case Enter => vc.cur == f
    case Proc(fn, _) => fn == f
    case Wake(fn, _) => fn == f
    case Finish(fn) => fn == f
    case _ => false
  }

  predicate StandsFree(vc: Vcpu) {
    match vc.pc
    case Sleep(_, _) => false
    case Enter => vc.cur == NULL_FUNC
    case Proc(_, p) => !p.CountFree?
    case Wake(_, _) => true
    case Finish(_) => true
    case Work(k) => k.Scan? || k.Take? || k.GotFree? || k.NoWork?
    case Restart(r) => !r.WonCount?
  }

  predicate Midway(vc: Vcpu) {
    match vc.pc
    case Proc(_, p) => p.PubSet?
    case Work(k) => k.GotFree? || k.GotRunnable?
    case Restart(r) => r.StartSet?
    case _ => false
  }

  predicate Passing(w: WakePc) {
    w.Rearm? || w.ScanTarget? || w.ClaimTarget? || w.CompareStamps? || w.KickCount? || (w.Release? && w.retry)
  }

  predicate ClaimsTarget(w: WakePc, t: nat) {
    match w
    case CompareStamps(u) => u == t
    case KickCount(u) => u == t
    case KickMark(u) => u == t
    case KickCall(u) => u == t
    case Release(u, _) => u == t
    case _ => false
  }

  predicate ClaimsRekick(w: WakePc, t: nat) {
    match w
    case Rekick(u) => u == t
    case ReleaseRekick(u) => u == t
    case _ => false
  }

  function W(c: Config, k: Kind, vc: Vcpu): (w: nat)
    ensures w <= 1
  {
    match k
    case Publishing(f) => Bit(Publishes(c, vc, f))
    case Holding(f) => Bit(Holds(vc, f))
    case Retiring(f) => Bit(Retires(vc, f))
    case MidQueue => Bit(Midway(vc))
    case Counted => Bit(StandsFree(vc))
    case Kicking => Bit(vc.pc.Wake? && vc.pc.w.KickMark?)
    case Storing => Bit(vc.pc.Wake? && vc.pc.w.StoreTokens?)
    case Rearming => Bit(vc.pc.Wake? && vc.pc.w.Rearm?)
    case InPass => Bit(vc.pc.Wake? && Passing(vc.pc.w))
    case Waking => Bit(vc.pc.Wake?)
    case OwnsTarget(t) => Bit(vc.pc.Wake? && ClaimsTarget(vc.pc.w, t))
    case OwnsRekick(t) => Bit(vc.pc.Wake? && ClaimsRekick(vc.pc.w, t))
  }

  function Weights(c: Config, vcpus: seq<Vcpu>, k: Kind): (ws: seq<nat>)
    ensures |ws| == |vcpus|
    ensures forall v :: 0 <= v < |vcpus| ==> ws[v] == W(c, k, vcpus[v])
  {
    seq(|vcpus|, v requires 0 <= v < |vcpus| => W(c, k, vcpus[v]))
  }

  function Total(c: Config, vcpus: seq<Vcpu>, k: Kind): nat {
    Sum(Weights(c, vcpus, k))
  }

  /** A step of one vcpu moves every total by what that vcpu gained or lost. */
  lemma TotalStep(c: Config, vcpus: seq<Vcpu>, v: nat, vc': Vcpu, k: Kind)
    requires v < |vcpus|
    ensures Total(c, vcpus[v := vc'], k) + W(c, k, vcpus[v]) == Total(c, vcpus, k) + W(c, k, vc')
    ensures W(c, k, vcpus[v]) <= Total(c, vcpus, k)
  {
    var ws := Weights(c, vcpus, k);
    SumUpdate(ws, v, W(c, k, vc'));
    SumAtLeast(ws, v);
    assert Weights(c, vcpus[v := vc'], k) == ws[v := W(c, k, vc')];
  }

  lemma TotalAtLeast(c: Config, vcpus: seq<Vcpu>, v: nat, k: Kind)
    requires v < |vcpus|
    ensures W(c, k, vcpus[v]) <= Total(c, vcpus, k)
  {
    SumAtLeast(Weights(c, vcpus, k), v);
  }

  /** A total of at most one has at most one contributor. */
  lemma TotalUnique(c: Config, vcpus: seq<Vcpu>, u: nat, v: nat, k: Kind)
    requires u < |vcpus| && v < |vcpus| && Total(c, vcpus, k) <= 1
    requires W(c, k, vcpus[u]) == 1 && W(c, k, vcpus[v]) == 1
    ensures u == v
  {
    if u < v {
      SumTwo(Weights(c, vcpus, k), u, v);
    } else if v < u {
      SumTwo(Weights(c, vcpus, k), v, u);
    }
  }

  lemma TotalZero(c: Config, vcpus: seq<Vcpu>, k: Kind)
    requires forall v :: 0 <= v < |vcpus| ==> W(c, k, vcpus[v]) == 0
    ensures Total(c, vcpus, k) == 0
  {
    SumZero(Weights(c, vcpus, k));
  }

  /** Someone contributes to a total that is not zero. */
  lemma TotalWitness(c: Config, vcpus: seq<Vcpu>, k: Kind) returns (v: nat)
    requires Total(c, vcpus, k) > 0
    ensures v < |vcpus| && W(c, k, vcpus[v]) == 1
  {
    if forall u :: 0 <= u < |vcpus| ==> W(c, k, vcpus[u]) == 0 {
      TotalZero(c, vcpus, k);
    }
    v :| v < |vcpus| && W(c, k, vcpus[v]) != 0;
  }
}
