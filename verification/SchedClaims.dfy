/** Claims on kick targets: the two reflective bitmaps of wake_up_task, and their wipe by the winner of a round. */
module SchedClaims {
  import opened Bits
  import opened Dag
  import opened SchedModel
  import opened SchedTotals
  import opened SchedRounds

  /** ss_reflective_bm, for first kicks, and ss_reflective_bm1, for re-kicks. */
  datatype Bitmap = Targets | Rekicks

  function Word0(b: Bitmap, g: Shared): Word {
    if b.Targets? then g.target0 else g.rekick0
  }

  function Word1(b: Bitmap, g: Shared): Word {
    if b.Targets? then g.target1 else g.rekick1
  }

  function Owns(b: Bitmap, t: nat): Kind {
    if b.Targets? then OwnsTarget(t) else OwnsRekick(t)
  }

  /** The two stores that wipe a bitmap. */
  function FirstStore(b: Bitmap): nat {
    if b.Targets? then 0 else 2
  }

  function SecondStore(b: Bitmap): nat {
    FirstStore(b) + 1
  }

  /** Each bit of word 1 is either still in word 0 or owned by one vcpu. */
  ghost predicate Exact(c: Config, s: State, b: Bitmap) {
    forall t: nat :: Bit(t in Word1(b, s.g)) == Bit(t in Word0(b, s.g)) + Total(c, s.vcpus, Owns(b, t))
  }

  /** Between claiming a target and releasing it. */
  predicate MidClaim(b: Bitmap, vc: Vcpu) {
    && vc.pc.Wake?
    && match b
       case Targets => vc.pc.w.CompareStamps? || vc.pc.w.KickCount? || vc.pc.w.KickMark? || vc.pc.w.KickCall?
                       || vc.pc.w.Release?
       case Rekicks => vc.pc.w.Rekick? || vc.pc.w.ReleaseRekick?
  }

  // ---------------------------------------------------------------- one step

  lemma TargetLocal(c: Config, v: nat, choice: bool, g: Shared, vc: Vcpu, t: nat)
    requires Header(c) && SharedOk(c.n, g) && PcOk(c, vc)
    requires vc.pc != Restart(Wipe(0)) && vc.pc != Restart(Wipe(1))
    requires W(c, OwnsTarget(t), vc) == 1 ==> t in g.target1
    ensures var (g', vc') := Exec(c, v, choice, g, vc);
            Bit(t in g'.target1) + Bit(t in g.target0) + W(c, OwnsTarget(t), vc)
            == Bit(t in g.target1) + Bit(t in g'.target0) + W(c, OwnsTarget(t), vc')
  {
  }

  lemma RekickLocal(c: Config, v: nat, choice: bool, g: Shared, vc: Vcpu, t: nat)
    requires Header(c) && SharedOk(c.n, g) && PcOk(c, vc)
    requires vc.pc != Restart(Wipe(2)) && vc.pc != Restart(Wipe(3))
    requires W(c, OwnsRekick(t), vc) == 1 ==> t in g.rekick1
    ensures var (g', vc') := Exec(c, v, choice, g, vc);
            Bit(t in g'.rekick1) + Bit(t in g.rekick0) + W(c, OwnsRekick(t), vc)
            == Bit(t in g.rekick1) + Bit(t in g'.rekick0) + W(c, OwnsRekick(t), vc')
  {
  }

  predicate AtStore(b: Bitmap, vc: Vcpu) {
    vc.pc == Restart(Wipe(FirstStore(b))) || vc.pc == Restart(Wipe(SecondStore(b)))
  }

  /** Every step but the two stores that wipe a bitmap keeps its bits accounted for. */
  lemma ClaimsKept(c: Config, s: State, v: nat, choice: bool, b: Bitmap)
    requires Typed(c, s) && v < c.pool && Exact(c, s, b) && !AtStore(b, s.vcpus[v])
    ensures Exact(c, Next(c, s, v, choice), b)
  {
    var s' := Next(c, s, v, choice);
    forall t: nat
      ensures Bit(t in Word1(b, s'.g)) == Bit(t in Word0(b, s'.g)) + Total(c, s'.vcpus, Owns(b, t))
    {
      assert Bit(t in Word1(b, s.g)) == Bit(t in Word0(b, s.g)) + Total(c, s.vcpus, Owns(b, t));
      TotalStep(c, s.vcpus, v, s'.vcpus[v], Owns(b, t));
      if b.Targets? {
        TargetLocal(c, v, choice, s.g, s.vcpus[v], t);
      } else {
        RekickLocal(c, v, choice, s.g, s.vcpus[v], t);
      }
    }
  }

  // ---------------------------------------------------------------- the wipe

  /** On the way from boot to its first look for work: nothing run yet. */
  predicate FirstEntry(vc: Vcpu) {
    match vc.pc
    case Sleep(boot, _) => boot
    case Enter => vc.cur == NULL_FUNC
    case Wake(fn, _) => fn == NULL_FUNC
    case _ => false
  }

  /** While a round is being restarted, a vcpu inside wake_up_task is one on its first entry: the finished counter is
      raised only behind wake_up_task. */
  lemma WipeMeetsOnlyFirstEntries(c: Config, inCount: seq<nat>, moves: Schedule, v: nat)
    requires WellFormed(c) && |inCount| == c.n && ValidSchedule(c, moves) && v < c.pool
    requires After(c, inCount, moves).h.round.mode.Restarting?
    ensures After(c, inCount, moves).vcpus[v].pc.Wake? ==> FirstEntry(After(c, inCount, moves).vcpus[v])
  {
    RoundAlways(c, inCount, moves);
  }

  lemma MidClaimOwns(c: Config, b: Bitmap, vc: Vcpu)
    ensures MidClaim(b, vc) ==> exists t: nat :: W(c, Owns(b, t), vc) == 1
    ensures !MidClaim(b, vc) ==> forall t: nat :: W(c, Owns(b, t), vc) == 0
  {
    if MidClaim(b, vc) {
      assert W(c, Owns(b, vc.pc.w.t), vc) == 1;
    }
  }

  /** Nobody owns a target exactly when nobody is between claim and release. */
  lemma NobodyMidClaim(c: Config, vcpus: seq<Vcpu>, b: Bitmap)
    ensures (forall t: nat :: Total(c, vcpus, Owns(b, t)) == 0)
       <==> forall v :: 0 <= v < |vcpus| ==> !MidClaim(b, vcpus[v])
  {
    forall v: nat | v < |vcpus| && MidClaim(b, vcpus[v])
      ensures exists t: nat :: Total(c, vcpus, Owns(b, t)) > 0
    {
      MidClaimOwns(c, b, vcpus[v]);
      var t: nat :| W(c, Owns(b, t), vcpus[v]) == 1;
      TotalAtLeast(c, vcpus, v, Owns(b, t));
    }
    if forall v :: 0 <= v < |vcpus| ==> !MidClaim(b, vcpus[v]) {
      forall t: nat
        ensures Total(c, vcpus, Owns(b, t)) == 0
      {
        forall v: nat | v < |vcpus| ensures W(c, Owns(b, t), vcpus[v]) == 0 {
          MidClaimOwns(c, b, vcpus[v]);
        }
        TotalZero(c, vcpus, Owns(b, t));
      }
    }
  }

  /** What the second store of a wipe has to meet: word 0 still empty, and no vcpu on its first entry between claim and
      release. */
  ghost predicate CleanWipe(c: Config, s: State, b: Bitmap)
    requires |s.vcpus| == c.pool
  {
    && Word0(b, s.g) == {}
    && forall v :: 0 <= v < c.pool && FirstEntry(s.vcpus[v]) ==> !MidClaim(b, s.vcpus[v])
  }

  lemma StoreLocal(c: Config, v: nat, choice: bool, g: Shared, vc: Vcpu, b: Bitmap, t: nat)
    requires Header(c) && SharedOk(c.n, g) && PcOk(c, vc) && vc.pc == Restart(Wipe(SecondStore(b)))
    ensures var (g', vc') := Exec(c, v, choice, g, vc);
            && Word1(b, g') == {} && Word0(b, g') == Word0(b, g)
            && W(c, Owns(b, t), vc) == W(c, Owns(b, t), vc') == 0
  {
  }

  /** The second store leaves every bit accounted for if and only if word 0 is empty and nobody owns a target. */
  lemma StoreExact(c: Config, s: State, w: nat, choice: bool, b: Bitmap)
    requires Typed(c, s) && w < c.pool && s.vcpus[w].pc == Restart(Wipe(SecondStore(b)))
    ensures Exact(c, Next(c, s, w, choice), b)
       <==> Word0(b, s.g) == {} && forall t: nat :: Total(c, s.vcpus, Owns(b, t)) == 0
  {
    var s' := Next(c, s, w, choice);
    forall t: nat
      ensures t !in Word1(b, s'.g) && (t in Word0(b, s'.g) <==> t in Word0(b, s.g))
      ensures Total(c, s'.vcpus, Owns(b, t)) == Total(c, s.vcpus, Owns(b, t))
    {
      StoreLocal(c, w, choice, s.g, s.vcpus[w], b, t);
      TotalStep(c, s.vcpus, w, s'.vcpus[w], Owns(b, t));
    }
    if Exact(c, s', b) {
      forall t: nat
        ensures t !in Word0(b, s.g) && Total(c, s.vcpus, Owns(b, t)) == 0
      {
        assert Bit(t in Word1(b, s'.g)) == Bit(t in Word0(b, s'.g)) + Total(c, s'.vcpus, Owns(b, t));
      }
    }
  }

  /** The store that wipes word 1 of either bitmap leaves every target accounted for if and only if word 0 is still
      empty and no vcpu on its first entry is between claiming a target and releasing it at that moment. */
  lemma WipeExactIff(c: Config, inCount: seq<nat>, moves: Schedule, w: nat, choice: bool, b: Bitmap)
    requires WellFormed(c) && |inCount| == c.n && ValidSchedule(c, moves) && w < c.pool
    requires After(c, inCount, moves).vcpus[w].pc == Restart(Wipe(SecondStore(b)))
    ensures var s := After(c, inCount, moves);
            Exact(c, Next(c, s, w, choice), b) <==> CleanWipe(c, s, b)
  {
    var s := After(c, inCount, moves);
    RoundAlways(c, inCount, moves);
    StoreExact(c, s, w, choice, b);
    NobodyMidClaim(c, s.vcpus, b);
    forall v: nat | v < c.pool && MidClaim(b, s.vcpus[v])
      ensures FirstEntry(s.vcpus[v])
    {
      WipeMeetsOnlyFirstEntries(c, inCount, moves, v);
    }
  }

  // ---------------------------------------------------------------- exclusive claims

  /** The last wipe of the schedule, if there was one, is over and was clean. A first store into an empty word 0 changes
      nothing. */
  ghost predicate LastWipeClean(c: Config, inCount: seq<nat>, moves: Schedule, b: Bitmap)
    requires Layout(c) && |inCount| == c.n && ValidSchedule(c, moves)
  {
    moves != [] ==>
      var k := |moves| - 1;
      var s := After(c, inCount, moves[..k]);
      var pc := s.vcpus[moves[k].0].pc;
      if pc == Restart(Wipe(SecondStore(b))) then CleanWipe(c, s, b)
      else LastWipeClean(c, inCount, moves[..k], b) && (pc == Restart(Wipe(FirstStore(b))) ==> Word0(b, s.g) == {})
  }

  /** A first store into an empty word keeps the bits accounted for. */
  lemma EmptyStore(c: Config, s: State, v: nat, choice: bool, b: Bitmap)
    requires Typed(c, s) && v < c.pool && Exact(c, s, b)
    requires s.vcpus[v].pc == Restart(Wipe(FirstStore(b))) && Word0(b, s.g) == {}
    ensures Exact(c, Next(c, s, v, choice), b)
  {
    var s' := Next(c, s, v, choice);
    forall t: nat
      ensures Total(c, s'.vcpus, Owns(b, t)) == Total(c, s.vcpus, Owns(b, t))
    {
      TotalStep(c, s.vcpus, v, s'.vcpus[v], Owns(b, t));
    }
    forall t: nat
      ensures Bit(t in Word1(b, s'.g)) == Bit(t in Word0(b, s'.g)) + Total(c, s'.vcpus, Owns(b, t))
    {
      assert Bit(t in Word1(b, s.g)) == Bit(t in Word0(b, s.g)) + Total(c, s.vcpus, Owns(b, t));
    }
  }

  lemma {:induction false} ClaimsAlways(c: Config, inCount: seq<nat>, moves: Schedule, b: Bitmap)
    requires WellFormed(c) && |inCount| == c.n && ValidSchedule(c, moves) && LastWipeClean(c, inCount, moves, b)
    ensures Exact(c, After(c, inCount, moves), b)
  {
    if moves == [] {
      NobodyMidClaim(c, Start(c, inCount).vcpus, b);
    } else {
      var k := |moves| - 1;
      var s := After(c, inCount, moves[..k]);
      var (v, choice) := moves[k];
      if s.vcpus[v].pc == Restart(Wipe(SecondStore(b))) {
        WipeExactIff(c, inCount, moves[..k], v, choice, b);
      } else {
        ClaimsAlways(c, inCount, moves[..k], b);
        if AtStore(b, s.vcpus[v]) {
          EmptyStore(c, s, v, choice, b);
        } else {
          ClaimsKept(c, s, v, choice, b);
        }
      }
    }
  }

  lemma OwnersOf(c: Config, vcpus: seq<Vcpu>, k: Kind, u: nat, v: nat)
    requires u < |vcpus| && v < |vcpus|
    ensures Total(c, vcpus, k) > 0 <==> exists o :: 0 <= o < |vcpus| && W(c, k, vcpus[o]) == 1
    ensures Total(c, vcpus, k) <= 1 && W(c, k, vcpus[u]) == 1 && W(c, k, vcpus[v]) == 1 ==> u == v
  {
    if Total(c, vcpus, k) > 0 {
      var o := TotalWitness(c, vcpus, k);
    }
    forall o: nat | o < |vcpus| && W(c, k, vcpus[o]) == 1
      ensures Total(c, vcpus, k) > 0
    {
      TotalAtLeast(c, vcpus, o, k);
    }
    if Total(c, vcpus, k) <= 1 && W(c, k, vcpus[u]) == 1 && W(c, k, vcpus[v]) == 1 {
      TotalUnique(c, vcpus, u, v, k);
    }
  }

  /** As long as the last wipe of a bitmap was clean: word 0 is part of word 1, the other bits of word 1 are exactly
      those with an owner, and no target has two. */
  lemma ClaimsExclusive(c: Config, inCount: seq<nat>, moves: Schedule, b: Bitmap, t: nat, u: nat, v: nat)
    requires WellFormed(c) && |inCount| == c.n && ValidSchedule(c, moves) && u < c.pool && v < c.pool
    requires LastWipeClean(c, inCount, moves, b)
    ensures var s := After(c, inCount, moves);
            && Word0(b, s.g) <= Word1(b, s.g)
            && (t in Word1(b, s.g) - Word0(b, s.g) <==>
                  exists o :: 0 <= o < c.pool && W(c, Owns(b, t), s.vcpus[o]) == 1)
            && (W(c, Owns(b, t), s.vcpus[u]) == 1 && W(c, Owns(b, t), s.vcpus[v]) == 1 ==> u == v)
  {
    var s := After(c, inCount, moves);
    ClaimsAlways(c, inCount, moves, b);
    forall x: nat
      ensures x in Word0(b, s.g) ==> x in Word1(b, s.g)
    {
      assert Bit(x in Word1(b, s.g)) == Bit(x in Word0(b, s.g)) + Total(c, s.vcpus, Owns(b, x));
    }
    assert Bit(t in Word1(b, s.g)) == Bit(t in Word0(b, s.g)) + Total(c, s.vcpus, Owns(b, t));
    OwnersOf(c, s.vcpus, Owns(b, t), u, v);
  }

  // ---------------------------------------------------------------- once every vcpu is through its first entry

  ghost predicate Settled(c: Config, s: State)
    requires |s.vcpus| == c.pool
  {
    forall v :: 0 <= v < c.pool ==> !FirstEntry(s.vcpus[v])
  }

  /** The stores of a wipe done so far have left empty words. */
  predicate Wiped(g: Shared, r: RestartPc) {
    r.Wipe? ==> (r.k == 1 ==> g.target0 == {}) && (r.k == 3 ==> g.rekick0 == {})
  }

  /** The winner has still to finish the wipe of a bitmap. */
  predicate WipeAhead(s: State, b: Bitmap) {
    && s.h.round.mode.Restarting? && s.h.round.mode.winner < |s.vcpus|
    && var pc := s.vcpus[s.h.round.mode.winner].pc;
       pc == Restart(WonCount) || (pc.Restart? && pc.r.Wipe? && pc.r.k <= SecondStore(b))
  }

  ghost predicate SettledInv(c: Config, inCount: seq<nat>, moves: Schedule)
    requires Layout(c) && |inCount| == c.n && ValidSchedule(c, moves)
  {
    var s := After(c, inCount, moves);
    && RoundInv(c, s) && Settled(c, s)
    && (s.h.round.mode.Restarting? ==> Wiped(s.g, s.vcpus[s.h.round.mode.winner].pc.r))
    && forall b: Bitmap :: WipeAhead(s, b) || LastWipeClean(c, inCount, moves, b)
  }

  lemma EntryLocal(c: Config, v: nat, choice: bool, g: Shared, vc: Vcpu)
    requires Header(c) && SharedOk(c.n, g) && PcOk(c, vc) && !FirstEntry(vc)
    ensures var (_, vc') := Exec(c, v, choice, g, vc); !FirstEntry(vc')
  {
  }

  /** A vcpu that is vacant and through its first entry leaves the bitmaps alone, unless it wipes them. */
  lemma WordsLocal(c: Config, v: nat, choice: bool, g: Shared, vc: Vcpu)
    requires Header(c) && SharedOk(c.n, g) && PcOk(c, vc) && Vacant(vc) && !FirstEntry(vc)
    ensures var (g', vc') := Exec(c, v, choice, g, vc);
            && (!vc.pc.Restart? ==> g'.target0 == g.target0 && g'.rekick0 == g.rekick0)
            && (vc.pc.Restart? && vc'.pc.Restart? ==> Wiped(g', vc'.pc.r))
            && (vc'.pc.Restart? && !vc.pc.Restart? ==> vc'.pc == Restart(WonCount))
  {
  }

  /** The wipe goes on until its stores are done, and a new one begins only with a won round. */
  lemma AheadStep(c: Config, s: State, v: nat, choice: bool, b: Bitmap)
    requires RoundInv(c, s) && v < c.pool
    ensures var s' := Next(c, s, v, choice);
            && (WipeAhead(s, b) && s.vcpus[v].pc != Restart(Wipe(SecondStore(b))) ==> WipeAhead(s', b))
            && (!WipeAhead(s, b) ==> !AtStore(b, s.vcpus[v]))
            && (s.vcpus[v].pc == Restart(Wipe(SecondStore(b))) ==>
                  s.h.round.mode.Restarting? && v == s.h.round.mode.winner)
            && (Wins(c, s, v) ==> WipeAhead(s', b))
  {
  }

  lemma SettledStep(c: Config, s: State, v: nat, choice: bool)
    requires RoundInv(c, s) && v < c.pool && Settled(c, s)
    requires s.h.round.mode.Restarting? ==> Wiped(s.g, s.vcpus[s.h.round.mode.winner].pc.r)
    ensures var s' := Next(c, s, v, choice);
            && RoundInv(c, s') && Settled(c, s')
            && (s'.h.round.mode.Restarting? ==> Wiped(s'.g, s'.vcpus[s'.h.round.mode.winner].pc.r))
  {
    RoundStep(c, s, v, choice);
    EntryLocal(c, v, choice, s.g, s.vcpus[v]);
    if Vacant(s.vcpus[v]) {
      WordsLocal(c, v, choice, s.g, s.vcpus[v]);
    }
  }

  /** Move k of the schedule wins a round, with every vcpu through its first entry. */
  ghost predicate SettledWin(c: Config, inCount: seq<nat>, moves: Schedule, k: nat)
    requires Layout(c) && |inCount| == c.n && ValidSchedule(c, moves) && k < |moves|
  {
    var s := After(c, inCount, moves[..k]);
    Settled(c, s) && Wins(c, s, moves[k].0)
  }

  lemma LastMove(c: Config, inCount: seq<nat>, moves: Schedule)
    requires WellFormed(c) && |inCount| == c.n && ValidSchedule(c, moves) && moves != []
    requires SettledInv(c, inCount, moves[..|moves| - 1]) || SettledWin(c, inCount, moves, |moves| - 1)
    ensures SettledInv(c, inCount, moves)
  {
    var last := |moves| - 1;
    var s := After(c, inCount, moves[..last]);
    var (v, choice) := moves[last];
    RoundAlways(c, inCount, moves[..last]);
    SettledStep(c, s, v, choice);
    forall b: Bitmap
      ensures WipeAhead(After(c, inCount, moves), b) || LastWipeClean(c, inCount, moves, b)
    {
      AheadStep(c, s, v, choice, b);
    }
  }

  /** From the first round won after every vcpu has been through its first entry, every wipe is clean, so claims stay
      exclusive for the rest of the run, except while a wipe is under way. */
  lemma {:induction false} SettledForever(c: Config, inCount: seq<nat>, moves: Schedule, k: nat, b: Bitmap)
    requires WellFormed(c) && |inCount| == c.n && ValidSchedule(c, moves) && k < |moves|
    requires SettledWin(c, inCount, moves, k)
    ensures SettledInv(c, inCount, moves)
    ensures WipeAhead(After(c, inCount, moves), b) || LastWipeClean(c, inCount, moves, b)
    decreases |moves|
  {
    var m := moves[..|moves| - 1];
    if k < |m| {
      assert m[..k] == moves[..k];
      SettledForever(c, inCount, m, k, b);
    }
    LastMove(c, inCount, moves);
  }
}
