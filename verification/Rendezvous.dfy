/** Boot: the rendezvous of main on `barrier_bm`. Every helper clears its bit once and halts; vcpu 0 cuts the word
    down to the pool, clears its own bit, and spins until the word is zero. */
module Rendezvous {
  import opened Bits

  const BITS: nat := 64

  datatype Pc = CutDown | ClearOwn | Spin | Initialise | Announce | Halted

  datatype State = State(word: Word, pcs: seq<Pc>)

  function Below(n: nat): (s: Word)
    ensures forall x: nat :: x in s <==> x < n
  {
    if n == 0 then {} else Below(n - 1) + {n - 1}
  }

  function Next(s: State, v: nat): State
    requires v < |s.pcs|
  {
    match s.pcs[v]
    case CutDown => State(s.word * Below(|s.pcs|), s.pcs[v := ClearOwn])
    case ClearOwn => State(s.word - {v}, s.pcs[v := Spin])
    case Spin => s.(pcs := s.pcs[v := if s.word != {} then Spin else Initialise])
    case Announce => State(s.word - {v}, s.pcs[v := Halted])
    case _ => s
  }

  function Start(n: nat): State {
    State(Below(BITS), seq(n, v => if v == 0 then CutDown else Announce))
  }

  ghost function After(n: nat, moves: seq<nat>): (s: State)
    requires forall i :: 0 <= i < |moves| ==> moves[i] < n
    ensures |s.pcs| == n
  {
    if moves == [] then Start(n) else Next(After(n, moves[..|moves| - 1]), moves[|moves| - 1])
  }

  /** The word holds the helpers that have not announced themselves, and until vcpu 0 has cut it down the bits that
      belong to nobody. */
  ghost predicate WordExact(s: State) {
    && 1 <= |s.pcs| <= 63
    && s.pcs[0] != Announce && s.pcs[0] != Halted
    && (forall v :: 1 <= v < |s.pcs| ==> s.pcs[v] == Announce || s.pcs[v] == Halted)
    && forall x: nat :: x in s.word <==>
         if x == 0 then s.pcs[0] == CutDown || s.pcs[0] == ClearOwn
         else if x < |s.pcs| then s.pcs[x] == Announce
         else x < BITS && s.pcs[0] == CutDown
  }

  ghost predicate AllAnnounced(s: State) {
    forall v :: 1 <= v < |s.pcs| ==> s.pcs[v] == Halted
  }

  lemma {:induction false} WordAlways(n: nat, moves: seq<nat>)
    requires 1 <= n <= 63 && forall i :: 0 <= i < |moves| ==> moves[i] < n
    ensures WordExact(After(n, moves))
    ensures After(n, moves).pcs[0] == Initialise ==> AllAnnounced(After(n, moves))
  {
    if moves != [] {
      WordAlways(n, moves[..|moves| - 1]);
    }
  }

  /** Vcpu 0 leaves its loop exactly when every helper has announced itself, in whatever order the announcements and the
      cut come; and it initialises the scheduler only behind all of them. */
  lemma LeavesWhenAllAnnounced(n: nat, moves: seq<nat>)
    requires 1 <= n <= 63 && forall i :: 0 <= i < |moves| ==> moves[i] < n
    ensures var s := After(n, moves);
            && (s.pcs[0] == Spin ==> (Next(s, 0).pcs[0] == Initialise <==> AllAnnounced(s)))
            && (s.pcs[0] == Initialise ==> AllAnnounced(s))
  {
    WordAlways(n, moves);
    var s := After(n, moves);
    if s.word != {} {
      var x :| x in s.word;
    }
  }
}
