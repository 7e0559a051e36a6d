/** The run queue and the graph walk of src/sched.c in the hands of one vcpu alone: the loops themselves. */
module SchedQueue {
  import opened Bits
  import opened Dag
  import opened SchedModel

  const WORDS: nat := 4

  /** `bsf`: the position of the lowest one bit. */
  method Bsf(word: Word) returns (b: nat)
    requires word != {} && forall x :: x in word ==> x < 64
    ensures b in word && forall x :: x in word ==> b <= x
  {
    b := 0;
    while b !in word
      invariant forall x :: x in word ==> b <= x
      invariant b <= 64
      decreases 64 - b
    {
      var x :| x in word;
      b := b + 1;
    }
  }

  class RunQueue {
    const words: array<Word>  // bm_run_fn
    var runnable: int         // runnable_tasks

    ghost predicate Valid()
      reads this, words
    {
      words.Length == WORDS && forall w :: 0 <= w < WORDS ==> forall b :: b in words[w] ==> b < 64
    }

    ghost predicate Has(fn: nat)
      requires Valid()
      reads this, words
    {
      fn < 64 * WORDS && fn % 64 in words[fn / 64]
    }

    ghost function Contents(): (s: set<nat>)
      requires Valid()
      reads this, words
      ensures forall fn :: fn in s <==> Has(fn)
    {
      set fn: nat | fn < 64 * WORDS && Has(fn)
    }

    constructor ()
      ensures Valid() && fresh(words) && runnable == 0 && Contents() == {}
    {
      words := new Word[WORDS](_ => {});
      runnable := 0;
    }

    /** `add_runnable_fn`. */
    method AddRunnableFn(fn: nat)
      requires Valid() && fn < 64 * WORDS
      modifies this, words
      ensures Valid() && runnable == old(runnable) + 1
      ensures Contents() == old(Contents()) + {fn}
    {
      runnable := runnable + 1;
      words[fn / 64] := words[fn / 64] + {fn % 64};
    }

    /** `get_work`: the least function in the queue, taken out of it, or -1 exactly when there is none. */
    method GetWork() returns (rax: int)
      requires Valid()
      modifies words
      ensures Valid() && rax >= -1
      ensures rax == -1 <==> old(Contents()) == {}
      ensures rax >= 0 ==> rax in old(Contents()) && forall g :: g in old(Contents()) ==> rax <= g
      ensures Contents() == old(Contents()) - (if rax >= 0 then {rax} else {})
    {
      var w := 0;
      while w < WORDS
        invariant w <= WORDS && forall i :: 0 <= i < w ==> words[i] == {}
        invariant forall i :: 0 <= i < WORDS ==> words[i] == old(words[i])
      {
        if words[w] != {} {
          var b := Bsf(words[w]);
          words[w] := words[w] - {b};
          rax := 64 * w + b;
          forall g: nat
            ensures Has(g) <==> old(Has(g)) && g != rax
            ensures old(Has(g)) ==> rax <= g
          {
            if g < 64 * WORDS && g / 64 == w {
              assert g == 64 * w + g % 64;
            }
          }
          assert old(Has(rax));
          return;
        }
        w := w + 1;
      }
      rax := -1;
    }
  }

  /** How many of the edges in [lo, hi) lead to f. */
  function EdgesTo(dag: seq<nat>, lo: nat, hi: nat, f: nat): nat
    requires hi <= |dag|
    decreases hi
  {
    if hi <= lo then 0 else EdgesTo(dag, lo, hi - 1, f) + (if dag[hi - 1] == f then 1 else 0)
  }

  lemma {:induction false} EdgesToMore(dag: seq<nat>, lo: nat, mid: nat, hi: nat, f: nat)
    requires mid <= hi <= |dag|
    ensures EdgesTo(dag, lo, mid, f) <= EdgesTo(dag, lo, hi, f)
    ensures lo <= mid < hi && dag[mid] == f ==> EdgesTo(dag, lo, mid, f) < EdgesTo(dag, lo, hi, f)
    decreases hi
  {
    if mid < hi {
      EdgesToMore(dag, lo, mid, hi - 1, f);
    }
  }

  /** The functions whose in-count the edges in [lo, hi) bring to zero. */
  function Zeroed(c: Config, lo: nat, hi: nat, inCount: seq<nat>): set<nat>
    requires hi <= |c.dag| && |inCount| == c.n
  {
    set f: nat | f < c.n && EdgesTo(c.dag, lo, hi, f) == inCount[f] && inCount[f] > 0
  }

  /** One edge: `lock decb`, and the publication when the result is zero. */
  method ProcessEdge(inCount: array<nat>, q: RunQueue, out: nat)
    requires q.Valid() && out < inCount.Length && out < 64 * WORDS && 0 < inCount[out] < 256
    modifies inCount, q, q.words
    ensures q.Valid() && inCount[..] == old(inCount[..])[out := old(inCount[out]) - 1]
    ensures q.Contents() == old(q.Contents()) + (if old(inCount[out]) == 1 then {out} else {})
  {
    inCount[out] := Decb(inCount[out]);
    if inCount[out] == 0 {
      q.AddRunnableFn(out);
    }
  }

  /** `process_sched_dag`: each successor's in-count falls by the edges that lead to it, and exactly the successors
      whose in-count reaches zero become runnable. */
  method ProcessSchedDag(c: Config, fn: nat, inCount: array<nat>, q: RunQueue)
    requires Header(c) && ProcOk(c, fn, CountFree) && inCount.Length == c.n && q.Valid()
    requires forall f :: 0 <= f < c.n ==> inCount[f] < 256
    requires forall f :: 0 <= f < c.n ==> EdgesTo(c.dag, FirstEdge(c, fn), EndEdge(c, fn), f) <= inCount[f]
    modifies inCount, q, q.words
    ensures q.Valid()
    ensures forall f :: 0 <= f < c.n ==>
              inCount[f] == old(inCount[f]) - EdgesTo(c.dag, FirstEdge(c, fn), EndEdge(c, fn), f)
    ensures q.Contents() == old(q.Contents()) + Zeroed(c, FirstEdge(c, fn), EndEdge(c, fn), old(inCount[..]))
  {
    var (s, e) := (FirstEdge(c, fn), EndEdge(c, fn));
    ghost var before := inCount[..];
    var i := s;
    while i < e
      invariant s <= i <= e && q.Valid()
      invariant forall f :: 0 <= f < c.n ==> inCount[..][f] == before[f] - EdgesTo(c.dag, s, i, f)
      invariant q.Contents() == old(q.Contents()) + Zeroed(c, s, i, before)
    {
      var out := c.dag[i];
      EdgesToMore(c.dag, s, i, e, out);
      ProcessEdge(inCount, q, out);
      ZeroedStep(c, s, i, before, out);
      i := i + 1;
    }
  }

  lemma ZeroedStep(c: Config, lo: nat, i: nat, inCount: seq<nat>, out: nat)
    requires Header(c) && |inCount| == c.n && lo <= i < |c.dag| && Base(c) <= i && c.dag[i] == out
    requires EdgesTo(c.dag, lo, i, out) < inCount[out]
    ensures Zeroed(c, lo, i + 1, inCount)
         == Zeroed(c, lo, i, inCount) + (if EdgesTo(c.dag, lo, i, out) + 1 == inCount[out] then {out} else {})
  {
    assert forall f: nat :: f != out ==> EdgesTo(c.dag, lo, i + 1, f) == EdgesTo(c.dag, lo, i, f);
  }
}
