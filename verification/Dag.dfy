/** The function graph that the host leaves in `metadata->dag`, one flat table of bytes.

    With n nodes, entries [0, n) are in-degrees, entries [n, 2n] are edge offsets, and the edge targets follow from
    entry 2n+1 on. */
module Dag {

  const NULL_FUNC: nat := 255

  datatype Config = Config(pool: nat, n: nat, start: nat, dag: seq<nat>)

  /** Arithmetic of `uint8_t`. */
  function U8(x: int): nat {
    x % 256
  }

  function Base(c: Config): nat {
    2 * c.n + 1
  }

  /** As much of the layout as a single step of the scheduler looks at. */
  predicate Header(c: Config) {
    && c.start < c.n < NULL_FUNC
    && 2 * c.n < |c.dag|
    && forall i :: Base(c) <= i < |c.dag| ==> c.dag[i] < c.n
  }

  function FirstEdge(c: Config, fn: nat): nat
    requires fn < c.n && |c.dag| > 2 * c.n
  {
    U8(c.dag[c.n + fn] + 2 * c.n + 1)
  }

  function EndEdge(c: Config, fn: nat): nat
    requires fn < c.n && |c.dag| > 2 * c.n
  {
    U8(c.dag[c.n + fn + 1] + 2 * c.n + 1)
  }

  ghost predicate HasEdge(c: Config, fn: nat, i: nat)
    requires fn < c.n && |c.dag| > 2 * c.n
  {
    FirstEdge(c, fn) <= i < EndEdge(c, fn)
  }

  /** The edges from position `from` on that lead to `f` and are not in `done`. */
  function Pending(dag: seq<nat>, from: nat, done: set<nat>, f: nat): nat
    decreases |dag| - from
  {
    if from >= |dag| then 0
    else (if dag[from] == f && from !in done then 1 else 0) + Pending(dag, from + 1, done, f)
  }

  /** The in-edges of `f` that no finished function has processed yet. */
  function Unprocessed(c: Config, done: set<nat>, f: nat): nat {
    Pending(c.dag, Base(c), done, f)
  }

  /** The shape of the table, before anything is said about the graph in it. */
  ghost predicate Layout(c: Config) {
    && 1 <= c.pool <= 63
    && Header(c)
    && |c.dag| <= 255
    && c.dag[c.n] == 0
    && c.dag[2 * c.n] + Base(c) == |c.dag|
    && (forall f :: c.n <= f < 2 * c.n ==> c.dag[f] <= c.dag[f + 1])
  }

  /** Every edge leads to a function of higher rank. */
  ghost predicate Ranked(c: Config, rank: seq<nat>)
    requires Layout(c)
  {
    && |rank| == c.n
    && forall f: nat, i: nat :: f < c.n && HasEdge(c, f, i) && Base(c) <= i < |c.dag| ==> rank[f] < rank[c.dag[i]]
  }

  /** A table that the scheduler is meant to run: `dag[f]` is the in-degree of f, the start function is the only
      source, and there is no cycle. */
  ghost predicate WellFormed(c: Config) {
    && Layout(c)
    && (forall f :: 0 <= f < c.n ==> c.dag[f] == Unprocessed(c, {}, f))
    && (forall f :: 0 <= f < c.n ==> (c.dag[f] == 0 <==> f == c.start))
    && (exists rank :: Ranked(c, rank))
  }

  lemma {:induction false} OffsetsSorted(c: Config, i: nat, j: nat)
    requires Layout(c) && c.n <= i <= j <= 2 * c.n
    ensures c.dag[i] <= c.dag[j]
    decreases j - i
  {
    if i < j {
      OffsetsSorted(c, i, j - 1);
    }
  }

  /** The `uint8_t` bounds of the edge loop do not wrap, and the edges of a function lie inside the table. */
  lemma EdgeBounds(c: Config, fn: nat)
    requires Layout(c) && fn < c.n
    ensures FirstEdge(c, fn) == c.dag[c.n + fn] + Base(c)
    ensures EndEdge(c, fn) == c.dag[c.n + fn + 1] + Base(c)
    ensures Base(c) <= FirstEdge(c, fn) <= EndEdge(c, fn) <= |c.dag|
  {
    OffsetsSorted(c, c.n + fn, c.n + fn + 1);
    OffsetsSorted(c, c.n + fn + 1, 2 * c.n);
    InByte(c.dag[c.n + fn] + Base(c));
    InByte(c.dag[c.n + fn + 1] + Base(c));
  }

  lemma InByte(x: nat)
    ensures x < 256 ==> U8(x) == x
  {
  }

  /** No edge belongs to two functions. */
  lemma EdgeOwner(c: Config, f: nat, g: nat, i: nat)
    requires Layout(c) && f < c.n && g < c.n
    requires HasEdge(c, f, i) && HasEdge(c, g, i)
    ensures f == g
  {
    EdgeBounds(c, f);
    EdgeBounds(c, g);
    if f < g {
      OffsetsSorted(c, c.n + f + 1, c.n + g);
    } else if g < f {
      OffsetsSorted(c, c.n + g + 1, c.n + f);
    }
  }

  /** Every edge of the table belongs to a function. */
  lemma {:induction false} EdgeSource(c: Config, i: nat, k: nat) returns (f: nat)
    requires Layout(c) && k < c.n
    requires Base(c) <= i < c.dag[c.n + k + 1] + Base(c)
    ensures f <= k && HasEdge(c, f, i)
  {
    EdgeBounds(c, k);
    if FirstEdge(c, k) <= i {
      f := k;
    } else {
      f := EdgeSource(c, i, k - 1);
    }
  }

  lemma {:induction false} PendingAdd(dag: seq<nat>, from: nat, done: set<nat>, i: nat, f: nat)
    requires from <= i < |dag| && i !in done
    ensures Pending(dag, from, done + {i}, f) + (if dag[i] == f then 1 else 0) == Pending(dag, from, done, f)
    decreases |dag| - from
  {
    if from == i {
      PendingAbove(dag, from + 1, done, i, f);
    } else {
      PendingAdd(dag, from + 1, done, i, f);
    }
  }

  lemma {:induction false} PendingAbove(dag: seq<nat>, from: nat, done: set<nat>, i: nat, f: nat)
    requires i < from
    ensures Pending(dag, from, done + {i}, f) == Pending(dag, from, done, f)
    decreases |dag| - from
  {
    if from < |dag| {
      PendingAbove(dag, from + 1, done, i, f);
    }
  }

  /** A function waits for nothing exactly when all its in-edges are processed. */
  lemma {:induction false} PendingNone(dag: seq<nat>, from: nat, done: set<nat>, f: nat)
    ensures Pending(dag, from, done, f) == 0
       <==> forall i :: from <= i < |dag| && dag[i] == f ==> i in done
    decreases |dag| - from
  {
    if from < |dag| {
      PendingNone(dag, from + 1, done, f);
    }
  }
}
