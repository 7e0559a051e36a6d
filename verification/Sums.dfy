/** Finite sums of natural numbers, the arithmetic behind every ledger of the scheduler. */
module Sums {

  function Positive(x: int): nat {
    if x > 0 then x else 0
  }

  function Least(x: nat, y: nat): nat {
    if x < y then x else y
  }

  function Sum(ws: seq<nat>): nat {
    if ws == [] then 0 else ws[0] + Sum(ws[1..])
  }

  lemma {:induction false} SumUpdate(ws: seq<nat>, i: nat, x: nat)
    requires i < |ws|
    ensures Sum(ws[i := x]) + ws[i] == Sum(ws) + x
  {
    if i == 0 {
      assert ws[0 := x][1..] == ws[1..];
    } else {
      assert ws[i := x][1..] == ws[1..][i - 1 := x];
      SumUpdate(ws[1..], i - 1, x);
    }
  }

  lemma {:induction false} SumAtLeast(ws: seq<nat>, i: nat)
    requires i < |ws|
    ensures ws[i] <= Sum(ws)
  {
    if i > 0 {
      SumAtLeast(ws[1..], i - 1);
    }
  }

  lemma {:induction false} SumTwo(ws: seq<nat>, i: nat, j: nat)
    requires i < j < |ws|
    ensures ws[i] + ws[j] <= Sum(ws)
  {
    if i > 0 {
      SumTwo(ws[1..], i - 1, j - 1);
    } else {
      SumAtLeast(ws[1..], j - 1);
    }
  }

  lemma {:induction false} SumZero(ws: seq<nat>)
    requires forall i :: 0 <= i < |ws| ==> ws[i] == 0
    ensures Sum(ws) == 0
  {
    if ws != [] {
      SumZero(ws[1..]);
    }
  }

  /** Bits that add up to their number are all one. */
  lemma {:induction false} SumFull(ws: seq<nat>)
    requires forall i :: 0 <= i < |ws| ==> ws[i] <= 1
    ensures Sum(ws) <= |ws|
    ensures Sum(ws) == |ws| <==> forall i :: 0 <= i < |ws| ==> ws[i] == 1
  {
    if ws != [] {
      SumFull(ws[1..]);
      assert forall i :: 0 <= i < |ws[1..]| ==> ws[1..][i] == ws[i + 1];
      if forall i :: 0 <= i < |ws[1..]| ==> ws[1..][i] == 1 {
        assert forall i :: 1 <= i < |ws| ==> ws[i] == ws[1..][i - 1];
      }
    }
  }
}
