/** A machine word of flags, as the set of the positions of its one bits.

    `lock bts` and `lock btr` insert and remove a position, and `bsf` yields the least one. */
module Bits {

  type Word = set<nat>

  /** Going down from any one bit leads to the lowest. */
  lemma {:induction false} LowestFrom(s: Word, x: nat) returns (low: nat)
    requires x in s
    ensures low in s && forall y :: y in s ==> low <= y
    decreases x
  {
    if y :| y in s && y < x {
      low := LowestFrom(s, y);
    } else {
      low := x;
    }
  }

  lemma LowestExists(s: Word)
    requires s != {}
    ensures exists x :: x in s && forall y :: y in s ==> x <= y
  {
    var x :| x in s;
    var low := LowestFrom(s, x);
  }

  /** `bsf` on a word that is not zero. */
  ghost function Lowest(s: Word): (x: nat)
    requires s != {}
    ensures x in s
    ensures forall y :: y in s ==> x <= y
  {
    LowestExists(s);
    var x :| x in s && forall y :: y in s ==> x <= y;
    x
  }
}
