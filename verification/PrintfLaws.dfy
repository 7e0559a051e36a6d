/** Laws of the printed text: exact lengths, reading back what was printed, and the parser against a printer of
    specifiers. */
module PrintfLaws {
  import opened PrintfSpec

  // ---------------------------------------------------------------- lengths

  /** The number of digits and zeros in the field. */
  function PaddedSize(digits: nat, negative: bool, prec: nat, width: nat, f: Flags): nat {
    if LEFT in f then digits
    else
      var n := Max(digits, Min(prec, BUFFER_SIZE));
      if ZEROPAD in f then Max(n, Min(ZeroWidth(negative, width, f), BUFFER_SIZE)) else n
  }

  /** The sign is dropped when digits and zeros leave it no place in the buffer. */
  predicate SignFits(digits: nat, negative: bool, prec: nat, width: nat, f: Flags) {
    PaddedSize(digits, negative, prec, width, f) < BUFFER_SIZE
  }

  /** The exact length of a number without the alternate form, for any flags, width and precision. */
  lemma NumberLength(value: nat, negative: bool, base: nat, prec: nat, width: nat, f: Flags)
    requires 2 <= base <= 16 && HASH !in f
    ensures var d := |NumberDigits(value, base, f)|;
            var n := PaddedSize(d, negative, prec, width, f);
            var signed := if Signed(negative, f) && SignFits(d, negative, prec, width, f) then 1 else 0;
            |NumberText(value, negative, base, prec, width, f)|
            == if LEFT in f || ZEROPAD !in f then Max(n + signed, width) else n + signed
  {
    PlainText(value, negative, base, prec, width, f);
    var rev := PadZeros(NumberDigits(value, base, f), negative, prec, width, f);
    PadSize(NumberDigits(value, base, f), negative, prec, width, f);
    SignSize(rev, negative, f);
    FieldSize(AddSign(rev, negative, f), ZeroWidth(negative, width, f), f);
  }

  lemma PadSize(rev: string, negative: bool, prec: nat, width: nat, f: Flags)
    requires |rev| <= BUFFER_SIZE
    ensures |PadZeros(rev, negative, prec, width, f)| == PaddedSize(|rev|, negative, prec, width, f) <= BUFFER_SIZE
  {
  }

  lemma SignSize(rev: string, negative: bool, f: Flags)
    ensures |AddSign(rev, negative, f)| == |rev| + if Signed(negative, f) && |rev| < BUFFER_SIZE then 1 else 0
  {
  }

  lemma FieldSize(rev: string, width: nat, f: Flags)
    ensures |Field(rev, width, f)| == if LEFT in f || ZEROPAD !in f then Max(|rev|, width) else |rev|
  {
  }

  /** Below 33 columns of width and 32 of precision: the wider of the field and of the signed number. */
  lemma NumberLengthSmall(value: nat, negative: bool, base: nat, prec: nat, width: nat, f: Flags)
    requires 2 <= base <= 16 && HASH !in f && width <= 32 && prec <= 31
    requires Signed(negative, f) ==> |NumberDigits(value, base, f)| < BUFFER_SIZE
    ensures var signed := if Signed(negative, f) then 1 else 0;
            |NumberText(value, negative, base, prec, width, f)|
            == Max(width, signed + Max(|NumberDigits(value, base, f)|, if LEFT in f then 0 else prec))
  {
    hide NumberText, NumberDigits;
    NumberLength(value, negative, base, prec, width, f);
  }

  lemma AlternateSize(rev: string, base: nat, prec: nat, width: nat, f: Flags)
    requires |rev| <= BUFFER_SIZE
    ensures |Alternate(rev, base, prec, width, f)| <= BUFFER_SIZE
  {
  }

  /** The number buffer is never overfull, whatever the flags (the alternate form included), width and precision. */
  lemma AssembleFits(rev: string, negative: bool, base: nat, prec: nat, width: nat, f: Flags)
    requires |rev| <= BUFFER_SIZE
    ensures |Assemble(rev, negative, base, prec, width, f)| <= BUFFER_SIZE
  {
    var padded := PadZeros(rev, negative, prec, width, f);
    PadSize(rev, negative, prec, width, f);
    var w := ZeroWidth(negative, width, f);
    AlternateSize(padded, base, prec, w, f);
    SignSize(padded, negative, f);
    SignSize(Alternate(padded, base, prec, w, f), negative, f);
  }

  lemma StringLength(s: string, prec: nat, width: nat, f: Flags)
    ensures |StringText(s, prec, width, f)| == Max(width, if PRECISION in f then Min(|s|, prec) else |s|)
  {
  }

  // ---------------------------------------------------------------- reading a numeral

  function DigitOf(ch: char): nat {
    if '0' <= ch <= '9' then (ch - '0') as nat
    else if 'a' <= ch <= 'f' then (ch - 'a') as nat + 10
    else if 'A' <= ch <= 'F' then (ch - 'A') as nat + 10
    else 0
  }

  /** The value of a numeral, most significant digit first. */
  function Numeral(s: string, base: nat): nat {
    if s == "" then 0 else Numeral(s[..|s| - 1], base) * base + DigitOf(s[|s| - 1])
  }

  function Power(base: nat, n: nat): nat {
    if n == 0 then 1 else base * Power(base, n - 1)
  }

  lemma {:induction false} NumeralLast(s: string, ch: char, base: nat)
    ensures Numeral(s + [ch], base) == Numeral(s, base) * base + DigitOf(ch)
  {
    assert (s + [ch])[..|s|] == s;
  }

  /** The low digits of a number, seen from the next one. */
  lemma LowDigits(value: nat, base: nat, m: nat)
    requires base > 0 && m > 0 && base * m > 0
    ensures Remainder(Quotient(value, base), m) * base + Remainder(value, base) == Remainder(value, base * m)
  {
    var q := Quotient(value, base);
    Division(value, base);
    Division(q, m);
    LowParts(value, base, m, q, Remainder(value, base), Quotient(q, m), Remainder(q, m));
  }

  lemma LowParts(value: nat, b: nat, m: nat, q: nat, r: nat, k: nat, t: nat)
    requires value == b * q + r && q == m * k + t && r < b && t < m && b * m > 0
    ensures t * b + r == Remainder(value, b * m)
  {
    Regroup(b, m, k, t, r);
    DivisionUnique(value, b * m, k, b * t + r);
  }

  lemma Regroup(b: nat, m: nat, k: nat, t: nat, r: nat)
    requires t < m && r < b
    ensures b * (m * k + t) + r == (b * m) * k + (b * t + r)
    ensures b * t + r < b * m
  {
    Distribute(b, m * k, t);
    Associate(b, m, k);
    Distribute(b, t, 1);
    Product(b, t + 1, m);
  }

  lemma Associate(x: nat, y: nat, z: nat)
    ensures x * (y * z) == (x * y) * z
  {
  }

  lemma Distribute(x: nat, y: nat, z: nat)
    ensures x * (y + z) == x * y + x * z
  {
  }

  lemma {:induction false} PowerPositive(base: nat, n: nat)
    requires base >= 1
    ensures Power(base, n) >= 1
  {
    if n > 0 {
      PowerPositive(base, n - 1);
      Product(base, 1, Power(base, n - 1));
    }
  }

  /** One more digit behind a numeral of the quotient. */
  lemma NumeralStep(value: nat, base: nat, upper: bool, high: string, m: nat)
    requires 2 <= base <= 16 && m > 0 && base * m > 0
    requires Numeral(high, base) == Remainder(Quotient(value, base), m)
    ensures Numeral(high + [DigitChar(Remainder(value, base), upper)], base) == Remainder(value, base * m)
  {
    NumeralLast(high, DigitChar(Remainder(value, base), upper), base);
    LowDigits(value, base, m);
  }

  /** The digits spell the value, as far as there was room for them. */
  lemma {:induction false} NumeralOfDigits(value: nat, base: nat, upper: bool, room: nat)
    requires 2 <= base <= 16 && room > 0
    ensures Power(base, room) > 0
    ensures Numeral(Reverse(Digits(value, base, upper, room)), base) == Remainder(value, Power(base, room))
    decreases room
  {
    PowerPositive(base, room - 1);
    PowerPositive(base, room);
    var q := Quotient(value, base);
    var next := "";
    if q > 0 && room > 1 {
      next := Digits(q, base, upper, room - 1);
      NumeralOfDigits(q, base, upper, room - 1);
    }
    assert Digits(value, base, upper, room)[1..] == next;
    NumeralStep(value, base, upper, Reverse(next), Power(base, room - 1));
  }

  // ---------------------------------------------------------------- the parts of a number

  lemma {:induction false} ReverseJoin(a: string, b: string)
    ensures Reverse(a + b) == Reverse(b) + Reverse(a)
  {
    if a == "" {
      assert a + b == b;
      assert Reverse(b) + "" == Reverse(b);
    } else {
      assert (a + b)[1..] == a[1..] + b;
      ReverseJoin(a[1..], b);
    }
  }

  lemma {:induction false} ReverseRepeat(ch: char, n: nat)
    ensures Reverse(Repeat(ch, n)) == Repeat(ch, n)
  {
    if n > 0 {
      assert Repeat(ch, n)[1..] == Repeat(ch, n - 1);
      ReverseRepeat(ch, n - 1);
      assert Repeat(ch, n - 1) + [ch] == Repeat(ch, n);
    }
  }

  lemma {:induction false} LeadingZeros(n: nat, s: string, base: nat)
    ensures Numeral(Repeat('0', n) + s, base) == Numeral(s, base)
  {
    if s != "" {
      LeadingZeros(n, s[..|s| - 1], base);
      assert Repeat('0', n) + s == (Repeat('0', n) + s[..|s| - 1]) + [s[|s| - 1]];
      NumeralLast(Repeat('0', n) + s[..|s| - 1], s[|s| - 1], base);
    } else if n > 0 {
      LeadingZeros(n - 1, "", base);
      assert Repeat('0', n) + "" == (Repeat('0', n - 1) + "") + ['0'];
      NumeralLast(Repeat('0', n - 1) + "", '0', base);
    }
  }

  predicate NoSpace(s: string) {
    forall i :: 0 <= i < |s| ==> s[i] != ' ' && s[i] != '-' && s[i] != '+'
  }

  lemma {:induction false} DigitsNoSpace(value: nat, base: nat, upper: bool, room: nat)
    requires 2 <= base <= 16 && room > 0
    ensures NoSpace(Digits(value, base, upper, room))
    decreases room
  {
    if Quotient(value, base) > 0 && room > 1 {
      DigitsNoSpace(Quotient(value, base), base, upper, room - 1);
    }
  }

  lemma {:induction false} ReverseNoSpace(s: string)
    requires NoSpace(s)
    ensures NoSpace(Reverse(s))
  {
    if s != "" {
      ReverseNoSpace(s[1..]);
    }
  }

  /** Zeros in front of a number change neither its value nor its characters. */
  lemma FillKeeps(rev: string, target: nat, base: nat)
    requires NoSpace(rev)
    ensures NoSpace(FillZeros(rev, target))
    ensures Numeral(Reverse(FillZeros(rev, target)), base) == Numeral(Reverse(rev), base)
  {
    var n := Min(target, BUFFER_SIZE) - |rev|;
    if n > 0 {
      ReverseJoin(rev, Repeat('0', n));
      ReverseRepeat('0', n);
      LeadingZeros(n, Reverse(rev), base);
    } else {
      assert rev + Repeat('0', n) == rev;
    }
  }

  lemma PadKeeps(rev: string, negative: bool, prec: nat, width: nat, f: Flags, base: nat)
    requires NoSpace(rev)
    ensures NoSpace(PadZeros(rev, negative, prec, width, f))
    ensures Numeral(Reverse(PadZeros(rev, negative, prec, width, f)), base) == Numeral(Reverse(rev), base)
    ensures |rev| <= BUFFER_SIZE ==>
              |PadZeros(rev, negative, prec, width, f)| == PaddedSize(|rev|, negative, prec, width, f)
  {
    hide Numeral, Reverse;
    FillKeeps(rev, prec, base);
    FillKeeps(FillZeros(rev, prec), ZeroWidth(negative, width, f), base);
  }

  // ---------------------------------------------------------------- printing and reading back

  function StripLeft(s: string): string {
    if s != "" && s[0] == ' ' then StripLeft(s[1..]) else s
  }

  function StripRight(s: string): string {
    if s != "" && s[|s| - 1] == ' ' then StripRight(s[..|s| - 1]) else s
  }

  /** A reader of signed numerals: it skips the spaces on either side, takes a sign, and evaluates the rest. */
  function ReadBack(s: string, base: nat): (bool, nat) {
    var t := StripRight(StripLeft(s));
    if t != "" && t[0] == '-' then (true, Numeral(t[1..], base))
    else if t != "" && t[0] == '+' then (false, Numeral(t[1..], base))
    else (false, Numeral(t, base))
  }

  lemma {:induction false} SkipLeft(n: nat, s: string)
    requires s == "" || s[0] != ' '
    ensures StripLeft(Repeat(' ', n) + s) == s
  {
    if n > 0 {
      assert (Repeat(' ', n) + s)[1..] == Repeat(' ', n - 1) + s;
      SkipLeft(n - 1, s);
    } else {
      assert Repeat(' ', 0) + s == s;
    }
  }

  lemma {:induction false} SkipRight(s: string, n: nat)
    requires s == "" || s[|s| - 1] != ' '
    ensures StripRight(s + Repeat(' ', n)) == s
  {
    if n > 0 {
      assert (s + Repeat(' ', n))[..|s| + n - 1] == s + Repeat(' ', n - 1);
      SkipRight(s, n - 1);
    } else {
      assert s + Repeat(' ', 0) == s;
    }
  }

  /** A core in its field, read without the field. */
  lemma StripField(a: nat, core: string, b: nat)
    requires core != "" ==> core[0] != ' ' && core[|core| - 1] != ' '
    ensures StripRight(StripLeft(Repeat(' ', a) + core + Repeat(' ', b))) == core
  {
    if core == "" {
      assert Repeat(' ', a) + core + Repeat(' ', b) == Repeat(' ', a + b) + "";
      SkipLeft(a + b, "");
    } else {
      assert Repeat(' ', a) + core + Repeat(' ', b) == Repeat(' ', a) + (core + Repeat(' ', b));
      SkipLeft(a, core + Repeat(' ', b));
      SkipRight(core, b);
    }
  }

  /** A reversed core in its field: the field's spaces, the core the right way round, the field's spaces. */
  lemma FieldRead(rev: string, width: nat, f: Flags)
    requires var core := Reverse(rev); core != "" ==> core[0] != ' ' && core[|core| - 1] != ' '
    ensures StripRight(StripLeft(Field(rev, width, f))) == Reverse(rev)
  {
    var n := if width > |rev| then width - |rev| else 0;
    assert Repeat(' ', width - |rev|) == Repeat(' ', n);
    StripField(if LEFT !in f && ZEROPAD !in f then n else 0, Reverse(rev), if LEFT in f then n else 0);
  }

  /** A space in the sign's place reads like one more space of the field. */
  lemma FieldReadSpace(rev: string, width: nat, f: Flags)
    requires NoSpace(Reverse(rev))
    ensures StripRight(StripLeft(Field(rev + [' '], width, f))) == Reverse(rev)
  {
    var n := if width > |rev| + 1 then width - (|rev| + 1) else 0;
    assert Repeat(' ', width - |rev + [' ']|) == Repeat(' ', n);
    ReverseJoin(rev, [' ']);
    assert Reverse([' ']) == [' '];
    var a := if LEFT !in f && ZEROPAD !in f then n else 0;
    assert Repeat(' ', a) + ([' '] + Reverse(rev)) == Repeat(' ', a + 1) + Reverse(rev);
    StripField(a + 1, Reverse(rev), if LEFT in f then n else 0);
  }

  lemma UnsignedRead(rev: string, width: nat, f: Flags, base: nat)
    requires NoSpace(rev)
    ensures ReadBack(Field(rev, width, f), base) == (false, Numeral(Reverse(rev), base))
  {
    ReverseNoSpace(rev);
    FieldRead(rev, width, f);
  }

  lemma MarkedRead(rev: string, ch: char, width: nat, f: Flags, base: nat)
    requires NoSpace(rev) && (ch == '-' || ch == '+')
    ensures ReadBack(Field(rev + [ch], width, f), base) == (ch == '-', Numeral(Reverse(rev), base))
  {
    ReverseNoSpace(rev);
    ReverseJoin(rev, [ch]);
    assert Reverse([ch]) == [ch];
    FieldRead(rev + [ch], width, f);
    assert ([ch] + Reverse(rev))[1..] == Reverse(rev);
  }

  lemma SpacedRead(rev: string, width: nat, f: Flags, base: nat)
    requires NoSpace(rev)
    ensures ReadBack(Field(rev + [' '], width, f), base) == (false, Numeral(Reverse(rev), base))
  {
    ReverseNoSpace(rev);
    FieldReadSpace(rev, width, f);
  }

  lemma SignedRead(rev: string, negative: bool, width: nat, f: Flags, base: nat)
    requires NoSpace(rev)
    ensures ReadBack(Field(AddSign(rev, negative, f), width, f), base)
         == (negative && |rev| < BUFFER_SIZE, Numeral(Reverse(rev), base))
  {
    UnsignedRead(rev, width, f, base);
    MarkedRead(rev, '-', width, f, base);
    MarkedRead(rev, '+', width, f, base);
    SpacedRead(rev, width, f, base);
  }

  lemma {:induction false} PowerSum(base: nat, m: nat, n: nat)
    ensures Power(base, m + n) == Power(base, m) * Power(base, n)
  {
    if m > 0 {
      PowerSum(base, m - 1, n);
      Associate(base, Power(base, m - 1), Power(base, n));
    }
  }

  lemma Power32(base: nat)
    requires base == 2 || base == 8 || base == 10 || base == 16
    ensures if base == 2 then Power(base, 32) == TWO32 else Power(base, 32) >= TWO64
  {
    assert Power(base, 2) == base * base;
    PowerSum(base, 2, 2);
    PowerSum(base, 4, 4);
    PowerSum(base, 8, 8);
    PowerSum(base, 16, 16);
  }

  /** A remainder by more than the value changes nothing. */
  lemma WholeValue(value: nat, base: nat)
    requires base == 2 || base == 8 || base == 10 || base == 16
    requires value < TWO64
    ensures Power(base, BUFFER_SIZE) > 0
    ensures Remainder(value, Power(base, BUFFER_SIZE)) == if base == 2 then value % TWO32 else value
  {
    Power32(base);
    DivisionIs(value, TWO32);
  }

  /** Without the alternate form a number is its digits, zeros and sign in the field. */
  lemma PlainText(value: nat, negative: bool, base: nat, prec: nat, width: nat, f: Flags)
    requires 2 <= base <= 16 && HASH !in f
    ensures var rev := NumberDigits(value, base, f);
            && |rev| <= BUFFER_SIZE
            && NumberText(value, negative, base, prec, width, f)
               == Field(AddSign(PadZeros(rev, negative, prec, width, f), negative, f), ZeroWidth(negative, width, f), f)
  {
    hide Field, AddSign, PadZeros, Digits;
    assert f - {HASH} == f;
  }

  /** Reading back what was printed, for any flags but the alternate form, any width and any precision: the value comes
      back exactly in the bases 8, 10 and 16 and modulo 2^32 in base 2, and the sign if and only if there was a place
      for it. */
  lemma PrintThenRead(value: nat, negative: bool, base: nat, prec: nat, width: nat, f: Flags)
    requires base == 2 || base == 8 || base == 10 || base == 16
    requires value < TWO64 && HASH !in f
    ensures ReadBack(NumberText(value, negative, base, prec, width, f), base)
         == (negative && SignFits(|NumberDigits(value, base, f)|, negative, prec, width, f),
             if base == 2 then value % TWO32 else value)
  {
    hide NumberText, NumberDigits, PadZeros, AddSign, Field, PaddedSize, ReadBack, Numeral, Reverse, ZeroWidth;
    var rev := NumberDigits(value, base, f);
    PlainText(value, negative, base, prec, width, f);
    DigitsRead(value, base, f);
    PadKeeps(rev, negative, prec, width, f, base);
    SignedRead(PadZeros(rev, negative, prec, width, f), negative, ZeroWidth(negative, width, f), f, base);
  }

  lemma DigitsRead(value: nat, base: nat, f: Flags)
    requires base == 2 || base == 8 || base == 10 || base == 16
    requires value < TWO64
    ensures NoSpace(NumberDigits(value, base, f))
    ensures Numeral(Reverse(NumberDigits(value, base, f)), base) == if base == 2 then value % TWO32 else value
  {
    if !(PRECISION in f && value == 0) {
      DigitsNoSpace(value, base, UPPERCASE in f, BUFFER_SIZE);
      NumeralOfDigits(value, base, UPPERCASE in f, BUFFER_SIZE);
      WholeValue(value, base);
    }
  }

  lemma QuotientFits(n: nat, base: nat, room: nat)
    requires base > 0 && n < Power(base, room) && room > 0 && Quotient(n, base) > 0
    ensures room > 1 && Quotient(n, base) < Power(base, room - 1)
  {
    Division(n, base);
    Product(base, Power(base, room - 1), Quotient(n, base));
  }

  /** No leading zero, as long as the number fits. */
  lemma {:induction false} LeadingDigit(n: nat, base: nat, upper: bool, room: nat)
    requires 2 <= base <= 16 && 0 < n < Power(base, room) && room > 0
    ensures var d := Digits(n, base, upper, room); d[|d| - 1] != '0'
    decreases room
  {
    if Quotient(n, base) > 0 {
      QuotientFits(n, base, room);
      LeadingDigit(Quotient(n, base), base, upper, room - 1);
    }
  }
}
