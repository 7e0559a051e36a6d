/** What a printed number looks like, written front to back: spaces, sign, prefix, zeros, digits, spaces. The number
    buffer of 32 places keeps the last 32 characters of what stands between the spaces. */
module PrintfShape {
  import opened PrintfSpec
  import opened PrintfLaws

  /** The last n characters. */
  function Last(s: string, n: nat): (r: string)
    ensures |r| == Min(|s|, n)
  {
    if |s| <= n then s else s[|s| - n..]
  }

  lemma LastOfJoin(a: string, b: string, n: nat)
    ensures Last(a + Last(b, n), n) == Last(a + b, n)
  {
    if |b| >= n {
      assert a + Last(b, n) == a + b[|b| - n..];
      assert (a + b[|b| - n..])[|a|..] == b[|b| - n..];
      assert (a + b)[|a| + |b| - n..] == b[|b| - n..];
    }
  }

  // ---------------------------------------------------------------- digits

  function DigitsOf(upper: bool): string {
    if upper then "0123456789ABCDEF" else "0123456789abcdef"
  }

  /** The positional numeral of a number, most significant digit first. */
  function Positional(n: nat, base: nat, upper: bool): (s: string)
    requires 2 <= base <= 16
    ensures s != ""
  {
    Shrinks(n, base);
    (if n < base then "" else Positional(n / base, base, upper)) + [DigitsOf(upper)[n % base]]
  }

  lemma Shrinks(n: nat, base: nat)
    requires base >= 2
    ensures n % base < base && (n >= base ==> n / base < n)
  {
    DivisionIs(n, base);
    Division(n, base);
    Product(2, Quotient(n, base), Quotient(n, base));
    Product(Quotient(n, base), 2, base);
  }

  lemma DigitIs(d: nat, upper: bool)
    requires d < 16
    ensures DigitChar(d, upper) == DigitsOf(upper)[d]
  {
  }

  lemma LastDigit(s: string, ch: char, n: nat)
    requires n > 0
    ensures Last(s + [ch], n) == Last(s, n - 1) + [ch]
  {
  }

  lemma LastNone(s: string)
    ensures Last(s, 0) == ""
  {
  }

  /** The digit loop leaves the end of the numeral, reversed. */
  lemma {:induction false} DigitsAre(n: nat, base: nat, upper: bool, room: nat)
    requires 2 <= base <= 16 && room > 0
    ensures Reverse(Digits(n, base, upper, room)) == Last(Positional(n, base, upper), room)
    decreases room
  {
    hide DigitsOf, DigitChar, Last;
    DivisionIs(n, base);
    var (q, d) := (Quotient(n, base), DigitChar(Remainder(n, base), upper));
    DigitIs(Remainder(n, base), upper);
    QuotientZero(n, base);
    var high := if q == 0 then "" else Positional(q, base, upper);
    LastDigit(high, d, room);
    LastNone(high);
    var next := "";
    if q > 0 && room > 1 {
      next := Digits(q, base, upper, room - 1);
      DigitsAre(q, base, upper, room - 1);
    } else {
      LastOfNone(high, room - 1, q);
    }
    assert Digits(n, base, upper, room)[1..] == next;
  }

  lemma QuotientZero(n: nat, base: nat)
    requires base > 0
    ensures Quotient(n, base) == 0 <==> n < base
  {
  }

  lemma LastOfNone(s: string, n: nat, q: nat)
    requires s == "" || n == 0
    ensures Last(s, n) == ""
  {
  }

  // ---------------------------------------------------------------- the parts of a number

  /** How a number is printed. */
  datatype Style = Style(sign: string, prefix: string, left: bool, zero: bool, precise: bool, prec: nat, width: nat)

  /** The width that digits and zeros may fill. */
  function Columns(y: Style): nat {
    if !y.left && y.zero && y.sign != "" && y.width > 0 then y.width - 1 else y.width
  }

  /** How many digits there are at least, zeros included: none are added on the left side of a field. */
  function Fill(y: Style): nat {
    if y.left then 0 else if y.zero then Max(y.prec, Columns(y)) else y.prec
  }

  /** Zeros up to a target, in front of a text. */
  function Zeroed(s: string, target: nat): string {
    Last(Repeat('0', target - |s|) + s, BUFFER_SIZE)
  }

  function Core(y: Style, numeral: string): string {
    Zeroed(numeral, Fill(y))
  }

  /** How many of the digits and zeros a prefix displaces, which it does where they fill the width exactly. */
  function Displaced(y: Style, size: nat): (k: nat)
    ensures k <= size
  {
    if y.prefix != "" && !y.precise && size == Columns(y) then
      Min(size, if y.prefix == "0x" || y.prefix == "0X" then 2 else 1)
    else 0
  }

  /** Sign, prefix, zeros and digits. */
  function Body(y: Style, numeral: string): string {
    var core := Core(y, numeral);
    Last(y.sign + y.prefix + core[Displaced(y, |core|)..], BUFFER_SIZE)
  }

  function Shown(y: Style, numeral: string): string {
    var body := Body(y, numeral);
    if y.left then body + Repeat(' ', y.width - |body|)
    else if y.zero then body
    else Repeat(' ', y.width - |body|) + body
  }

  // ---------------------------------------------------------------- the number buffer, reversed

  lemma RepeatJoin(ch: char, a: int, b: int)
    requires a >= 0 && b >= 0
    ensures Repeat(ch, a) + Repeat(ch, b) == Repeat(ch, a + b)
  {
  }

  lemma PutShown(rev: string, ch: char)
    requires |rev| <= BUFFER_SIZE
    ensures Reverse(Put(rev, ch)) == Last([ch] + Reverse(rev), BUFFER_SIZE)
  {
    ReverseJoin(rev, [ch]);
    assert Reverse([ch]) == [ch];
    assert ([ch] + Reverse(rev))[1..] == Reverse(rev);
  }

  lemma ZeroedIs(s: string, target: nat)
    requires |s| <= BUFFER_SIZE
    ensures Zeroed(s, target) == Repeat('0', Min(target, BUFFER_SIZE) - |s|) + s
  {
    var n := Min(target, BUFFER_SIZE) - |s|;
    if target > BUFFER_SIZE {
      RepeatJoin('0', target - BUFFER_SIZE, n);
      var more := Repeat('0', target - BUFFER_SIZE);
      assert Repeat('0', target - |s|) + s == more + (Repeat('0', n) + s);
      assert (more + (Repeat('0', n) + s))[|more|..] == Repeat('0', n) + s;
    }
  }

  lemma FillShown(rev: string, target: nat)
    requires |rev| <= BUFFER_SIZE
    ensures Reverse(FillZeros(rev, target)) == Zeroed(Reverse(rev), target)
  {
    var n := Min(target, BUFFER_SIZE) - |rev|;
    ReverseJoin(rev, Repeat('0', n));
    if n > 0 {
      ReverseRepeat('0', n);
    }
    ZeroedIs(Reverse(rev), target);
  }

  lemma ZeroedTwice(s: string, t: nat, u: nat)
    requires |s| <= BUFFER_SIZE
    ensures Zeroed(Zeroed(s, t), u) == Zeroed(s, Max(t, u))
  {
    ZeroedIs(s, t);
    ZeroedIs(Zeroed(s, t), u);
    ZeroedIs(s, Max(t, u));
    var (a, b) := (Min(t, BUFFER_SIZE) - |s|, Min(u, BUFFER_SIZE) - |Zeroed(s, t)|);
    if a > 0 && b > 0 {
      RepeatJoin('0', b, a);
      assert Repeat('0', b) + (Repeat('0', a) + s) == Repeat('0', b) + Repeat('0', a) + s;
    }
  }

  /** Digits that the buffer has dropped make no difference to the zeros. */
  lemma ZeroedLast(s: string, t: nat)
    ensures Zeroed(Last(s, BUFFER_SIZE), t) == Zeroed(s, t)
  {
    if |s| > BUFFER_SIZE {
      var low := Last(s, BUFFER_SIZE);
      assert (Repeat('0', t - |low|) + low)[|Repeat('0', t - |low|)|..] == low;
      var all := Repeat('0', t - |s|) + s;
      assert all[|all| - BUFFER_SIZE..] == low;
    }
  }

  function SignOf(negative: bool, f: Flags): string {
    if negative then "-" else if PLUS in f then "+" else if SPACE in f then " " else ""
  }

  function PrefixOf(base: nat, upper: bool): string {
    if base == 16 then (if upper then "0X" else "0x") else if base == 2 then "0b" else "0"
  }

  function StyleOf(value: nat, negative: bool, base: nat, prec: nat, width: nat, f: Flags): Style {
    Style(SignOf(negative, f), if HASH in f && value > 0 then PrefixOf(base, UPPERCASE in f) else "",
          LEFT in f, ZEROPAD in f, PRECISION in f, prec, width)
  }

  lemma ZeroedNone(s: string)
    requires |s| <= BUFFER_SIZE
    ensures Zeroed(s, 0) == s
  {
    assert Repeat('0', 0 - |s|) + s == s;
  }

  /** Zeros in front of the digits. */
  lemma PadShown(rev: string, negative: bool, prec: nat, width: nat, f: Flags, y: Style)
    requires |rev| <= BUFFER_SIZE && y.sign == SignOf(negative, f)
    requires (y.left <==> LEFT in f) && (y.zero <==> ZEROPAD in f) && y.prec == prec && y.width == width
    ensures Reverse(PadZeros(rev, negative, prec, width, f)) == Core(y, Reverse(rev))
    ensures ZeroWidth(negative, width, f) == Columns(y)
    ensures |PadZeros(rev, negative, prec, width, f)| <= BUFFER_SIZE
  {
    hide Reverse, Zeroed, FillZeros;
    FillShown(rev, prec);
    FillFits(rev, prec);
    FillShown(FillZeros(rev, prec), ZeroWidth(negative, width, f));
    ZeroedTwice(Reverse(rev), prec, ZeroWidth(negative, width, f));
    ZeroedNone(Reverse(rev));
    PadSize(rev, negative, prec, width, f);
  }

  lemma FillFits(rev: string, target: nat)
    requires |rev| <= BUFFER_SIZE
    ensures |FillZeros(rev, target)| <= BUFFER_SIZE
  {
  }

  lemma ReverseCut(rev: string, k: nat)
    requires k <= |rev|
    ensures Reverse(rev[..|rev| - k]) == Reverse(rev)[k..]
  {
    var low := rev[..|rev| - k];
    assert rev == low + rev[|low|..];
    ReverseJoin(low, rev[|low|..]);
  }

  /** The letter of a base, if it has one, and a zero. */
  lemma PrefixShown(cut: string, base: nat, upper: bool)
    requires |cut| <= BUFFER_SIZE
    ensures var marked := if base == 16 then Put(cut, if upper then 'X' else 'x')
                          else if base == 2 then Put(cut, 'b') else cut;
            |Put(marked, '0')| <= BUFFER_SIZE
            && Reverse(Put(marked, '0')) == Last(PrefixOf(base, upper) + Reverse(cut), BUFFER_SIZE)
  {
    hide Reverse, Last;
    if base != 16 && base != 2 {
      PutShown(cut, '0');
    } else {
      var ch := if base == 2 then 'b' else if upper then 'X' else 'x';
      PutShown(cut, ch);
      PutShown(Put(cut, ch), '0');
      LastOfJoin("0", [ch] + Reverse(cut), BUFFER_SIZE);
      assert "0" + ([ch] + Reverse(cut)) == PrefixOf(base, upper) + Reverse(cut);
    }
  }

  /** The prefix in front of what it does not displace. */
  lemma AlternateShown(rev: string, base: nat, prec: nat, f: Flags, y: Style)
    requires |rev| <= BUFFER_SIZE && y.prefix == PrefixOf(base, UPPERCASE in f)
    requires (y.precise <==> PRECISION in f) && (PRECISION !in f ==> prec == 0)
    ensures Reverse(Alternate(rev, base, prec, Columns(y), f))
         == Last(y.prefix + Reverse(rev)[Displaced(y, |rev|)..], BUFFER_SIZE)
    ensures |Alternate(rev, base, prec, Columns(y), f)| <= BUFFER_SIZE
  {
    hide Reverse, Columns, Last, Put;
    var k := Displaced(y, |rev|);
    ReverseCut(rev, k);
    assert rev[..|rev|] == rev;
    PrefixShown(rev[..|rev| - k], base, UPPERCASE in f);
  }

  lemma SignShown(rev: string, negative: bool, f: Flags)
    requires |rev| <= BUFFER_SIZE
    ensures Reverse(AddSign(rev, negative, f)) == Last(SignOf(negative, f) + Reverse(rev), BUFFER_SIZE)
  {
    hide Reverse;
    PutShown(rev, '-');
    PutShown(rev, '+');
    PutShown(rev, ' ');
    assert "" + Reverse(rev) == Reverse(rev);
  }

  lemma FieldShown(rev: string, body: string, negative: bool, width: nat, f: Flags)
    requires Reverse(rev) == body
    ensures Field(rev, ZeroWidth(negative, width, f), f)
         == if LEFT in f then body + Repeat(' ', width - |body|)
            else if ZEROPAD in f then body
            else Repeat(' ', width - |body|) + body
  {
    assert "" + body == body && body + "" == body;
  }

  /** The shape of a printed number, for any value, flags, width and precision, alternate form included. */
  lemma NumberShape(value: nat, negative: bool, base: nat, prec: nat, width: nat, f: Flags)
    requires 2 <= base <= 16 && (PRECISION !in f ==> prec == 0)
    ensures NumberText(value, negative, base, prec, width, f)
         == Shown(StyleOf(value, negative, base, prec, width, f),
                  if PRECISION in f && value == 0 then "" else Positional(value, base, UPPERCASE in f))
  {
    hide Positional, Digits, Reverse, PadZeros, Alternate, AddSign, Field, Core, Displaced, Last, ZeroWidth, Columns;
    var y := StyleOf(value, negative, base, prec, width, f);
    var numeral := if PRECISION in f && value == 0 then "" else Positional(value, base, UPPERCASE in f);
    var f' := if value == 0 then f - {HASH} else f;
    var d := NumberDigits(value, base, f');
    var padded := PadZeros(d, negative, prec, width, f');
    DigitsShown(value, base, f', numeral);
    PadShown(d, negative, prec, width, f', y);
    CoreOfLast(y, numeral);
    var marked := padded;
    if HASH in f' {
      AlternateShown(padded, base, prec, f', y);
      marked := Alternate(padded, base, prec, Columns(y), f');
    } else {
      Unmarked(y, Core(y, numeral));
    }
    SignShown(marked, negative, f');
    BodyJoin(y, numeral, Reverse(marked));
    FieldShown(AddSign(marked, negative, f'), Body(y, numeral), negative, width, f');
  }

  lemma Unmarked(y: Style, core: string)
    requires y.prefix == "" && |core| <= BUFFER_SIZE
    ensures core == Last(y.prefix + core[Displaced(y, |core|)..], BUFFER_SIZE)
  {
  }

  lemma DigitsShown(value: nat, base: nat, f: Flags, numeral: string)
    requires 2 <= base <= 16
    requires numeral == if PRECISION in f && value == 0 then "" else Positional(value, base, UPPERCASE in f)
    ensures |NumberDigits(value, base, f)| <= BUFFER_SIZE
    ensures Reverse(NumberDigits(value, base, f)) == Last(numeral, BUFFER_SIZE)
  {
    DigitsAre(value, base, UPPERCASE in f, BUFFER_SIZE);
  }

  lemma CoreOfLast(y: Style, numeral: string)
    ensures Core(y, Last(numeral, BUFFER_SIZE)) == Core(y, numeral)
  {
    ZeroedLast(numeral, Fill(y));
  }

  lemma BodyJoin(y: Style, numeral: string, marked: string)
    requires var core := Core(y, numeral);
             marked == Last(y.prefix + core[Displaced(y, |core|)..], BUFFER_SIZE)
    ensures Body(y, numeral) == Last(y.sign + marked, BUFFER_SIZE)
  {
    var core := Core(y, numeral);
    var rest := core[Displaced(y, |core|)..];
    LastOfJoin(y.sign, y.prefix + rest, BUFFER_SIZE);
    assert y.sign + y.prefix + rest == y.sign + (y.prefix + rest);
  }
}
