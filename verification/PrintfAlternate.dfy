/** The alternate form: exactly when it costs digits of the printed number. */
module PrintfAlternate {
  import opened PrintfSpec
  import opened PrintfLaws
  import opened PrintfParse
  import opened PrintfShape
  import opened PrintfFormat

  /** The letter of a base in the alternate form. */
  function Letter(base: nat, upper: bool): string {
    if base == 16 then (if upper then "X" else "x") else if base == 2 then "b" else ""
  }

  /** Digits and zeros that fill the precision or the width exactly. */
  predicate FillsExactly(size: nat, prec: nat, width: nat, f: Flags) {
    PRECISION !in f && size > 0 && (size == prec || size == width)
  }

  /** How many of them make way for the prefix then. */
  function Cut(size: nat, base: nat): (k: nat)
    ensures size > 0 ==> k <= size
  {
    if base == 16 && size > 1 then 2 else 1
  }

  /** What is left of the padded digits. */
  function Kept(size: nat, base: nat, prec: nat, width: nat, f: Flags): (k: nat)
    ensures k <= size
  {
    if FillsExactly(size, prec, width, f) then size - Cut(size, base) else size
  }

  /** The alternate form in full: the padded digits that are kept, then the letter of the base, then a zero, as far as
      there is room. */
  lemma AlternateIs(p: string, base: nat, prec: nat, width: nat, f: Flags)
    ensures var kept := p[..Kept(|p|, base, prec, width, f)];
            var letter := Letter(base, UPPERCASE in f);
            Alternate(p, base, prec, width, f) == Put(if letter == "" then kept else Put(kept, letter[0]), '0')
  {
    assert p[..|p|] == p;
  }

  // ---------------------------------------------------------------- the digits in the buffer

  /** Not a letter that the prefix uses. */
  predicate Plain(s: string, base: nat) {
    forall i :: 0 <= i < |s| ==> s[i] != ' ' && s[i] != 'x' && s[i] != 'X' && (base == 2 ==> s[i] != 'b')
  }

  lemma {:induction false} DigitsPlain(value: nat, base: nat, upper: bool, room: nat)
    requires 2 <= base <= 16 && room > 0
    ensures Plain(Digits(value, base, upper, room), base)
    decreases room
  {
    if Quotient(value, base) > 0 && room > 1 {
      DigitsPlain(Quotient(value, base), base, upper, room - 1);
    }
  }

  /** The zeros go behind the reversed digits. */
  lemma PadPrefix(d: string, negative: bool, prec: nat, width: nat, f: Flags)
    ensures d <= PadZeros(d, negative, prec, width, f)
  {
  }

  /** Digits that the cut reaches are overwritten by something else; the others stay. */
  lemma DigitsKept(d: string, p: string, base: nat, prec: nat, width: nat, f: Flags)
    requires base == 2 || base == 8 || base == 16
    requires d != "" && d <= p && |p| <= BUFFER_SIZE && Plain(d, base) && (base == 8 ==> d[|d| - 1] != '0')
    ensures d <= Alternate(p, base, prec, width, f) <==> |d| <= Kept(|p|, base, prec, width, f)
    ensures |d| <= |Alternate(p, base, prec, width, f)| && Alternate(p, base, prec, width, f)[0] != ' '
  {
    var k := Kept(|p|, base, prec, width, f);
    var out := Alternate(p, base, prec, width, f);
    AlternateIs(p, base, prec, width, f);
    assert p[..k] <= out;
    if k < |d| {
      assert out[k] == if Letter(base, UPPERCASE in f) == "" then '0' else Letter(base, UPPERCASE in f)[0];
      assert out[k] != d[k];
    } else {
      assert d <= p[..k];
      assert out[0] == d[0];
    }
  }

  // ---------------------------------------------------------------- the digits in the text

  predicate EndsWith(s: string, t: string) {
    |t| <= |s| && s[|s| - |t|..] == t
  }

  lemma {:induction false} ReverseTwice(s: string)
    ensures Reverse(Reverse(s)) == s
  {
    if s != "" {
      ReverseTwice(s[1..]);
      ReverseJoin(Reverse(s[1..]), [s[0]]);
      assert Reverse([s[0]]) == [s[0]];
    }
  }

  /** A prefix of the buffer is the end of the text. */
  lemma PrefixIsEnd(d: string, out: string)
    requires |d| <= |out|
    ensures EndsWith(Reverse(out), Reverse(d)) <==> d <= out
  {
    var low := out[..|d|];
    assert out == low + out[|d|..];
    ReverseJoin(low, out[|d|..]);
    assert Reverse(out)[|out| - |d|..] == Reverse(low);
    ReverseTwice(low);
    ReverseTwice(d);
  }

  lemma EndOfJoin(a: string, s: string, t: string)
    requires |t| <= |s|
    ensures EndsWith(a + s, t) <==> EndsWith(s, t)
  {
    assert (a + s)[|a + s| - |t|..] == s[|s| - |t|..];
  }

  /** The spaces of the field on either side. */
  lemma FieldParts(out: string, width: nat, f: Flags) returns (a: nat, b: nat)
    ensures Field(out, width, f) == (Repeat(' ', a) + Reverse(out)) + Repeat(' ', b)
  {
    var n := if width > |out| then width - |out| else 0;
    assert Repeat(' ', width - |out|) == Repeat(' ', n);
    a, b := if LEFT !in f && ZEROPAD !in f then n else 0, if LEFT in f then n else 0;
  }

  /** The spaces behind a number do not matter. */
  lemma FieldEnd(out: string, width: nat, f: Flags, t: string)
    requires out != "" && out[0] != ' ' && |t| <= |out|
    ensures EndsWith(StripRight(Field(out, width, f)), t) <==> EndsWith(Reverse(out), t)
  {
    var a, b := FieldParts(out, width, f);
    var core := Repeat(' ', a) + Reverse(out);
    LastOfReverse(out);
    SkipRight(core, b);
    EndOfJoin(Repeat(' ', a), Reverse(out), t);
  }

  lemma LastOfReverse(s: string)
    requires s != ""
    ensures Reverse(s)[|s| - 1] == s[0]
  {
  }

  /** The digits of the number are lost in part: digits and zeros together fill the field exactly, and the cut goes
      further than the zeros. */
  predicate DropsDigits(digits: nat, negative: bool, base: nat, prec: nat, width: nat, f: Flags) {
    var size := PaddedSize(digits, negative, prec, width, f);
    FillsExactly(size, prec, ZeroWidth(negative, width, f), f) && size < digits + Cut(size, base)
  }

  /** A format passes the precision zero unless it names one, so only the width can be filled. */
  lemma OnlyTheWidth(digits: nat, negative: bool, base: nat, prec: nat, width: nat, f: Flags)
    requires digits > 0 && (PRECISION !in f ==> prec == 0)
    ensures var size := PaddedSize(digits, negative, prec, width, f);
            DropsDigits(digits, negative, base, prec, width, f)
            <==> PRECISION !in f && size == ZeroWidth(negative, width, f) && size < digits + Cut(size, base)
  {
  }

  lemma NumberKept(d: string, negative: bool, base: nat, prec: nat, width: nat, f: Flags)
    requires (base == 2 || base == 8 || base == 16) && HASH in f
    requires d != "" && |d| <= BUFFER_SIZE && Plain(d, base) && (base == 8 ==> d[|d| - 1] != '0')
    ensures var out := Assemble(d, negative, base, prec, width, f);
            && |d| <= |out| && out[0] != ' '
            && (d <= out <==> !DropsDigits(|d|, negative, base, prec, width, f))
  {
    var p := PadZeros(d, negative, prec, width, f);
    var w := ZeroWidth(negative, width, f);
    PadPrefix(d, negative, prec, width, f);
    PadSize(d, negative, prec, width, f);
    DigitsKept(d, p, base, prec, w, f);
    SignPrefix(d, Alternate(p, base, prec, w, f), negative, f);
  }

  lemma SignPrefix(d: string, rev: string, negative: bool, f: Flags)
    requires d != "" && |d| <= |rev|
    ensures var out := AddSign(rev, negative, f);
            |rev| <= |out| && out[0] == rev[0] && (d <= out <==> d <= rev)
  {
  }

  lemma NumberTextIs(value: nat, negative: bool, base: nat, prec: nat, width: nat, f: Flags)
    requires 2 <= base <= 16 && value > 0
    ensures var d := NumberDigits(value, base, f);
            && d == Digits(value, base, UPPERCASE in f, BUFFER_SIZE)
            && NumberText(value, negative, base, prec, width, f)
               == Field(Assemble(d, negative, base, prec, width, f), ZeroWidth(negative, width, f), f)
  {
  }

  /** A number printed in the alternate form ends with all its digits if and only if it is not the case that digits and
      zeros together fill the width exactly and the prefix takes more places than there are zeros. */
  lemma AlternateKeepsDigits(value: nat, negative: bool, base: nat, prec: nat, width: nat, f: Flags)
    requires base == 2 || base == 8 || base == 16
    requires 0 < value < TWO64 && HASH in f
    ensures var d := NumberDigits(value, base, f);
            EndsWith(StripRight(NumberText(value, negative, base, prec, width, f)), Reverse(d))
            <==> !DropsDigits(|d|, negative, base, prec, width, f)
  {
    var d := Digits(value, base, UPPERCASE in f, BUFFER_SIZE);
    NumberTextIs(value, negative, base, prec, width, f);
    DigitsPlain(value, base, UPPERCASE in f, BUFFER_SIZE);
    if base == 8 {
      Power32(8);
      LeadingDigit(value, 8, UPPERCASE in f, BUFFER_SIZE);
    }
    NumberKept(d, negative, base, prec, width, f);
    var out := Assemble(d, negative, base, prec, width, f);
    FieldEnd(out, ZeroWidth(negative, width, f), f, Reverse(d));
    PrefixIsEnd(d, out);
  }

  // ---------------------------------------------------------------- what a caller sees

  /** A field of one digit's width for the alternate form. */
  function HashRequest(zeropad: bool, digit: char): Request {
    Request(if zeropad then "#0" else "#", Given([digit]), Absent, Length.Plain)
  }

  function HashStyle(zeropad: bool, width: nat): Style {
    Style("", "0x", false, zeropad, false, 0, width)
  }

  lemma HashStyleIs(zeropad: bool, digit: char, args: seq<Arg>)
    requires '1' <= digit <= '9'
    ensures IntegerStyle(HashRequest(zeropad, digit), 'x', 0x12, args, 0)
         == HashStyle(zeropad, (digit - '0') as nat)
  {
    assert [digit][..0] == "";
    assert Numeral([digit], 10) == (digit - '0') as nat;
  }

  lemma HashSpelled(zeropad: bool, digit: char)
    ensures FormatOf(HashRequest(zeropad, digit), 'x') == "%" + (if zeropad then "#0" else "#") + [digit] + "x"
  {
  }

  lemma HashNumeral()
    ensures Positional(0x12, 16, false) == "12"
  {
    assert Positional(1, 16, false) == "1";
  }

  lemma HashRendered(zeropad: bool, digit: char)
    requires '1' <= digit <= '9'
    ensures Render("%" + (if zeropad then "#0" else "#") + [digit] + "x", 0, [Int(0x12)], 0)
         == Some(Shown(HashStyle(zeropad, (digit - '0') as nat), "12"))
  {
    hide Render, Shown, IntegerStyle, FormatOf, Positional;
    HashSpelled(zeropad, digit);
    HashStyleIs(zeropad, digit, [Int(0x12)]);
    HashNumeral();
    IntegerPrinted(HashRequest(zeropad, digit), 'x', 16, [Int(0x12)], 0x12);
  }

  lemma HashShown(zeropad: bool, width: nat)
    requires width == 2 || (zeropad && 2 <= width <= 4)
    ensures Shown(HashStyle(zeropad, width), "12") == if width == 2 then "0x" else if width == 3 then "0x2" else "0x12"
  {
    var y := HashStyle(zeropad, width);
    ZeroedIs("12", Fill(y));
    var core := Repeat('0', width - 2) + "12";
    assert Core(y, "12") == core && Displaced(y, |core|) == 2;
    assert core[2..] == if width == 2 then "" else if width == 3 then "2" else "12";
  }

  /** In a field as wide as the number, the alternate form leaves nothing of it; zero-padded in a field one wider, its
      first digit is lost; with two zeros in front it is whole. */
  lemma AlternateLosesDigits()
    ensures Render("%#2x", 0, [Int(0x12)], 0) == Some("0x")
    ensures Render("%#03x", 0, [Int(0x12)], 0) == Some("0x2")
    ensures Render("%#04x", 0, [Int(0x12)], 0) == Some("0x12")
  {
    hide Render, Shown;
    HashRendered(false, '2');
    HashRendered(true, '3');
    HashRendered(true, '4');
    HashShown(false, 2);
    HashShown(true, 3);
    HashShown(true, 4);
    assert "%" + "#" + ['2'] + "x" == "%#2x";
    assert "%" + "#0" + ['3'] + "x" == "%#03x" && "%" + "#0" + ['4'] + "x" == "%#04x";
  }
}
