/** What a whole format prints, said in terms of its literal text, its requests and the arguments: the reference that
    the parser, the conversions and the loop of `_vsnprintf` are held against. */
module PrintfFormat {
  import opened PrintfSpec
  import opened PrintfLaws
  import opened PrintfParse
  import opened PrintfShape

  // ---------------------------------------------------------------- a format behind another one

  function Behindward(o: Option<Specifier>, n: nat): Option<Specifier> {
    if o.None? then None else Some(o.value.(at := o.value.at + n))
  }

  lemma AtShift(t: string, s: string, i: nat)
    ensures At(t + s, |t| + i) == At(s, i)
  {
  }

  lemma {:induction false} DigitsEndShift(t: string, s: string, i: nat)
    ensures DigitsEnd(t + s, |t| + i) == |t| + DigitsEnd(s, i)
    decreases |s| - i
  {
    AtShift(t, s, i);
    if IsDigit(At(s, i)) {
      DigitsEndShift(t, s, i + 1);
    }
  }

  lemma NumberShift(t: string, s: string, i: nat)
    requires i <= |s|
    ensures NumberAt(t + s, |t| + i) == NumberAt(s, i)
  {
    DigitsEndShift(t, s, i);
    assert (t + s)[|t| + i..|t| + DigitsEnd(s, i)] == s[i..DigitsEnd(s, i)];
  }

  lemma {:induction false} FlagsShift(t: string, s: string, i: nat, f: Flags)
    ensures ReadFlags(t + s, |t| + i, f) == (ReadFlags(s, i, f).0, |t| + ReadFlags(s, i, f).1)
    decreases |s| - i
  {
    AtShift(t, s, i);
    if IsFlag(At(s, i)) {
      FlagsShift(t, s, i + 1, SetFlag(f, At(s, i)));
    }
  }

  lemma WidthShift(t: string, s: string, i: nat, f: Flags, args: seq<Arg>, k: nat)
    requires i <= |s|
    ensures ReadWidth(t + s, |t| + i, f, args, k) == Behindward(ReadWidth(s, i, f, args, k), |t|)
  {
    hide NumberAt;
    AtShift(t, s, i);
    NumberShift(t, s, i);
    DigitsEndShift(t, s, i);
  }

  lemma PointShift(t: string, s: string, p: Specifier, args: seq<Arg>)
    requires p.at <= |s|
    ensures ReadBehindPoint(t + s, p.(at := |t| + p.at), args) == Behindward(ReadBehindPoint(s, p, args), |t|)
  {
    hide NumberAt;
    AtShift(t, s, p.at);
    NumberShift(t, s, p.at);
    DigitsEndShift(t, s, p.at);
  }

  lemma PrecisionShift(t: string, s: string, p: Specifier, args: seq<Arg>)
    requires p.at <= |s|
    ensures ReadPrecision(t + s, p.(at := |t| + p.at), args) == Behindward(ReadPrecision(s, p, args), |t|)
  {
    AtShift(t, s, p.at);
    if At(s, p.at) == '.' {
      PointShift(t, s, p.(flags := p.flags + {PRECISION}, at := p.at + 1), args);
    }
  }

  lemma LengthShift(t: string, s: string, p: Specifier)
    requires p.at <= |s|
    ensures ReadLength(t + s, p.(at := |t| + p.at)) == ReadLength(s, p).(at := |t| + ReadLength(s, p).at)
  {
    AtShift(t, s, p.at);
    AtShift(t, s, p.at + 1);
  }

  lemma SpecifierShift(t: string, s: string, i: nat, args: seq<Arg>, k: nat)
    requires i <= |s|
    ensures ReadSpecifier(t + s, |t| + i, args, k) == Behindward(ReadSpecifier(s, i, args, k), |t|)
  {
    hide ReadFlags, ReadWidth, ReadPrecision, ReadLength;
    FlagsShift(t, s, i, NO_FLAGS);
    var (f, j) := ReadFlags(s, i, NO_FLAGS);
    WidthShift(t, s, j, f, args, k);
    var p := ReadWidth(s, j, f, args, k);
    if p.Some? {
      PrecisionShift(t, s, p.value, args);
      var q := ReadPrecision(s, p.value, args);
      if q.Some? {
        LengthShift(t, s, q.value);
      }
    }
  }

  lemma ConvertAnywhere(ch: char, p: Specifier, args: seq<Arg>, at: nat)
    ensures Convert(ch, p.(at := at), args) == Convert(ch, p, args)
  {
  }

  lemma PieceShift(t: string, s: string, i: nat, args: seq<Arg>, k: nat)
    requires i < |s|
    ensures var (a, b) := (Piece(t + s, |t| + i, args, k), Piece(s, i, args, k));
            && (b.None? ==> a.None?)
            && (b.Some? ==> a == Some((b.value.0, |t| + b.value.1, b.value.2)))
  {
    hide ReadSpecifier, Convert;
    assert (t + s)[|t| + i] == s[i];
    if s[i] == '%' {
      SpecifierShift(t, s, i + 1, args, k);
      var p := ReadSpecifier(s, i + 1, args, k);
      if p.Some? {
        AtShift(t, s, p.value.at);
        ConvertAnywhere(At(s, p.value.at), p.value, args, |t| + p.value.at);
      }
    }
  }

  /** Rendering goes on the same way wherever the rest of the format stands. */
  lemma {:induction false} RenderShift(t: string, s: string, i: nat, args: seq<Arg>, k: nat)
    requires i <= |s|
    ensures Render(t + s, |t| + i, args, k) == Render(s, i, args, k)
    decreases |s| - i
  {
    hide Piece;
    if i < |s| {
      PieceShift(t, s, i, args, k);
      var b := Piece(s, i, args, k);
      if b.Some? {
        RenderShift(t, s, b.value.1, args, b.value.2);
      }
    }
  }

  // ---------------------------------------------------------------- what a request asks for

  function WidthAsked(r: Request, args: seq<Arg>, k: nat): int {
    Number(r.width, ArgValue(args, k))
  }

  /** A negative precision counts as zero. */
  function PrecAsked(r: Request, args: seq<Arg>, k: nat): nat {
    var n := Number(r.prec, ArgValue(args, if r.width.Star? then k + 1 else k));
    if n > 0 then n else 0
  }

  /** A negative width asks for the left. */
  predicate LeftAsked(r: Request, args: seq<Arg>, k: nat) {
    '-' in r.flags || WidthAsked(r, args, k) < 0
  }

  function ColumnsAsked(r: Request, args: seq<Arg>, k: nat): nat {
    Magnitude(WidthAsked(r, args, k))
  }

  /** The base that each integer conversion prints in. */
  predicate InBase(ch: char, base: nat) {
    || ((ch == 'd' || ch == 'i' || ch == 'u') && base == 10)
    || ((ch == 'x' || ch == 'X') && base == 16)
    || (ch == 'o' && base == 8)
    || (ch == 'b' && base == 2)
  }

  /** A sign for negative numbers, and for others on request, but only where the conversion is a signed one. */
  function SignAsked(r: Request, ch: char, x: int): string {
    if x < 0 then "-"
    else if ch != 'd' && ch != 'i' then ""
    else if '+' in r.flags then "+"
    else if ' ' in r.flags then " "
    else ""
  }

  function PrefixAsked(r: Request, ch: char, x: int): string {
    if '#' !in r.flags || x == 0 then ""
    else if ch == 'x' then "0x"
    else if ch == 'X' then "0X"
    else if ch == 'b' then "0b"
    else if ch == 'o' then "0"
    else ""
  }

  /** How an integer conversion prints the number x; a precision turns zero padding off. */
  function IntegerStyle(r: Request, ch: char, x: int, args: seq<Arg>, k: nat): Style {
    Style(SignAsked(r, ch, x), PrefixAsked(r, ch, x), LeftAsked(r, args, k), '0' in r.flags && r.prec.Absent?,
          !r.prec.Absent?, PrecAsked(r, args, k), ColumnsAsked(r, args, k))
  }

  /** The digits of x: none for a zero with a precision. */
  function NumeralAsked(r: Request, ch: char, base: nat, x: int): string
    requires InBase(ch, base)
  {
    if !r.prec.Absent? && x == 0 then "" else Positional(Magnitude(x), base, ch == 'X')
  }

  /** A pointer: sixteen capital hexadecimal digits with leading zeros, unless flags or precision ask otherwise. */
  function PointerStyle(r: Request, x: nat, args: seq<Arg>, k: nat): Style {
    Style(if '+' in r.flags then "+" else if ' ' in r.flags then " " else "",
          if '#' in r.flags && x > 0 then "0X" else "",
          LeftAsked(r, args, k), true, !r.prec.Absent?, PrecAsked(r, args, k), 16)
  }

  predicate LengthIs(f: Flags, l: Length) {
    && (CHAR in f <==> l.Char8?) && (SHORT in f <==> l.Char8? || l.Short16?)
    && (LONG in f || LONG_LONG in f <==> !l.Plain? && !l.Char8? && !l.Short16?)
  }

  lemma FlagsAsked(r: Request, at: nat, args: seq<Arg>, k: nat)
    ensures var f := Meaning(r, at, args, k).flags;
            && (ZEROPAD in f <==> '0' in r.flags) && (LEFT in f <==> LeftAsked(r, args, k))
            && (PLUS in f <==> '+' in r.flags) && (SPACE in f <==> ' ' in r.flags) && (HASH in f <==> '#' in r.flags)
            && (PRECISION in f <==> !r.prec.Absent?) && UPPERCASE !in f
            && LengthIs(f, r.length)
  {
    hide FlagsOf, Number, ArgValue;
    FlagsMean(r.flags);
  }

  lemma AmountsAsked(r: Request, at: nat, args: seq<Arg>, k: nat)
    ensures var p := Meaning(r, at, args, k);
            && p.prec == PrecAsked(r, args, k) && p.width == ColumnsAsked(r, args, k)
            && p.at == at && p.argAt == k + Stars(r)
            && (PRECISION !in p.flags ==> p.prec == 0)
  {
    hide FlagsOf, ArgValue, Numeral;
    FlagsAsked(r, at, args, k);
  }

  /** The flags of an integer conversion, one by one. */
  lemma FlagsConverted(f: Flags, ch: char)
    requires IsInteger(ch)
    ensures var f' := IntegerFlags(f, ch);
            && (LEFT in f' <==> LEFT in f) && (PRECISION in f' <==> PRECISION in f)
            && (ZEROPAD in f' <==> ZEROPAD in f && PRECISION !in f)
            && (PLUS in f' <==> PLUS in f && (ch == 'd' || ch == 'i'))
            && (SPACE in f' <==> SPACE in f && (ch == 'd' || ch == 'i'))
            && (HASH in f' <==> HASH in f && ch != 'd' && ch != 'i' && ch != 'u')
            && (UPPERCASE in f' <==> UPPERCASE in f || ch == 'X')
  {
  }

  lemma IntegerStyleIs(r: Request, ch: char, base: nat, x: int, args: seq<Arg>, k: nat, at: nat)
    requires InBase(ch, base) && (x < 0 ==> ch == 'd' || ch == 'i')
    ensures var p := Meaning(r, at, args, k);
            var f := IntegerFlags(p.flags, ch);
            && StyleOf(Magnitude(x), x < 0, base, p.prec, p.width, f) == IntegerStyle(r, ch, x, args, k)
            && (UPPERCASE in f <==> ch == 'X') && (PRECISION in f <==> !r.prec.Absent?)
            && (PRECISION !in f ==> p.prec == 0) && base == BaseOf(ch)
  {
    hide Meaning, IntegerFlags, LeftAsked, PrecAsked, ColumnsAsked;
    var p := Meaning(r, at, args, k);
    FlagsAsked(r, at, args, k);
    AmountsAsked(r, at, args, k);
    FlagsConverted(p.flags, ch);
  }

  /** What an integer conversion prints of the number x. */
  lemma IntegerIs(r: Request, ch: char, base: nat, x: int, args: seq<Arg>, k: nat, at: nat)
    requires InBase(ch, base) && (x < 0 ==> ch == 'd' || ch == 'i')
    ensures IntegerText(Meaning(r, at, args, k), ch, x)
         == Shown(IntegerStyle(r, ch, x, args, k), NumeralAsked(r, ch, base, x))
  {
    hide Meaning, IntegerFlags, IntegerStyle, NumberText, StyleOf, Shown, Positional;
    var p := Meaning(r, at, args, k);
    IntegerStyleIs(r, ch, base, x, args, k, at);
    NumberShape(Magnitude(x), x < 0, base, p.prec, p.width, IntegerFlags(p.flags, ch));
  }

  // ---------------------------------------------------------------- what the arguments give

  predicate InRange(signed: bool, modulus: int, v: int) {
    if signed then -modulus <= 2 * v < modulus else 0 <= v < modulus
  }

  /** The width of the type that a length modifier names, and of the type in which its argument is passed. */
  function Modulus(l: Length): int {
    match l
    case Plain => TWO32
    case Char8 => 0x100
    case Short16 => 0x1_0000
    case _ => TWO64
  }

  function PassedModulus(l: Length): int {
    match l
    case Plain => TWO32
    case Char8 => TWO32
    case Short16 => TWO32
    case _ => TWO64
  }

  /** An argument v of its type is printed as the number x of the type that the length modifier names, congruent to it.
      The most negative int and long have no absolute value and are left out. */
  predicate Cast(l: Length, signed: bool, v: int, x: int) {
    && InRange(signed, PassedModulus(l), v) && InRange(signed, Modulus(l), x) && x % Modulus(l) == v % Modulus(l)
    && (signed && Modulus(l) == PassedModulus(l) ==> -Modulus(l) < 2 * x)
  }

  predicate IntAt(args: seq<Arg>, k: nat) {
    k < |args| && args[k].Int?
  }

  lemma SignedCast(f: Flags, l: Length, ch: char, args: seq<Arg>, k: nat, x: int)
    requires (ch == 'd' || ch == 'i') && IntAt(args, k) && Cast(l, true, args[k].v, x) && LengthIs(f, l)
    ensures IntegerArg(f, ch, args, k) == Some(x)
  {
    if l.Char8? {
      NarrowCast(args[k].v, x, 0x100);
    } else if l.Short16? {
      NarrowCast(args[k].v, x, 0x1_0000);
    } else if l.Plain? {
      SameCast(args[k].v, x, TWO32, -TWO31);
    } else {
      SameCast(args[k].v, x, TWO64, -TWO63);
    }
  }

  lemma UnsignedCast(f: Flags, l: Length, ch: char, args: seq<Arg>, k: nat, x: int)
    requires ch != 'd' && ch != 'i' && IntAt(args, k) && Cast(l, false, args[k].v, x) && LengthIs(f, l)
    ensures IntegerArg(f, ch, args, k) == Some(x)
  {
  }

  lemma NarrowCast(v: int, x: int, m: int)
    requires (m == 0x100 || m == 0x1_0000) && -m <= 2 * x < m && x % m == v % m
    ensures (v + m / 2) % m - m / 2 == x
  {
  }

  lemma SameCast(v: int, x: int, m: int, low: int)
    requires (m == TWO32 || m == TWO64) && 2 * low == -m && low <= v < -low && low <= x < -low && x % m == v % m
    ensures v == x
  {
  }

  lemma CastIs(r: Request, ch: char, base: nat, args: seq<Arg>, k: nat, at: nat, x: int)
    requires InBase(ch, base) && IntAt(args, k + Stars(r))
    requires Cast(r.length, ch == 'd' || ch == 'i', args[k + Stars(r)].v, x)
    ensures IntegerArg(Meaning(r, at, args, k).flags, ch, args, k + Stars(r)) == Some(x)
    ensures x < 0 ==> ch == 'd' || ch == 'i'
  {
    hide Meaning, IntegerArg, Modulus, PassedModulus;
    FlagsAsked(r, at, args, k);
    if ch == 'd' || ch == 'i' {
      SignedCast(Meaning(r, at, args, k).flags, r.length, ch, args, k + Stars(r), x);
    } else {
      UnsignedCast(Meaning(r, at, args, k).flags, r.length, ch, args, k + Stars(r), x);
    }
  }

  // ---------------------------------------------------------------- texts in fields of spaces

  /** A text at its end of a field of spaces. */
  predicate Placed(text: string, body: string, width: nat, left: bool) {
    && |text| == Max(width, |body|)
    && var from := if left then 0 else |text| - |body|;
       forall i :: 0 <= i < |text| ==> text[i] == if from <= i < from + |body| then body[i - from] else ' '
  }

  lemma PaddedPlaced(body: string, width: nat, left: bool, text: string)
    ensures Placed(text, body, width, left) <==> text == Padded(body, width, left)
  {
    var p := Padded(body, width, left);
    assert Placed(p, body, width, left);
    if Placed(text, body, width, left) {
      assert |text| == |p| && forall i :: 0 <= i < |text| ==> text[i] == p[i];
    }
  }

  // ---------------------------------------------------------------- one conversion

  /** What a conversion prints, with the arguments from k on. */
  ghost predicate Prints(r: Request, ch: char, args: seq<Arg>, k: nat, text: string) {
    var a := k + Stars(r);
    var (width, left) := (ColumnsAsked(r, args, k), LeftAsked(r, args, k));
    && StarArgs(r, args, k)
    && if IsInteger(ch) then
         && IntAt(args, a)
         && exists base, x :: InBase(ch, base) && Cast(r.length, ch == 'd' || ch == 'i', args[a].v, x) &&
              text == Shown(IntegerStyle(r, ch, x, args, k), NumeralAsked(r, ch, base, x))
       else if ch == 'c' then
         && IntAt(args, a) && InRange(true, TWO32, args[a].v)
         && Placed(text, [(args[a].v % 0x100) as char], width, left)
       else if ch == 's' then
         && a < |args| && args[a].Str?
         && var n := if r.prec.Absent? then |args[a].s| else Min(|args[a].s|, PrecAsked(r, args, k));
            Placed(text, args[a].s[..n], width, left)
       else if ch == 'p' then
         && IntAt(args, a) && 0 <= args[a].v < TWO64
         && text == Shown(PointerStyle(r, args[a].v, args, k),
                          if !r.prec.Absent? && args[a].v == 0 then "" else Positional(args[a].v, 16, true))
       else text == [ch]
  }

  predicate TakesArgument(ch: char) {
    IsInteger(ch) || ch == 'c' || ch == 's' || ch == 'p'
  }

  /** The argument behind those that a conversion takes. */
  function ArgBehind(r: Request, ch: char, k: nat): nat {
    k + Stars(r) + (if TakesArgument(ch) then 1 else 0)
  }

  lemma IntegerConverted(r: Request, ch: char, args: seq<Arg>, k: nat, at: nat, text: string)
    requires Prints(r, ch, args, k, text) && IsInteger(ch)
    ensures Convert(ch, Meaning(r, at, args, k), args) == Some((text, 1))
  {
    hide Meaning, Shown, IntegerStyle, NumeralAsked, StarArgs, Cast, IntegerArg, NumberText, IntegerFlags;
    var p := Meaning(r, at, args, k);
    AmountsAsked(r, at, args, k);
    var base, x :| InBase(ch, base) && Cast(r.length, ch == 'd' || ch == 'i', args[k + Stars(r)].v, x) &&
      text == Shown(IntegerStyle(r, ch, x, args, k), NumeralAsked(r, ch, base, x));
    CastIs(r, ch, base, args, k, at, x);
    IntegerIs(r, ch, base, x, args, k, at);
    ConvertInteger(ch, p, args);
  }

  lemma CharConverted(r: Request, args: seq<Arg>, k: nat, at: nat, text: string)
    requires Prints(r, 'c', args, k, text)
    ensures Convert('c', Meaning(r, at, args, k), args) == Some((text, 1))
  {
    hide Meaning, Placed, Padded, StarArgs, ColumnsAsked, LeftAsked;
    AmountsAsked(r, at, args, k);
    FlagsAsked(r, at, args, k);
    PaddedPlaced([(args[k + Stars(r)].v % 0x100) as char], ColumnsAsked(r, args, k), LeftAsked(r, args, k), text);
  }

  lemma StringConverted(r: Request, args: seq<Arg>, k: nat, at: nat, text: string)
    requires Prints(r, 's', args, k, text)
    ensures Convert('s', Meaning(r, at, args, k), args) == Some((text, 1))
  {
    hide Meaning, Placed, Padded, StarArgs, ColumnsAsked, LeftAsked, PrecAsked;
    AmountsAsked(r, at, args, k);
    FlagsAsked(r, at, args, k);
    var s := args[k + Stars(r)].s;
    assert s[..|s|] == s;
    PaddedPlaced(s[..if r.prec.Absent? then |s| else Min(|s|, PrecAsked(r, args, k))],
                 ColumnsAsked(r, args, k), LeftAsked(r, args, k), text);
  }

  lemma PointerStyleIs(r: Request, x: nat, args: seq<Arg>, k: nat, at: nat)
    ensures var p := Meaning(r, at, args, k);
            StyleOf(x, false, 16, p.prec, 16, p.flags + {ZEROPAD, UPPERCASE}) == PointerStyle(r, x, args, k)
  {
    hide Meaning, LeftAsked, PrecAsked;
    AmountsAsked(r, at, args, k);
    FlagsAsked(r, at, args, k);
  }

  lemma PointerConverted(r: Request, args: seq<Arg>, k: nat, at: nat, text: string)
    requires Prints(r, 'p', args, k, text)
    ensures Convert('p', Meaning(r, at, args, k), args) == Some((text, 1))
  {
    hide Meaning, StyleOf, PointerStyle, StarArgs, NumberText, Shown, Positional;
    var (p, x) := (Meaning(r, at, args, k), args[k + Stars(r)].v);
    AmountsAsked(r, at, args, k);
    FlagsAsked(r, at, args, k);
    PointerStyleIs(r, x, args, k, at);
    NumberShape(x, false, 16, p.prec, 16, p.flags + {ZEROPAD, UPPERCASE});
  }

  lemma ConversionPrints(r: Request, ch: char, args: seq<Arg>, k: nat, at: nat, text: string)
    requires Prints(r, ch, args, k, text) && !IsFloat(ch) && ch != '\0'
    ensures Convert(ch, Meaning(r, at, args, k), args) == Some((text, if TakesArgument(ch) then 1 else 0))
  {
    if IsInteger(ch) {
      IntegerConverted(r, ch, args, k, at, text);
    } else if ch == 'c' {
      CharConverted(r, args, k, at, text);
    } else if ch == 's' {
      StringConverted(r, args, k, at, text);
    } else if ch == 'p' {
      PointerConverted(r, args, k, at, text);
    }
  }

  // ---------------------------------------------------------------- whole formats

  /** A piece of a format: a text without a percent sign, or a conversion with its request. */
  datatype Item = Text(t: string) | Conversion(r: Request, ch: char)

  predicate NoPercent(t: string) {
    forall i :: 0 <= i < |t| ==> t[i] != '%'
  }

  predicate ValidItem(m: Item) {
    match m
    case Text(t) => NoPercent(t)
    case Conversion(r, ch) => ValidRequest(r) && Ends(ch) && !IsFloat(ch) && ch != '\0'
  }

  function Written(m: Item): string {
    match m
    case Text(t) => t
    case Conversion(r, ch) => FormatOf(r, ch)
  }

  function Format(ms: seq<Item>): string {
    if ms == [] then "" else Written(ms[0]) + Format(ms[1..])
  }

  function Next(m: Item, k: nat): nat {
    match m
    case Text(_) => k
    case Conversion(r, ch) => ArgBehind(r, ch, k)
  }

  /** The first argument that the items leave over. */
  function End(ms: seq<Item>, k: nat): nat
    decreases ms
  {
    if ms == [] then k else End(ms[1..], Next(ms[0], k))
  }

  ghost predicate ItemPrints(m: Item, args: seq<Arg>, k: nat, text: string) {
    match m
    case Text(t) => text == t
    case Conversion(r, ch) => Prints(r, ch, args, k, text)
  }

  /** Each item prints its text, with the arguments behind those of the items before it. */
  ghost predicate AllPrint(ms: seq<Item>, args: seq<Arg>, k: nat, texts: seq<string>)
    decreases ms
  {
    && |texts| == |ms|
    && (ms != [] ==>
          && ValidItem(ms[0]) && ItemPrints(ms[0], args, k, texts[0])
          && AllPrint(ms[1..], args, Next(ms[0], k), texts[1..]))
  }

  function Joined(texts: seq<string>): string {
    if texts == [] then "" else texts[0] + Joined(texts[1..])
  }

  /** A text in front of one that may be undefined. */
  function Before(text: string, o: Option<string>): Option<string> {
    if o.None? then None else Some(text + o.value)
  }

  lemma PieceThen(t: string, s: string, args: seq<Arg>, k: nat, text: string, next: nat)
    requires t != "" && var at: nat := |t|; Piece(t + s, 0, args, k) == Some((text, at, next))
    ensures Render(t + s, 0, args, k) == Before(text, Render(s, 0, args, next))
  {
    hide Piece;
    RenderShift(t, s, 0, args, next);
  }

  /** A text without a percent sign is printed as it is. */
  lemma {:induction false} LiteralPrinted(t: string, s: string, args: seq<Arg>, k: nat)
    requires NoPercent(t)
    ensures Render(t + s, 0, args, k) == Before(t, Render(s, 0, args, k))
  {
    hide Render;
    if t == "" {
      assert "" + s == s;
      if Render(s, 0, args, k).Some? {
        assert "" + Render(s, 0, args, k).value == Render(s, 0, args, k).value;
      }
    } else {
      assert t + s == [t[0]] + (t[1..] + s);
      PieceThen([t[0]], t[1..] + s, args, k, [t[0]], k);
      LiteralPrinted(t[1..], s, args, k);
      if Render(s, 0, args, k).Some? {
        assert [t[0]] + (t[1..] + Render(s, 0, args, k).value) == t + Render(s, 0, args, k).value;
      }
    }
  }

  lemma SpelledStands(spelled: string, ch: char, s: string)
    ensures var u := "%" + spelled + [ch] + s;
            && |u| >= |spelled| + 2 && u[0] == '%' && Stands(u, 1, spelled) && At(u, 1 + |spelled|) == ch
  {
  }

  /** A conversion is printed as its request asks, and the format behind it goes on with the arguments behind those of
      the conversion. */
  lemma ConversionPrinted(r: Request, ch: char, s: string, args: seq<Arg>, k: nat, text: string)
    requires ValidItem(Conversion(r, ch)) && Prints(r, ch, args, k, text)
    ensures Render(FormatOf(r, ch) + s, 0, args, k) == Before(text, Render(s, 0, args, ArgBehind(r, ch, k)))
  {
    hide Prints, Meaning, ReadSpecifier, Convert, Spell, ValidRequest, StarArgs, Stands, Render, Piece;
    var u := FormatOf(r, ch) + s;
    var at := 1 + |Spell(r)|;
    SpelledStands(Spell(r), ch, s);
    PrintsStars(r, ch, args, k, text);
    SpellThenParse(u, 1, r, args, k);
    ConversionPrints(r, ch, args, k, at, text);
    AmountsAsked(r, at, args, k);
    PieceText(u, 0, args, k, Meaning(r, at, args, k), text, if TakesArgument(ch) then 1 else 0);
    PieceThen(FormatOf(r, ch), s, args, k, text, ArgBehind(r, ch, k));
  }

  lemma PrintsStars(r: Request, ch: char, args: seq<Arg>, k: nat, text: string)
    requires Prints(r, ch, args, k, text)
    ensures StarArgs(r, args, k)
  {
  }

  lemma BeforeBefore(a: string, b: string, o: Option<string>)
    ensures Before(a, Before(b, o)) == Before(a + b, o)
  {
    if o.Some? {
      assert a + (b + o.value) == a + b + o.value;
    }
  }

  lemma BeforeNothing(o: Option<string>)
    ensures Before("", o) == o
  {
    if o.Some? {
      assert "" + o.value == o.value;
    }
  }

  lemma ItemPrinted(m: Item, s: string, args: seq<Arg>, k: nat, text: string)
    requires ValidItem(m) && ItemPrints(m, args, k, text)
    ensures Render(Written(m) + s, 0, args, k) == Before(text, Render(s, 0, args, Next(m, k)))
  {
    hide Render, Prints, Before;
    match m
    case Text(t) => LiteralPrinted(t, s, args, k);
    case Conversion(r, ch) => ConversionPrinted(r, ch, s, args, k, text);
  }

  lemma FormatFirst(ms: seq<Item>, s: string)
    requires ms != []
    ensures Format(ms) + s == Written(ms[0]) + (Format(ms[1..]) + s)
  {
  }

  /** Any list of texts and conversions, written one behind the other in front of any other format, prints the texts as
      they are and each conversion as its request asks, in order, each conversion with the arguments behind those of the
      conversions before it, and then what the other format prints with the arguments that are left. */
  lemma {:induction false} FormatPrints(ms: seq<Item>, s: string, args: seq<Arg>, k: nat, texts: seq<string>)
    requires AllPrint(ms, args, k, texts)
    ensures Render(Format(ms) + s, 0, args, k) == Before(Joined(texts), Render(s, 0, args, End(ms, k)))
    decreases ms
  {
    hide Render, ItemPrints, ValidItem, Before, Written, Next;
    var rest := Render(s, 0, args, End(ms, k));
    if ms == [] {
      assert "" + s == s;
      BeforeNothing(rest);
    } else {
      FormatFirst(ms, s);
      ItemPrinted(ms[0], Format(ms[1..]) + s, args, k, texts[0]);
      FormatPrints(ms[1..], s, args, Next(ms[0], k), texts[1..]);
      BeforeBefore(texts[0], Joined(texts[1..]), rest);
    }
  }

  /** Such a list as the whole format. */
  lemma WholeFormat(ms: seq<Item>, args: seq<Arg>, texts: seq<string>)
    requires AllPrint(ms, args, 0, texts)
    ensures Render(Format(ms), 0, args, 0) == Some(Joined(texts))
  {
    FormatPrints(ms, "", args, 0, texts);
    assert Format(ms) + "" == Format(ms) && Joined(texts) + "" == Joined(texts);
  }

  /** Two percent signs print one and take no argument. */
  lemma PercentPrinted(s: string, args: seq<Arg>, k: nat)
    requires k <= |args|
    ensures Render("%%" + s, 0, args, k) == Before("%", Render(s, 0, args, k))
  {
    hide Render, Prints;
    var r := Request("", Absent, Absent, Length.Plain);
    assert Spell(r) == "" && FormatOf(r, '%') == "%%";
    PercentPrints(r, args, k);
    ConversionPrinted(r, '%', s, args, k, "%");
  }

  lemma PercentPrints(r: Request, args: seq<Arg>, k: nat)
    requires r == Request("", Absent, Absent, Length.Plain) && k <= |args|
    ensures Prints(r, '%', args, k, "%")
  {
  }

  /** A format that is one conversion. */
  lemma OnePrinted(r: Request, ch: char, args: seq<Arg>, text: string)
    requires ValidItem(Conversion(r, ch)) && Prints(r, ch, args, 0, text)
    ensures Render(FormatOf(r, ch), 0, args, 0) == Some(text)
  {
    hide Render, Prints, Spell;
    ConversionPrinted(r, ch, "", args, 0, text);
    assert FormatOf(r, ch) + "" == FormatOf(r, ch) && text + "" == text;
    RenderNothing(args, ArgBehind(r, ch, 0));
  }

  lemma RenderNothing(args: seq<Arg>, k: nat)
    ensures Render("", 0, args, k) == Some("")
  {
  }

  // ---------------------------------------------------------------- reading back

  /** A string conversion: as many characters of the string as there are, or as the precision allows, stand at the right
      end of the field, or at the left one, and everything else is spaces. */
  lemma StringPrinted(r: Request, args: seq<Arg>, s: string) returns (text: string)
    requires ValidRequest(r) && StarArgs(r, args, 0) && Stars(r) < |args| && args[Stars(r)] == Str(s)
    ensures Render(FormatOf(r, 's'), 0, args, 0) == Some(text)
    ensures var n := if r.prec.Absent? then |s| else Min(|s|, PrecAsked(r, args, 0));
            var from := if LeftAsked(r, args, 0) then 0 else |text| - n;
            && |text| == Max(ColumnsAsked(r, args, 0), n)
            && (forall i :: 0 <= i < n ==> text[from + i] == s[i])
            && (forall i :: 0 <= i < |text| && !(from <= i < from + n) ==> text[i] == ' ')
  {
    hide Render, ValidRequest, StarArgs, PrecAsked, ColumnsAsked, LeftAsked, Padded;
    var n := if r.prec.Absent? then |s| else Min(|s|, PrecAsked(r, args, 0));
    text := Padded(s[..n], ColumnsAsked(r, args, 0), LeftAsked(r, args, 0));
    PaddedPlaced(s[..n], ColumnsAsked(r, args, 0), LeftAsked(r, args, 0), text);
    OnePrinted(r, 's', args, text);
    var from := if LeftAsked(r, args, 0) then 0 else |text| - n;
    forall i | 0 <= i < n ensures text[from + i] == s[i] {
      assert text[from + i] == s[..n][from + i - from];
    }
  }

  /** An integer conversion with everything it may be asked for. */
  lemma IntegerPrinted(r: Request, ch: char, base: nat, args: seq<Arg>, x: int)
    requires ValidRequest(r) && StarArgs(r, args, 0) && InBase(ch, base) && IntAt(args, Stars(r))
    requires Cast(r.length, ch == 'd' || ch == 'i', args[Stars(r)].v, x)
    ensures Render(FormatOf(r, ch), 0, args, 0)
         == Some(Shown(IntegerStyle(r, ch, x, args, 0), NumeralAsked(r, ch, base, x)))
  {
    hide Render, ValidRequest, StarArgs, IntegerStyle, NumeralAsked, Shown, Cast;
    OnePrinted(r, ch, args, Shown(IntegerStyle(r, ch, x, args, 0), NumeralAsked(r, ch, base, x)));
  }

  /** Whether the sign finds a place in the number buffer. */
  predicate SignStays(y: Style, numeral: string) {
    |Core(y, numeral)| < BUFFER_SIZE
  }

  lemma SignPlace(value: nat, negative: bool, base: nat, prec: nat, width: nat, f: Flags)
    requires 2 <= base <= 16 && HASH !in f
    ensures SignFits(|NumberDigits(value, base, f)|, negative, prec, width, f)
       <==> SignStays(StyleOf(value, negative, base, prec, width, f),
                      if PRECISION in f && value == 0 then "" else Positional(value, base, UPPERCASE in f))
  {
    hide PadZeros, NumberDigits, Reverse, Positional, Core, Last, PaddedSize;
    var y := StyleOf(value, negative, base, prec, width, f);
    var numeral := if PRECISION in f && value == 0 then "" else Positional(value, base, UPPERCASE in f);
    var d := NumberDigits(value, base, f);
    DigitsShown(value, base, f, numeral);
    PadShown(d, negative, prec, width, f, y);
    PadSize(d, negative, prec, width, f);
    CoreOfLast(y, numeral);
  }

  /** From a request to the text and back, in the base that the conversion stands for: whatever flags but the alternate
      form, width, precision, length modifier and stars it is asked for with, the printed text reads as the argument in
      the type of its length modifier; exactly, except that base 2 keeps 32 digits and that the sign is lost when the
      digits and zeros leave it no place. */
  lemma RequestThenRead(r: Request, ch: char, base: nat, args: seq<Arg>, x: int)
    requires ValidRequest(r) && StarArgs(r, args, 0) && InBase(ch, base) && IntAt(args, Stars(r))
    requires Cast(r.length, ch == 'd' || ch == 'i', args[Stars(r)].v, x) && '#' !in r.flags
    ensures var text := Render(FormatOf(r, ch), 0, args, 0);
            && text.Some?
            && ReadBack(text.value, base)
               == (x < 0 && SignStays(IntegerStyle(r, ch, x, args, 0), NumeralAsked(r, ch, base, x)),
                   if base == 2 then Magnitude(x) % TWO32 else Magnitude(x))
  {
    hide Render, ValidRequest, StarArgs, IntegerStyle, Shown, SignStays, Meaning, IntegerFlags, StyleOf,
         SignFits, NumberText, Positional, ReadBack;
    var p := Meaning(r, 0, args, 0);
    var f := IntegerFlags(p.flags, ch);
    CastIs(r, ch, base, args, 0, 0, x);
    IntegerPrinted(r, ch, base, args, x);
    IntegerIs(r, ch, base, x, args, 0, 0);
    IntegerStyleIs(r, ch, base, x, args, 0, 0);
    FlagsAsked(r, 0, args, 0);
    FlagsConverted(p.flags, ch);
    SignPlace(Magnitude(x), x < 0, base, p.prec, p.width, f);
    PrintThenRead(Magnitude(x), x < 0, base, p.prec, p.width, f);
  }

  /** A sign without a place in the number buffer is not printed: -1 with 32 digits reads as 1. */
  lemma SignLost()
    ensures var text := Render("%.32d", 0, [Int(-1)], 0);
            text.Some? && ReadBack(text.value, 10) == (false, 1)
  {
    hide Render, ReadBack, FormatOf, SignStays;
    var (r, args) := (Request("", Absent, Given("32"), Length.Plain), [Int(-1)]);
    SignLostSpelled(r);
    RequestThenRead(r, 'd', 10, args, -1);
    ThirtyTwo();
    assert !SignStays(IntegerStyle(r, 'd', -1, args, 0), NumeralAsked(r, 'd', 10, -1)) by {
      FullCore(IntegerStyle(r, 'd', -1, args, 0), NumeralAsked(r, 'd', 10, -1));
    }
  }

  lemma SignLostSpelled(r: Request)
    requires r == Request("", Absent, Given("32"), Length.Plain)
    ensures FormatOf(r, 'd') == "%.32d"
  {
  }

  lemma FullCore(y: Style, numeral: string)
    requires y.prec == 32 && !y.left && !y.zero
    ensures !SignStays(y, numeral)
  {
  }

  lemma ThirtyTwo()
    ensures Numeral("32", 10) == 32
  {
    assert "32"[..1] == "3" && "3"[..0] == "";
    assert Numeral("3", 10) == 3;
  }

  // ---------------------------------------------------------------- letters

  /** No letter of the other case. */
  predicate OneCase(s: string, upper: bool) {
    forall i :: 0 <= i < |s| ==> if upper then !('a' <= s[i] <= 'z') else !('A' <= s[i] <= 'Z')
  }

  lemma {:induction false} PositionalCase(n: nat, base: nat, upper: bool)
    requires 2 <= base <= 16
    ensures OneCase(Positional(n, base, upper), upper)
  {
    Shrinks(n, base);
    if n >= base {
      PositionalCase(n / base, base, upper);
    }
  }

  lemma ShownCase(y: Style, numeral: string, upper: bool)
    requires OneCase(y.sign, upper) && OneCase(y.prefix, upper) && OneCase(numeral, upper)
    ensures OneCase(Shown(y, numeral), upper)
  {
    hide Displaced, Fill;
    assert OneCase(Core(y, numeral), upper);
    assert OneCase(Body(y, numeral), upper);
  }

  /** `%X` prints no small letter and every other integer conversion no capital, whatever it is asked for with. */
  lemma LettersPrinted(r: Request, ch: char, base: nat, args: seq<Arg>, x: int)
    requires ValidRequest(r) && StarArgs(r, args, 0) && InBase(ch, base) && IntAt(args, Stars(r))
    requires Cast(r.length, ch == 'd' || ch == 'i', args[Stars(r)].v, x)
    ensures var text := Render(FormatOf(r, ch), 0, args, 0);
            text.Some? && OneCase(text.value, ch == 'X')
  {
    hide Render, ValidRequest, StarArgs, Shown, Cast, Positional, FormatOf;
    IntegerPrinted(r, ch, base, args, x);
    PositionalCase(Magnitude(x), base, ch == 'X');
    ShownCase(IntegerStyle(r, ch, x, args, 0), NumeralAsked(r, ch, base, x), ch == 'X');
  }
}
