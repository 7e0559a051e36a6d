/** What the integer and string half of src/libc/printf.c prints: the ideal text of each conversion, and of a whole
    format with its arguments. */
module PrintfSpec {

  const BUFFER_SIZE: nat := 32
  const TWO31: int := 0x8000_0000
  const TWO32: int := 0x1_0000_0000
  const TWO63: int := 0x8000_0000_0000_0000
  const TWO64: int := 0x1_0000_0000_0000_0000

  datatype Option<T> = None | Some(value: T) {
    predicate IsFailure() {
      None?
    }

    function PropagateFailure<U>(): Option<U>
      requires None?
    {
      None
    }

    function Extract(): T
      requires Some?
    {
      value
    }
  }

  /** The bits of the flag word, and the word as the set of those that are one. */
  datatype Flag =
    | ZEROPAD | LEFT | PLUS | SPACE | HASH | UPPERCASE | CHAR | SHORT | LONG | LONG_LONG | PRECISION

  type Flags = set<Flag>

  const NO_FLAGS: Flags := {}

  function Max(x: nat, y: nat): nat {
    if x < y then y else x
  }

  function Min(x: nat, y: nat): nat {
    if x < y then x else y
  }

  function Repeat(ch: char, n: int): (s: string)
    ensures |s| == (if n > 0 then n else 0) && forall i :: 0 <= i < |s| ==> s[i] == ch
  {
    if n <= 0 then "" else seq(n, _ => ch)
  }

  function Reverse(s: string): (r: string)
    ensures |r| == |s|
  {
    if s == "" then "" else Reverse(s[1..]) + [s[0]]
  }

  // ---------------------------------------------------------------- numbers

  function DigitChar(d: nat, upper: bool): char
    requires d < 16
  {
    if d < 10 then '0' + d as char else (if upper then 'A' else 'a') + (d - 10) as char
  }

  /** `value / base` and `value % base`, by repeated subtraction: the solver then needs no nonlinear arithmetic. */
  function Quotient(value: nat, base: nat): (q: nat)
    requires base > 0
    ensures q <= value
  {
    if value < base then 0 else 1 + Quotient(value - base, base)
  }

  function Remainder(value: nat, base: nat): (r: nat)
    requires base > 0
    ensures r < base
  {
    if value < base then value else Remainder(value - base, base)
  }

  lemma {:induction false} Division(value: nat, base: nat)
    requires base > 0
    ensures value == base * Quotient(value, base) + Remainder(value, base)
  {
    if value >= base {
      Division(value - base, base);
      assert base * (1 + Quotient(value - base, base)) == base + base * Quotient(value - base, base);
    }
  }

  lemma SameParts(base: nat, q: nat, r: nat, p: nat, t: nat)
    requires r < base && t < base && base * q + r == base * p + t
    ensures q == p && r == t
  {
    Product(base, p + 1, q);
    Product(base, q + 1, p);
  }

  lemma EuclideanParts(value: nat, base: nat)
    requires base > 0
    ensures value == base * (value / base) + value % base
  {
  }

  lemma DivisionIs(value: nat, base: nat)
    requires base > 0
    ensures Quotient(value, base) == value / base && Remainder(value, base) == value % base
  {
    Division(value, base);
    EuclideanParts(value, base);
    SameParts(base, Quotient(value, base), Remainder(value, base), value / base, value % base);
  }

  /** Quotient and remainder are the only ones. */
  lemma DivisionUnique(value: nat, base: nat, q: nat, r: nat)
    requires r < base && value == base * q + r
    ensures q == Quotient(value, base) && r == Remainder(value, base)
  {
    Division(value, base);
    SameParts(base, q, r, Quotient(value, base), Remainder(value, base));
  }

  lemma Product(b: nat, x: nat, y: nat)
    ensures x <= y ==> b * x <= b * y
  {
  }

  /** The digits of a value, least significant first, as far as there is room. */
  function Digits(value: nat, base: nat, upper: bool, room: nat): (s: string)
    requires 2 <= base <= 16 && room > 0
    ensures 1 <= |s| <= room
    decreases room, value
  {
    [DigitChar(Remainder(value, base), upper)]
    + (if Quotient(value, base) > 0 && room > 1 then Digits(Quotient(value, base), base, upper, room - 1) else "")
  }

  function FillZeros(rev: string, target: nat): string {
    rev + Repeat('0', Min(target, BUFFER_SIZE) - |rev|)
  }

  predicate Signed(negative: bool, f: Flags) {
    negative || PLUS in f || SPACE in f
  }

  /** The width that zero padding fills up to, with the place of a sign left free. */
  function ZeroWidth(negative: bool, width: nat, f: Flags): nat {
    if LEFT !in f && width > 0 && ZEROPAD in f && Signed(negative, f) then width - 1 else width
  }

  function PadZeros(rev: string, negative: bool, prec: nat, width: nat, f: Flags): string {
    if LEFT in f then rev
    else
      var r := FillZeros(rev, prec);
      if ZEROPAD in f then FillZeros(r, ZeroWidth(negative, width, f)) else r
  }

  function Put(rev: string, ch: char): string {
    if |rev| < BUFFER_SIZE then rev + [ch] else rev
  }

  /** The alternate form; it may drop digits that fill the field exactly. */
  function Alternate(rev: string, base: nat, prec: nat, width: nat, f: Flags): string {
    var full := PRECISION !in f && |rev| > 0 && (|rev| == prec || |rev| == width);
    var cut := if !full then rev
               else if |rev| > 1 && base == 16 then rev[..|rev| - 2] else rev[..|rev| - 1];
    var marked := if base == 16 then Put(cut, if UPPERCASE in f then 'X' else 'x')
                  else if base == 2 then Put(cut, 'b') else cut;
    Put(marked, '0')
  }

  function AddSign(rev: string, negative: bool, f: Flags): string {
    if negative then Put(rev, '-') else if PLUS in f then Put(rev, '+') else if SPACE in f then Put(rev, ' ') else rev
  }

  /** A reversed number in its field. */
  function Field(rev: string, width: nat, f: Flags): string {
    (if LEFT !in f && ZEROPAD !in f then Repeat(' ', width - |rev|) else "")
    + Reverse(rev)
    + (if LEFT in f then Repeat(' ', width - |rev|) else "")
  }

  /** The reversed contents of the buffer when _ntoa_format has finished with it. */
  function Assemble(rev: string, negative: bool, base: nat, prec: nat, width: nat, f: Flags): string {
    var padded := PadZeros(rev, negative, prec, width, f);
    var marked := if HASH in f then Alternate(padded, base, prec, ZeroWidth(negative, width, f), f) else padded;
    AddSign(marked, negative, f)
  }

  function FormatText(rev: string, negative: bool, base: nat, prec: nat, width: nat, f: Flags): string {
    Field(Assemble(rev, negative, base, prec, width, f), ZeroWidth(negative, width, f), f)
  }

  /** The digits of a number as _ntoa_long leaves them: none for a zero with an explicit precision. */
  function NumberDigits(value: nat, base: nat, f: Flags): string
    requires 2 <= base <= 16
  {
    if PRECISION in f && value == 0 then "" else Digits(value, base, UPPERCASE in f, BUFFER_SIZE)
  }

  /** What _ntoa_long and _ntoa_long_long print. */
  function NumberText(value: nat, negative: bool, base: nat, prec: nat, width: nat, f: Flags): string
    requires 2 <= base <= 16
  {
    var f' := if value == 0 then f - {HASH} else f;
    FormatText(NumberDigits(value, base, f'), negative, base, prec, width, f')
  }

  // ---------------------------------------------------------------- strings and characters

  function Padded(s: string, width: nat, left: bool): string {
    if left then s + Repeat(' ', width - |s|) else Repeat(' ', width - |s|) + s
  }

  function StringText(s: string, prec: nat, width: nat, f: Flags): string {
    Padded(if PRECISION in f && prec < |s| then s[..prec] else s, width, LEFT in f)
  }

  // ---------------------------------------------------------------- specifiers

  function At(s: string, i: nat): char {
    if i < |s| then s[i] else '\0'
  }

  predicate IsDigit(ch: char) {
    '0' <= ch <= '9'
  }

  /** One past the last digit from position i on. */
  function DigitsEnd(s: string, i: nat): (e: nat)
    ensures i <= e && (i <= |s| ==> e <= |s|)
    ensures !IsDigit(At(s, e)) && forall j :: i <= j < e ==> IsDigit(At(s, j))
    decreases |s| - i
  {
    if IsDigit(At(s, i)) then DigitsEnd(s, i + 1) else i
  }

  function DigitValue(ch: char): nat
    requires IsDigit(ch)
  {
    (ch - '0') as nat
  }

  /** The value of a decimal numeral. */
  function Decimal(s: string): nat
    requires forall i :: 0 <= i < |s| ==> IsDigit(s[i])
  {
    if s == "" then 0 else Decimal(s[..|s| - 1]) * 10 + DigitValue(s[|s| - 1])
  }

  /** The number read at position i, in the arithmetic of `unsigned int`. */
  function NumberAt(s: string, i: nat): nat
    requires i <= |s|
  {
    var numeral := s[i..DigitsEnd(s, i)];
    assert forall j :: 0 <= j < |numeral| ==> numeral[j] == At(s, i + j);
    Decimal(numeral) % TWO32
  }

  datatype Arg = Int(v: int) | Str(s: string)

  /** A specifier as far as its conversion character, with the positions behind it in format and arguments. */
  datatype Specifier = Specifier(flags: Flags, width: nat, prec: nat, at: nat, argAt: nat)

  predicate IsFlag(ch: char) {
    ch == '0' || ch == '-' || ch == '+' || ch == ' ' || ch == '#'
  }

  function SetFlag(f: Flags, ch: char): Flags {
    if ch == '0' then f + {ZEROPAD}
    else if ch == '-' then f + {LEFT}
    else if ch == '+' then f + {PLUS}
    else if ch == ' ' then f + {SPACE}
    else if ch == '#' then f + {HASH}
    else f
  }

  function ReadFlags(s: string, i: nat, f: Flags): (r: (Flags, nat))
    ensures i <= r.1 && (i <= |s| ==> r.1 <= |s|)
    decreases |s| - i
  {
    if IsFlag(At(s, i)) then ReadFlags(s, i + 1, SetFlag(f, At(s, i))) else (f, i)
  }

  /** An argument of type `int`. */
  function IntArg(args: seq<Arg>, k: nat): Option<int> {
    if k < |args| && args[k].Int? && -TWO31 <= args[k].v < TWO31 then Some(args[k].v) else None
  }

  /** Undefined when a `*` finds no int to read, or one that cannot be negated. */
  function ReadWidth(s: string, i: nat, f: Flags, args: seq<Arg>, k: nat): (r: Option<Specifier>)
    requires i <= |s|
    ensures r.Some? ==> i <= r.value.at <= |s| && k <= r.value.argAt
  {
    if IsDigit(At(s, i)) then Some(Specifier(f, NumberAt(s, i), 0, DigitsEnd(s, i), k))
    else if At(s, i) == '*' then
      var w :- IntArg(args, k);
      if w == -TWO31 then None
      else if w < 0 then Some(Specifier(f + {LEFT}, -w, 0, i + 1, k + 1))
      else Some(Specifier(f, w, 0, i + 1, k + 1))
    else Some(Specifier(f, 0, 0, i, k))
  }

  function ReadPrecision(s: string, p: Specifier, args: seq<Arg>): (r: Option<Specifier>)
    requires p.at <= |s|
    ensures r.Some? ==> p.at <= r.value.at <= |s| && p.argAt <= r.value.argAt
  {
    if At(s, p.at) != '.' then Some(p.(prec := 0))
    else ReadBehindPoint(s, p.(flags := p.flags + {PRECISION}, at := p.at + 1), args)
  }

  function ReadBehindPoint(s: string, p: Specifier, args: seq<Arg>): (r: Option<Specifier>)
    requires p.at <= |s|
    ensures r.Some? ==> p.at <= r.value.at <= |s| && p.argAt <= r.value.argAt
  {
    if IsDigit(At(s, p.at)) then Some(p.(prec := NumberAt(s, p.at), at := DigitsEnd(s, p.at)))
    else if At(s, p.at) == '*' then
      var n :- IntArg(args, p.argAt);
      Some(p.(prec := if n > 0 then n else 0, at := p.at + 1, argAt := p.argAt + 1))
    else Some(p.(prec := 0))
  }

  function ReadLength(s: string, p: Specifier): (r: Specifier)
    requires p.at <= |s|
    ensures p.at <= r.at <= |s| && r.argAt == p.argAt
  {
    var ch := At(s, p.at);
    if ch == 'l' then
      if At(s, p.at + 1) == 'l' then p.(flags := p.flags + {LONG, LONG_LONG}, at := p.at + 2)
      else p.(flags := p.flags + {LONG}, at := p.at + 1)
    else if ch == 'h' then
      if At(s, p.at + 1) == 'h' then p.(flags := p.flags + {SHORT, CHAR}, at := p.at + 2)
      else p.(flags := p.flags + {SHORT}, at := p.at + 1)
    else if ch == 't' || ch == 'j' || ch == 'z' then p.(flags := p.flags + {LONG}, at := p.at + 1)
    else p
  }

  /** The part of a specifier between the percent sign, just before i, and the conversion character. */
  function ReadSpecifier(s: string, i: nat, args: seq<Arg>, k: nat): (r: Option<Specifier>)
    requires i <= |s|
    ensures r.Some? ==> i <= r.value.at <= |s| && k <= r.value.argAt
  {
    var (f, j) := ReadFlags(s, i, NO_FLAGS);
    var p :- ReadWidth(s, j, f, args, k);
    var q :- ReadPrecision(s, p, args);
    Some(ReadLength(s, q))
  }

  // ---------------------------------------------------------------- conversions

  predicate IsInteger(ch: char) {
    ch == 'd' || ch == 'i' || ch == 'u' || ch == 'x' || ch == 'X' || ch == 'o' || ch == 'b'
  }

  predicate IsSigned(ch: char) {
    ch == 'd' || ch == 'i'
  }

  predicate IsFloat(ch: char) {
    ch == 'f' || ch == 'F' || ch == 'e' || ch == 'E' || ch == 'g' || ch == 'G'
  }

  function BaseOf(ch: char): (b: nat)
    ensures 2 <= b <= 16
  {
    if ch == 'x' || ch == 'X' then 16 else if ch == 'o' then 8 else if ch == 'b' then 2 else 10
  }

  function IntegerFlags(f: Flags, ch: char): Flags {
    var f1 := if BaseOf(ch) == 10 then f - {HASH} else f;
    var f2 := if ch == 'X' then f1 + {UPPERCASE} else f1;
    var f3 := if IsSigned(ch) then f2 else f2 - {PLUS, SPACE};
    if PRECISION in f3 then f3 - {ZEROPAD} else f3
  }

  /** Casts to `char` and to `short`. */
  function CastChar(v: int): int {
    (v + 0x80) % 0x100 - 0x80
  }

  function CastShort(v: int): int {
    (v + 0x8000) % 0x1_0000 - 0x8000
  }

  /** The value of an integer argument after the casts of its length modifier; undefined when the argument is missing
      or of the wrong type, and for the most negative value, which has no absolute value. */
  function IntegerArg(f: Flags, ch: char, args: seq<Arg>, k: nat): Option<int> {
    if k >= |args| || !args[k].Int? then None
    else
      var v := args[k].v;
      if IsSigned(ch) then
        if LONG_LONG in f || LONG in f then (if -TWO63 < v < TWO63 then Some(v) else None)
        else if !(-TWO31 <= v < TWO31) then None
        else if CHAR in f then Some(CastChar(v))
        else if SHORT in f then Some(CastShort(v))
        else if v == -TWO31 then None else Some(v)
      else
        if LONG_LONG in f || LONG in f then (if 0 <= v < TWO64 then Some(v) else None)
        else if !(0 <= v < TWO32) then None
        else if CHAR in f then Some(v % 0x100)
        else if SHORT in f then Some(v % 0x1_0000)
        else Some(v)
  }

  function Magnitude(v: int): nat {
    if v > 0 then v else -v
  }

  /** The text of one conversion, and how many arguments it takes; undefined without its argument, for a specifier that
      the end of the format cuts off, and for the floating-point conversions, which are not modelled. */
  function Convert(ch: char, p: Specifier, args: seq<Arg>): Option<(string, nat)> {
    var k := p.argAt;
    if IsInteger(ch) then
      var v :- IntegerArg(p.flags, ch, args, k);
      Some((NumberText(Magnitude(v), v < 0, BaseOf(ch), p.prec, p.width, IntegerFlags(p.flags, ch)), 1))
    else if IsFloat(ch) || ch == '\0' then None
    else if ch == 'c' then
      var v :- IntArg(args, k);
      Some((Padded([(v % 0x100) as char], p.width, LEFT in p.flags), 1))
    else if ch == 's' then
      if k < |args| && args[k].Str? then Some((StringText(args[k].s, p.prec, p.width, p.flags), 1)) else None
    else if ch == 'p' then
      if k < |args| && args[k].Int? && 0 <= args[k].v < TWO64 then
        Some((NumberText(args[k].v, false, 16, p.prec, 16, p.flags + {ZEROPAD, UPPERCASE}), 1))
      else None
    else Some(([ch], 0))
  }

  lemma ConvertInteger(ch: char, p: Specifier, args: seq<Arg>)
    requires IsInteger(ch) && IntegerArg(p.flags, ch, args, p.argAt).Some?
    ensures var v := IntegerArg(p.flags, ch, args, p.argAt).value;
            Convert(ch, p, args)
            == Some((NumberText(Magnitude(v), v < 0, BaseOf(ch), p.prec, p.width, IntegerFlags(p.flags, ch)), 1))
  {
  }

  /** A conversion with the positions behind its character; undefined at the end of the format. */
  function Behind(end: nat, p: Specifier, r: Option<(string, nat)>): Option<(string, nat, nat)> {
    var (text, used) :- r;
    if p.at >= end then None else Some((text, p.at + 1, p.argAt + used))
  }

  /** The text of the next piece of a format, with the positions behind it in format and arguments. */
  function Piece(s: string, i: nat, args: seq<Arg>, k: nat): (r: Option<(string, nat, nat)>)
    requires i < |s|
    ensures r.Some? ==> i < r.value.1 <= |s|
  {
    if s[i] != '%' then Some(([s[i]], i + 1, k))
    else
      var p :- ReadSpecifier(s, i + 1, args, k);
      Behind(|s|, p, Convert(At(s, p.at), p, args))
  }

  /** The whole text of a format from position i on, with the arguments from k on. */
  function Render(s: string, i: nat, args: seq<Arg>, k: nat): Option<string>
    requires i <= |s|
    decreases |s| - i
  {
    if i == |s| then Some("")
    else
      var (text, j, l) :- Piece(s, i, args, k);
      var rest :- Render(s, j, args, l);
      Some(text + rest)
  }

  /** A buffer with a text cut to m - 1 characters, a NUL behind it, and the old characters behind that. */
  function Truncated(text: string, m: nat, before: string): string
    requires m <= |before| || |text| < |before|
  {
    if m == 0 then before
    else
      var n := Min(|text|, m - 1);
      text[..n] + ['\0'] + before[n + 1..]
  }
}
