/** The parser of `_vsnprintf` against a printer of specifiers, and `_atoi` against the printed number. */
module PrintfParse {
  import opened PrintfSpec
  import opened PrintfLaws

  // ---------------------------------------------------------------- reading printed numbers

  predicate AllDigits(s: string) {
    forall i :: 0 <= i < |s| ==> IsDigit(s[i])
  }

  lemma {:induction false} RunOfDigits(s: string, i: nat, j: nat)
    requires i <= j <= |s| && AllDigits(s[i..j]) && !IsDigit(At(s, j))
    ensures DigitsEnd(s, i) == j
    decreases j - i
  {
    if i < j {
      assert s[i] == s[i..j][0];
      assert s[i + 1..j] == s[i..j][1..];
      RunOfDigits(s, i + 1, j);
    }
  }

  /** Both evaluations of a decimal numeral agree. */
  lemma {:induction false} DecimalIsNumeral(s: string)
    requires AllDigits(s)
    ensures Decimal(s) == Numeral(s, 10)
  {
    if s != "" {
      assert IsDigit(s[|s| - 1]);
      DecimalIsNumeral(s[..|s| - 1]);
    }
  }

  /** The decimal text of a number: what `%llu` prints. */
  function Dec(n: nat): string {
    NumberText(n, false, 10, 0, 0, NO_FLAGS)
  }

  lemma {:induction false} DecimalDigits(n: nat, room: nat)
    requires room > 0
    ensures AllDigits(Digits(n, 10, false, room))
    decreases room
  {
    if Quotient(n, 10) > 0 && room > 1 {
      DecimalDigits(Quotient(n, 10), room - 1);
    }
  }

  lemma {:induction false} ReverseEnds(s: string)
    requires s != ""
    ensures Reverse(s)[0] == s[|s| - 1]
  {
    if |s| > 1 {
      ReverseEnds(s[1..]);
    }
  }

  lemma {:induction false} ReverseDigits(s: string)
    requires AllDigits(s)
    ensures AllDigits(Reverse(s))
  {
    if s != "" {
      assert AllDigits(s[1..]);
      ReverseDigits(s[1..]);
    }
  }

  lemma DecPlain(n: nat)
    requires n < TWO64
    ensures Dec(n) == Reverse(Digits(n, 10, false, BUFFER_SIZE)) && Dec(n) != "" && AllDigits(Dec(n))
    ensures Numeral(Dec(n), 10) == n
    ensures n > 0 ==> Dec(n)[0] != '0'
  {
    var rev := Digits(n, 10, false, BUFFER_SIZE);
    DecIs(n);
    DecimalDigits(n, BUFFER_SIZE);
    ReverseDigits(rev);
    DigitsRead(n, 10, NO_FLAGS);
    if n > 0 {
      DecHead(n);
    }
  }

  /** Without flags, width and precision nothing stands around the digits. */
  lemma DecIs(n: nat)
    ensures Dec(n) == Reverse(Digits(n, 10, false, BUFFER_SIZE))
  {
    var rev := Digits(n, 10, false, BUFFER_SIZE);
    PlainText(n, false, 10, 0, 0, NO_FLAGS);
    assert FillZeros(rev, 0) == rev;
    assert Field(rev, 0, NO_FLAGS) == Reverse(rev);
  }

  lemma DecHead(n: nat)
    requires 0 < n < TWO64
    ensures Reverse(Digits(n, 10, false, BUFFER_SIZE))[0] != '0'
  {
    Power32(10);
    ReverseEnds(Digits(n, 10, false, BUFFER_SIZE));
    LeadingDigit(n, 10, false, BUFFER_SIZE);
  }

  /** Text t stands at position i of s. */
  predicate Stands(s: string, i: nat, t: string) {
    i + |t| <= |s| && s[i..i + |t|] == t
  }

  lemma StandsAt(s: string, i: nat, t: string, x: nat)
    requires Stands(s, i, t) && x < |t|
    ensures s[i + x] == t[x]
  {
    assert s[i + x] == s[i..i + |t|][x];
  }

  lemma SplitStands(s: string, i: nat, a: string, b: string)
    requires Stands(s, i, a + b)
    ensures Stands(s, i, a) && Stands(s, i + |a|, b)
  {
    assert (a + b)[..|a|] == a && (a + b)[|a|..] == b;
    assert s[i..i + |a|] == s[i..i + |a + b|][..|a|];
    assert s[i + |a|..i + |a| + |b|] == s[i..i + |a + b|][|a|..];
  }

  /** `_atoi` reads a numeral modulo 2^32, and stops right behind its digits. */
  lemma NumeralRead(d: string, s: string, i: nat)
    requires AllDigits(d) && Stands(s, i, d) && !IsDigit(At(s, i + |d|))
    ensures DigitsEnd(s, i) == i + |d| && NumberAt(s, i) == Numeral(d, 10) % TWO32
  {
    RunOfDigits(s, i, i + |d|);
    DecimalIsNumeral(d);
  }

  /** So it reads a printed number back modulo 2^32. */
  lemma PrintThenAtoi(n: nat, s: string, i: nat)
    requires n < TWO64 && Stands(s, i, Dec(n)) && !IsDigit(At(s, i + |Dec(n)|))
    ensures DigitsEnd(s, i) == i + |Dec(n)| && NumberAt(s, i) == n % TWO32
  {
    hide NumberAt, Dec, Numeral;
    DecPlain(n);
    NumeralRead(Dec(n), s, i);
  }

  // ---------------------------------------------------------------- printing and parsing a specifier

  /** A width or precision: none, a decimal numeral, or `*`. */
  datatype Amount = Absent | Given(numeral: string) | Star

  datatype Length = Plain | Char8 | Short16 | Long | LongLong | Ptrdiff | Intmax | Size

  /** A specifier as a caller thinks of it: flag characters in any order, width, precision and length modifier. A width
      has no leading zero, which would be a flag. */
  datatype Request = Request(flags: string, width: Amount, prec: Amount, length: Length)

  predicate ValidRequest(r: Request) {
    && (forall i :: 0 <= i < |r.flags| ==> IsFlag(r.flags[i]))
    && (r.width.Given? ==> r.width.numeral != "" && AllDigits(r.width.numeral) && r.width.numeral[0] != '0')
    && (r.prec.Given? ==> AllDigits(r.prec.numeral))
  }

  function SpellAmount(a: Amount): string {
    match a
    case Absent => ""
    case Given(numeral) => numeral
    case Star => "*"
  }

  function SpellLength(l: Length): string {
    match l
    case Plain => ""
    case Char8 => "hh"
    case Short16 => "h"
    case Long => "l"
    case LongLong => "ll"
    case Ptrdiff => "t"
    case Intmax => "j"
    case Size => "z"
  }

  function SpellPrecision(a: Amount): string {
    if a.Absent? then "" else "." + SpellAmount(a)
  }

  function Spell(r: Request): string {
    r.flags + SpellAmount(r.width) + SpellPrecision(r.prec) + SpellLength(r.length)
  }

  /** The number of ints that the stars take. */
  function Stars(r: Request): nat {
    (if r.width.Star? then 1 else 0) + (if r.prec.Star? then 1 else 0)
  }

  /** The stars find their ints; a width must be one that can be negated. */
  predicate StarArgs(r: Request, args: seq<Arg>, k: nat) {
    && k + Stars(r) <= |args|
    && (forall i :: k <= i < k + Stars(r) ==> args[i].Int? && -TWO31 <= args[i].v < TWO31)
    && (r.width.Star? ==> args[k].v != -TWO31)
  }

  function FlagOf(ch: char): Flag
    requires IsFlag(ch)
  {
    match ch
    case '0' => ZEROPAD
    case '-' => LEFT
    case '+' => PLUS
    case ' ' => SPACE
    case _ => HASH
  }

  /** The flags that a text of flag characters mentions. */
  function FlagsOf(s: string): Flags {
    set ch | ch in s && IsFlag(ch) :: FlagOf(ch)
  }

  lemma FlagsMean(s: string)
    ensures var f := FlagsOf(s);
            && (ZEROPAD in f <==> '0' in s) && (LEFT in f <==> '-' in s) && (PLUS in f <==> '+' in s)
            && (SPACE in f <==> ' ' in s) && (HASH in f <==> '#' in s)
            && f <= {ZEROPAD, LEFT, PLUS, SPACE, HASH}
  {
    forall ch | ch in s && IsFlag(ch) ensures FlagOf(ch) in FlagsOf(s) {}
  }

  function LengthFlags(f: Flags, l: Length): Flags {
    match l
    case Plain => f
    case Char8 => f + {CHAR, SHORT}
    case Short16 => f + {SHORT}
    case LongLong => f + {LONG, LONG_LONG}
    case _ => f + {LONG}
  }

  /** The number a width or precision stands for, with the argument that a star takes. */
  function Number(a: Amount, arg: int): int {
    match a
    case Absent => 0
    case Given(numeral) => Numeral(numeral, 10) % TWO32
    case Star => arg
  }

  function ArgValue(args: seq<Arg>, k: nat): int {
    if k < |args| && args[k].Int? then args[k].v else 0
  }

  /** What the request means, given the arguments of its stars: a negative width asks for the left, a negative precision
      for none. */
  function Meaning(r: Request, at: nat, args: seq<Arg>, k: nat): Specifier {
    var w := Number(r.width, ArgValue(args, k));
    var n := Number(r.prec, ArgValue(args, if r.width.Star? then k + 1 else k));
    var f := if w < 0 then FlagsOf(r.flags) + {LEFT} else FlagsOf(r.flags);
    var f' := if r.prec.Absent? then f else f + {PRECISION};
    Specifier(LengthFlags(f', r.length), if w < 0 then -w else w, if n > 0 then n else 0, at, k + Stars(r))
  }

  /** A character that ends a specifier: no flag, digit, star, point or length modifier. */
  predicate Ends(ch: char) {
    && !IsFlag(ch) && !IsDigit(ch) && ch != '*' && ch != '.'
    && ch != 'l' && ch != 'h' && ch != 't' && ch != 'j' && ch != 'z'
  }

  function FoldFlags(f: Flags, s: string): Flags
    decreases s
  {
    if s == "" then f else FoldFlags(SetFlag(f, s[0]), s[1..])
  }

  lemma {:induction false} FlagsRead(s: string, i: nat, j: nat, f: Flags)
    requires i <= j <= |s| && !IsFlag(At(s, j)) && forall x :: i <= x < j ==> IsFlag(s[x])
    ensures ReadFlags(s, i, f) == (FoldFlags(f, s[i..j]), j)
    decreases j - i
  {
    if i < j {
      assert s[i..j][1..] == s[i + 1..j];
      FlagsRead(s, i + 1, j, SetFlag(f, s[i]));
    }
  }

  /** One more character in front of a text mentions one more flag. */
  lemma FlagsHead(s: string)
    requires s != "" && IsFlag(s[0])
    ensures FlagsOf(s) == {FlagOf(s[0])} + FlagsOf(s[1..])
  {
    assert s == [s[0]] + s[1..];
  }

  lemma {:induction false} FoldMeans(f: Flags, s: string)
    requires forall i :: 0 <= i < |s| ==> IsFlag(s[i])
    ensures FoldFlags(f, s) == f + FlagsOf(s)
    decreases s
  {
    if s != "" {
      FoldMeans(SetFlag(f, s[0]), s[1..]);
      FlagsHead(s);
      assert SetFlag(f, s[0]) == f + {FlagOf(s[0])};
    } else {
      assert FlagsOf(s) == {};
    }
  }

  /** What the parser has behind a width. */
  function WithWidth(f: Flags, a: Amount, at: nat, args: seq<Arg>, k: nat): Specifier {
    var w := Number(a, ArgValue(args, k));
    Specifier(if w < 0 then f + {LEFT} else f, if w < 0 then -w else w, 0, at, if a.Star? then k + 1 else k)
  }

  lemma WidthRead(s: string, i: nat, a: Amount, f: Flags, args: seq<Arg>, k: nat)
    requires Stands(s, i, SpellAmount(a)) && (a.Given? ==> a.numeral != "" && AllDigits(a.numeral))
    requires a.Star? ==> IntArg(args, k).Some? && args[k].v != -TWO31
    requires var ch := At(s, i + |SpellAmount(a)|); !IsDigit(ch) && ch != '*'
    ensures ReadWidth(s, i, f, args, k) == Some(WithWidth(f, a, i + |SpellAmount(a)|, args, k))
  {
    hide Numeral, NumberAt, AllDigits;
    match a
    case Absent =>
    case Given(d) =>
      NumeralRead(d, s, i);
      StandsAt(s, i, d, 0);
    case Star =>
      StandsAt(s, i, "*", 0);
  }

  /** What the parser has behind a precision. */
  function WithPrecision(p: Specifier, a: Amount, args: seq<Arg>): Specifier {
    var n := Number(a, ArgValue(args, p.argAt));
    Specifier(if a.Absent? then p.flags else p.flags + {PRECISION}, p.width, if n > 0 then n else 0,
              p.at + |SpellPrecision(a)|, if a.Star? then p.argAt + 1 else p.argAt)
  }

  lemma PrecisionGiven(s: string, p: Specifier, d: string, args: seq<Arg>)
    requires Stands(s, p.at, "." + d) && AllDigits(d)
    requires var ch := At(s, p.at + 1 + |d|); !IsDigit(ch) && ch != '*'
    ensures ReadPrecision(s, p, args) == Some(WithPrecision(p, Given(d), args))
  {
    hide ReadBehindPoint, Numeral, AllDigits;
    SplitStands(s, p.at, ".", d);
    StandsAt(s, p.at, ".", 0);
    BehindPoint(s, p.(flags := p.flags + {PRECISION}, at := p.at + 1), d, args);
  }

  lemma PrecisionStar(s: string, p: Specifier, args: seq<Arg>)
    requires Stands(s, p.at, ".*") && IntArg(args, p.argAt).Some?
    ensures ReadPrecision(s, p, args) == Some(WithPrecision(p, Star, args))
  {
    StandsAt(s, p.at, ".*", 0);
    StandsAt(s, p.at, ".*", 1);
  }

  lemma PrecisionRead(s: string, p: Specifier, a: Amount, args: seq<Arg>)
    requires Stands(s, p.at, SpellPrecision(a)) && p.prec == 0 && (a.Given? ==> AllDigits(a.numeral))
    requires a.Star? ==> IntArg(args, p.argAt).Some?
    requires var ch := At(s, p.at + |SpellPrecision(a)|); !IsDigit(ch) && ch != '.' && ch != '*'
    ensures ReadPrecision(s, p, args) == Some(WithPrecision(p, a, args))
  {
    match a
    case Absent =>
    case Given(d) => PrecisionGiven(s, p, d, args);
    case Star => PrecisionStar(s, p, args);
  }

  lemma BehindPoint(s: string, p: Specifier, d: string, args: seq<Arg>)
    requires Stands(s, p.at, d) && AllDigits(d)
    requires var ch := At(s, p.at + |d|); !IsDigit(ch) && ch != '*'
    ensures ReadBehindPoint(s, p, args) == Some(p.(prec := Numeral(d, 10) % TWO32, at := p.at + |d|))
  {
    hide NumberAt, Numeral, DigitsEnd, Stands;
    NumeralRead(d, s, p.at);
    if d != "" {
      StandsAt(s, p.at, d, 0);
    } else {
      NoNumeral(d);
    }
  }

  lemma NoNumeral(d: string)
    requires d == ""
    ensures Numeral(d, 10) == 0
  {
  }

  lemma LengthRead(s: string, p: Specifier, l: Length)
    requires Stands(s, p.at, SpellLength(l)) && Ends(At(s, p.at + |SpellLength(l)|))
    ensures ReadLength(s, p) == p.(flags := LengthFlags(p.flags, l), at := p.at + |SpellLength(l)|)
  {
    var t := SpellLength(l);
    if |t| > 0 {
      StandsAt(s, p.at, t, 0);
    }
    if |t| > 1 {
      StandsAt(s, p.at, t, 1);
    }
  }

  /** The first character behind a part of the specifier is the first one of what follows. */
  lemma NextChar(s: string, i: nat, t: string)
    requires Stands(s, i, t) && t != ""
    ensures At(s, i) == t[0]
  {
    StandsAt(s, i, t, 0);
  }

  /** Where the parts of a spelled request stand. */
  lemma Parts(s: string, i: nat, r: Request)
    requires Stands(s, i, Spell(r))
    ensures var w := i + |r.flags|; var p := w + |SpellAmount(r.width)|; var l := p + |SpellPrecision(r.prec)|;
            && Stands(s, i, r.flags) && Stands(s, w, SpellAmount(r.width)) && Stands(s, p, SpellPrecision(r.prec))
            && Stands(s, l, SpellLength(r.length)) && l + |SpellLength(r.length)| == i + |Spell(r)|
  {
    var (a, b, c, d) := (r.flags, SpellAmount(r.width), SpellPrecision(r.prec), SpellLength(r.length));
    SplitStands(s, i, a + b + c, d);
    SplitStands(s, i, a + b, c);
    SplitStands(s, i, a, b);
  }

  predicate Tame(ch: char) {
    !IsFlag(ch) && !IsDigit(ch) && ch != '*' && ch != '.'
  }

  lemma LengthBorder(s: string, l: nat, m: Length)
    requires Stands(s, l, SpellLength(m)) && Ends(At(s, l + |SpellLength(m)|))
    ensures Tame(At(s, l))
  {
    if !m.Plain? {
      NextChar(s, l, SpellLength(m));
    }
  }

  lemma PrecisionBorder(s: string, p: nat, a: Amount)
    requires Stands(s, p, SpellPrecision(a)) && Tame(At(s, p + |SpellPrecision(a)|))
    ensures !IsFlag(At(s, p)) && !IsDigit(At(s, p)) && At(s, p) != '*'
  {
    if !a.Absent? {
      NextChar(s, p, SpellPrecision(a));
    }
  }

  lemma WidthBorder(s: string, w: nat, a: Amount)
    requires Stands(s, w, SpellAmount(a)) && !IsFlag(At(s, w + |SpellAmount(a)|))
    requires a.Given? ==> a.numeral != "" && AllDigits(a.numeral) && a.numeral[0] != '0'
    ensures !IsFlag(At(s, w))
  {
    if !a.Absent? {
      NextChar(s, w, SpellAmount(a));
    }
  }

  lemma Compose(s: string, i: nat, args: seq<Arg>, k: nat, f: Flags, j: nat, p: Specifier, q: Specifier)
    requires i <= |s| && ReadFlags(s, i, NO_FLAGS) == (f, j)
    requires ReadWidth(s, j, f, args, k) == Some(p) && ReadPrecision(s, p, args) == Some(q)
    ensures ReadSpecifier(s, i, args, k) == Some(ReadLength(s, q))
  {
  }

  predicate InPlace(s: string, w: nat, p: nat, l: nat, r: Request) {
    && Stands(s, w, SpellAmount(r.width)) && p == w + |SpellAmount(r.width)|
    && Stands(s, p, SpellPrecision(r.prec)) && l == p + |SpellPrecision(r.prec)|
    && !IsDigit(At(s, p)) && At(s, p) != '*' && !IsDigit(At(s, l)) && At(s, l) != '.' && At(s, l) != '*'
  }

  function WidthOf(r: Request, p: nat, args: seq<Arg>, k: nat): Specifier {
    WithWidth(FlagsOf(r.flags), r.width, p, args, k)
  }

  lemma WidthPart(s: string, w: nat, p: nat, l: nat, r: Request, args: seq<Arg>, k: nat)
    requires ValidRequest(r) && StarArgs(r, args, k) && InPlace(s, w, p, l, r)
    ensures ReadWidth(s, w, FlagsOf(r.flags), args, k) == Some(WidthOf(r, p, args, k))
  {
    hide ReadWidth, WithWidth, FlagsOf, At, IsDigit, AllDigits, Stands, SpellAmount;
    WidthRead(s, w, r.width, FlagsOf(r.flags), args, k);
  }

  lemma WidthOfAt(r: Request, p: nat, args: seq<Arg>, k: nat)
    ensures var x := WidthOf(r, p, args, k);
            x.at == p && x.prec == 0 && x.argAt == if r.width.Star? then k + 1 else k
  {
  }

  lemma PrecisionPart(s: string, w: nat, p: nat, l: nat, r: Request, args: seq<Arg>, k: nat)
    requires ValidRequest(r) && StarArgs(r, args, k) && InPlace(s, w, p, l, r)
    ensures WidthOf(r, p, args, k).at == p <= |s|
    ensures ReadPrecision(s, WidthOf(r, p, args, k), args)
         == Some(WithPrecision(WidthOf(r, p, args, k), r.prec, args))
  {
    hide ReadPrecision, WithPrecision, WidthOf, At, IsDigit, AllDigits, SpellPrecision;
    WidthOfAt(r, p, args, k);
    PrecisionRead(s, WidthOf(r, p, args, k), r.prec, args);
  }

  /** The parts of a request between positions i and e, each in its place and none running on into the next. */
  predicate Laid(s: string, i: nat, w: nat, p: nat, l: nat, e: nat, r: Request) {
    && Stands(s, i, r.flags) && w == i + |r.flags| && !IsFlag(At(s, w))
    && InPlace(s, w, p, l, r)
    && Stands(s, l, SpellLength(r.length)) && e == l + |SpellLength(r.length)| && Ends(At(s, e))
  }

  lemma FlagsPart(s: string, i: nat, flags: string)
    requires Stands(s, i, flags) && forall x :: 0 <= x < |flags| ==> IsFlag(flags[x])
    requires !IsFlag(At(s, i + |flags|))
    ensures ReadFlags(s, i, NO_FLAGS) == (FlagsOf(flags), i + |flags|)
  {
    forall x | i <= x < i + |flags| ensures IsFlag(s[x]) {
      StandsAt(s, i, flags, x - i);
    }
    FlagsRead(s, i, i + |flags|, NO_FLAGS);
    FoldMeans(NO_FLAGS, flags);
    assert NO_FLAGS + FlagsOf(flags) == FlagsOf(flags);
  }

  lemma LaidParsed(s: string, i: nat, w: nat, p: nat, l: nat, e: nat, r: Request, args: seq<Arg>, k: nat)
    requires ValidRequest(r) && StarArgs(r, args, k) && Laid(s, i, w, p, l, e, r)
    ensures ReadSpecifier(s, i, args, k) == Some(Meaning(r, e, args, k))
  {
    hide FlagsOf, ReadFlags, ReadWidth, ReadPrecision, ReadLength, ReadSpecifier, LengthFlags, WidthOf, WithPrecision,
         Meaning, Numeral, At, Ends, IsFlag, IsDigit;
    FlagsPart(s, i, r.flags);
    WidthPart(s, w, p, l, r, args, k);
    PrecisionPart(s, w, p, l, r, args, k);
    var x := WidthOf(r, p, args, k);
    var y := WithPrecision(x, r.prec, args);
    PartsMean(r, p, e, args, k);
    LengthRead(s, y, r.length);
    Compose(s, i, args, k, FlagsOf(r.flags), w, x, y);
  }

  /** The parts of a request mean together what the request means. */
  lemma PartsMean(r: Request, p: nat, e: nat, args: seq<Arg>, k: nat)
    ensures var x := WidthOf(r, p, args, k);
            var y := WithPrecision(x, r.prec, args);
            && y.at == p + |SpellPrecision(r.prec)|
            && y.(flags := LengthFlags(y.flags, r.length), at := e) == Meaning(r, e, args, k)
  {
    hide Number, ArgValue, FlagsOf, LengthFlags;
    WidthOfAt(r, p, args, k);
  }

  /** In a spelled request no part runs on into the next. */
  lemma Borders(s: string, i: nat, r: Request) returns (w: nat, p: nat, l: nat)
    requires ValidRequest(r) && Stands(s, i, Spell(r)) && Ends(At(s, i + |Spell(r)|))
    ensures Laid(s, i, w, p, l, i + |Spell(r)|, r)
  {
    Parts(s, i, r);
    w := i + |r.flags|;
    p := w + |SpellAmount(r.width)|;
    l := p + |SpellPrecision(r.prec)|;
    LengthBorder(s, l, r.length);
    PrecisionBorder(s, p, r.prec);
    WidthBorder(s, w, r.width);
  }

  /** Wherever a spelled request stands in a format, before a character that ends it, it is parsed to what it means, and
      the parser stops right behind it. */
  lemma SpellThenParse(s: string, i: nat, r: Request, args: seq<Arg>, k: nat)
    requires ValidRequest(r) && StarArgs(r, args, k)
    requires Stands(s, i, Spell(r)) && Ends(At(s, i + |Spell(r)|))
    ensures ReadSpecifier(s, i, args, k) == Some(Meaning(r, i + |Spell(r)|, args, k))
  {
    hide ReadSpecifier, Meaning, Laid, Spell, ValidRequest, StarArgs;
    var w, p, l := Borders(s, i, r);
    LaidParsed(s, i, w, p, l, i + |Spell(r)|, r, args, k);
  }

  // ---------------------------------------------------------------- one conversion

  /** The format of one conversion. */
  function FormatOf(r: Request, ch: char): string {
    "%" + Spell(r) + [ch]
  }

  /** The number that an integer conversion prints. */
  function IntegerText(p: Specifier, ch: char, v: int): string {
    NumberText(Magnitude(v), v < 0, BaseOf(ch), p.prec, p.width, IntegerFlags(p.flags, ch))
  }

  lemma PieceText(s: string, i: nat, args: seq<Arg>, k: nat, p: Specifier, text: string, used: nat)
    requires i + 1 < |s| && s[i] == '%' && ReadSpecifier(s, i + 1, args, k) == Some(p) && p.at < |s|
    requires Convert(At(s, p.at), p, args) == Some((text, used))
    ensures var (end: nat, next: nat) := (p.at + 1, p.argAt + used); Piece(s, i, args, k) == Some((text, end, next))
  {
    hide Convert, ReadSpecifier;
  }
}
