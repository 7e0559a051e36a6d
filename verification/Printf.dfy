/** The integer and string half of src/libc/printf.c: the loops that fill buffers and advance indices, each proved
    against the ideal text of PrintfSpec. */
module Printf {
  import opened PrintfSpec

  /** `_atoi`: the number at position i, modulo 2^32, and the position behind it. */
  method Atoi(s: string, i: nat) returns (n: nat, j: nat)
    requires i <= |s|
    ensures j == DigitsEnd(s, i) && n == NumberAt(s, i)
  {
    n, j := 0, i;
    ghost var numeral := s[i..DigitsEnd(s, i)];
    assert forall k :: 0 <= k < |numeral| ==> numeral[k] == At(s, i + k);
    while IsDigit(At(s, j))
      invariant i <= j <= DigitsEnd(s, i)
      invariant n == Decimal(numeral[..j - i]) % TWO32
      decreases |s| - j
    {
      assert numeral[..j + 1 - i][..j - i] == numeral[..j - i];
      WrappedDigit(Decimal(numeral[..j - i]), DigitValue(s[j]));
      n := (n * 10 + DigitValue(s[j])) % TWO32;
      j := j + 1;
    }
    assert numeral[..j - i] == numeral;
  }

  lemma WrappedDigit(m: nat, d: nat)
    ensures (m % TWO32 * 10 + d) % TWO32 == (m * 10 + d) % TWO32
  {
  }

  /** One more digit out of those that are still to come. */
  lemma DigitsStep(digits: string, done: string, v: nat, base: nat, upper: bool, room: nat)
    requires 2 <= base <= 16 && room > 0 && digits == done + Digits(v, base, upper, room)
    ensures var q := Quotient(v, base);
            digits == (done + [DigitChar(Remainder(v, base), upper)])
                      + (if q > 0 && room > 1 then Digits(q, base, upper, room - 1) else "")
  {
  }

  /** The flags of an integer conversion. */
  method ConversionFlags(ch: char, base: nat, f0: Flags) returns (f: Flags)
    requires base == BaseOf(ch)
    ensures f == IntegerFlags(f0, ch)
  {
    f := f0;
    if base == 10 {
      f := f - {HASH};
    }
    if ch == 'X' {
      f := f + {UPPERCASE};
    }
    if ch != 'i' && ch != 'd' {
      f := f - {PLUS, SPACE};
    }
    if PRECISION in f {
      f := f - {ZEROPAD};
    }
  }

  /** One more piece out of the text that is still to come. */
  lemma RenderStep(s: string, i: nat, args: seq<Arg>, k: nat, text: string, rest: string) returns (tail: string)
    requires i < |s| && Render(s, i, args, k) == Some(rest)
    ensures Piece(s, i, args, k).Some?
    ensures var (shown, j, l) := Piece(s, i, args, k).value;
            Render(s, j, args, l) == Some(tail) && text + rest == (text + shown) + tail
  {
    var (shown, j, l) := Piece(s, i, args, k).value;
    tail := Render(s, j, args, l).value;
    assert rest == shown + tail;
    Rejoin(text, shown, tail);
  }

  lemma Rejoin(a: string, b: string, c: string)
    ensures a + (b + c) == (a + b) + c
  {
  }

  /** The destination of a call: `buffer` and `maxlen` with the running index, or the null output without a buffer. */
  class Printer {
    const buffer: array?<char>
    const maxlen: nat
    var idx: nat
    ghost var text: string  // everything printed so far, truncated or not
    ghost const before: seq<char>  // what the buffer held at first

    ghost predicate Valid()
      reads this, buffer
    {
      && idx == |text|
      && (buffer != null ==>
            && buffer.Length == |before|
            && (maxlen <= buffer.Length || idx < buffer.Length)
            && (forall i :: 0 <= i < Min(idx, maxlen) ==> buffer[i] == text[i])
            && (forall i :: Min(idx, maxlen) <= i < buffer.Length ==> buffer[i] == before[i]))
    }

    /** Either the limit is in the buffer, or n more characters and a NUL are. */
    ghost predicate Fits(n: nat)
      reads this
    {
      buffer != null ==> maxlen <= buffer.Length || |text| + n < buffer.Length
    }

    constructor (buffer: array?<char>, maxlen: nat)
      requires buffer != null ==> maxlen <= buffer.Length || 0 < buffer.Length
      ensures Valid() && text == "" && this.buffer == buffer && this.maxlen == maxlen
      ensures buffer != null ==> before == buffer[..]
    {
      this.buffer, this.maxlen, idx, text := buffer, maxlen, 0, "";
      this.before := if buffer == null then [] else buffer[..];
    }

    /** `out(ch, buffer, idx++, maxlen)`. */
    method Put(ch: char)
      requires Valid() && Fits(1)
      modifies this, buffer
      ensures Valid() && text == old(text) + [ch]
    {
      if buffer != null && idx < maxlen {
        buffer[idx] := ch;
      }
      idx := idx + 1;
      text := text + [ch];
    }

    /** The padding loops: spaces from a count up to a width. */
    method Spaces(from: nat, width: nat)
      requires Valid() && Fits(|Repeat(' ', width - from)|)
      modifies this, buffer
      ensures Valid() && text == old(text) + Repeat(' ', width - from)
    {
      var i := from;
      while i < width
        invariant Valid() && from <= i && (i <= width || i == from)
        invariant text == old(text) + Repeat(' ', i - from)
      {
        assert Repeat(' ', i + 1 - from) == Repeat(' ', i - from) + [' '];
        Put(' ');
        i := i + 1;
      }
    }

    /** The loop of `_out_rev` that reverses the buffer. */
    method PutReversed(buf: array<char>, size: nat)
      requires Valid() && buf != buffer && size <= buf.Length && Fits(size)
      modifies this, buffer
      ensures Valid() && text == old(text) + Reverse(buf[..size])
    {
      ghost var rev := buf[..size];
      var len := size;
      assert rev[len..] == "";
      while len > 0
        invariant Valid() && len <= size && buf[..size] == rev
        invariant text == old(text) + Reverse(rev[len..])
      {
        len := len - 1;
        assert rev[len..][1..] == rev[len + 1..];
        Put(buf[len]);
      }
      assert rev[0..] == rev;
    }

    /** `_out_rev`. */
    method OutRev(buf: array<char>, size: nat, width: nat, f: Flags)
      requires Valid() && buf != buffer && size <= buf.Length && Fits(|Field(buf[..size], width, f)|)
      modifies this, buffer
      ensures Valid() && text == old(text) + Field(buf[..size], width, f)
    {
      hide Reverse;
      var start := idx;
      ghost var (rev, was) := (buf[..size], text);
      if LEFT !in f && ZEROPAD !in f {
        Spaces(size, width);
      }
      PutReversed(buf, size);
      Rejoin(was, if LEFT !in f && ZEROPAD !in f then Repeat(' ', width - size) else "", Reverse(rev));
      if LEFT in f {
        Spaces(idx - start, width);
        Rejoin(was, Reverse(rev), Repeat(' ', width - size));
      }
    }

    /** The loops that fill the number buffer with zeros up to a target. */
    method Zeros(buf: array<char>, size: nat, target: nat) returns (len: nat)
      requires buf.Length == BUFFER_SIZE && size <= BUFFER_SIZE
      modifies buf
      ensures len <= BUFFER_SIZE && buf[..len] == FillZeros(old(buf[..size]), target)
    {
      len := size;
      ghost var rev := buf[..size];
      while len < target && len < BUFFER_SIZE
        invariant size <= len <= BUFFER_SIZE && (len <= target || len == size)
        invariant buf[..len] == rev + Repeat('0', len - size)
      {
        assert Repeat('0', len + 1 - size) == Repeat('0', len - size) + ['0'];
        buf[len] := '0';
        len := len + 1;
        assert buf[..len] == buf[..len - 1] + ['0'];
      }
    }

    /** `if (len < PRINTF_NTOA_BUFFER_SIZE) buf[len++] = ch`. */
    method Append(buf: array<char>, size: nat, ch: char) returns (len: nat)
      requires buf.Length == BUFFER_SIZE && size <= BUFFER_SIZE
      modifies buf
      ensures len == Min(size + 1, BUFFER_SIZE) && buf[..len] == PrintfSpec.Put(old(buf[..size]), ch)
    {
      len := size;
      if len < BUFFER_SIZE {
        buf[len] := ch;
        len := len + 1;
        assert buf[..len] == buf[..len - 1] + [ch];
      }
    }

    /** The first section of `_ntoa_format`: the width left to a sign, and the leading zeros. */
    method PadDigits(buf: array<char>, size: nat, negative: bool, prec: nat, width0: nat, f: Flags)
      returns (len: nat, width: nat)
      requires buf.Length == BUFFER_SIZE && size <= BUFFER_SIZE
      modifies buf
      ensures len <= BUFFER_SIZE && buf[..len] == PadZeros(old(buf[..size]), negative, prec, width0, f)
      ensures width == ZeroWidth(negative, width0, f)
    {
      len, width := size, width0;
      if LEFT !in f {
        if width > 0 && ZEROPAD in f && (negative || PLUS in f || SPACE in f) {
          width := width - 1;
        }
        len := Zeros(buf, len, prec);
        if ZEROPAD in f {
          len := Zeros(buf, len, width);
        }
      }
    }

    /** The second section: the alternate form. */
    method AlternateForm(buf: array<char>, size: nat, base: nat, prec: nat, width: nat, f: Flags) returns (len: nat)
      requires buf.Length == BUFFER_SIZE && size <= BUFFER_SIZE
      modifies buf
      ensures len <= BUFFER_SIZE && buf[..len] == Alternate(old(buf[..size]), base, prec, width, f)
    {
      len := size;
      if PRECISION !in f && len > 0 && (len == prec || len == width) {
        len := len - 1;
        if len > 0 && base == 16 {
          len := len - 1;
        }
      }
      assert buf[..len] == buf[..size][..len];
      if base == 16 && UPPERCASE !in f {
        len := Append(buf, len, 'x');
      } else if base == 16 && UPPERCASE in f {
        len := Append(buf, len, 'X');
      } else if base == 2 {
        len := Append(buf, len, 'b');
      }
      len := Append(buf, len, '0');
    }

    /** The third section: the sign. */
    method SignForm(buf: array<char>, size: nat, negative: bool, f: Flags) returns (len: nat)
      requires buf.Length == BUFFER_SIZE && size <= BUFFER_SIZE
      modifies buf
      ensures len <= BUFFER_SIZE && buf[..len] == AddSign(old(buf[..size]), negative, f)
    {
      len := size;
      if negative {
        len := Append(buf, len, '-');
      } else if PLUS in f {
        len := Append(buf, len, '+');
      } else if SPACE in f {
        len := Append(buf, len, ' ');
      }
    }

    /** `_ntoa_format`. The index into the 32-byte buffer stays in bounds whatever the flags, width and precision. */
    method NtoaFormat(buf: array<char>, size: nat, negative: bool, base: nat, prec: nat, width0: nat, f: Flags)
      requires Valid() && buf != buffer && buf.Length == BUFFER_SIZE && size <= BUFFER_SIZE
      requires Fits(|FormatText(buf[..size], negative, base, prec, width0, f)|)
      modifies this, buffer, buf
      ensures Valid() && text == old(text) + FormatText(old(buf[..size]), negative, base, prec, width0, f)
    {
      var len, width := PadDigits(buf, size, negative, prec, width0, f);
      if HASH in f {
        len := AlternateForm(buf, len, base, prec, width, f);
      }
      len := SignForm(buf, len, negative, f);
      OutRev(buf, len, width, f);
    }

    /** The digit loop of `_ntoa_long`. */
    method DigitLoop(buf: array<char>, value: nat, base: nat, upper: bool) returns (len: nat)
      requires buf.Length == BUFFER_SIZE && 2 <= base <= 16
      modifies buf
      ensures len <= BUFFER_SIZE && buf[..len] == Digits(value, base, upper, BUFFER_SIZE)
    {
      hide Digits, DigitChar, Quotient, Remainder;
      var v: nat, more := value, true;
      ghost var digits := Digits(value, base, upper, BUFFER_SIZE);
      len := 0;
      while more  // do ... while
        invariant len <= BUFFER_SIZE && (more ==> len < BUFFER_SIZE)
        invariant digits == buf[..len] + (if more then Digits(v, base, upper, BUFFER_SIZE - len) else "")
        decreases BUFFER_SIZE - len, more
      {
        DigitsStep(digits, buf[..len], v, base, upper, BUFFER_SIZE - len);
        len := Append(buf, len, DigitChar(Remainder(v, base), upper));
        v := Quotient(v, base);
        more := v > 0 && len < BUFFER_SIZE;
      }
    }

    /** The digits, unless the value is zero and there is a precision. */
    method NtoaDigits(buf: array<char>, value: nat, base: nat, f: Flags) returns (len: nat)
      requires buf.Length == BUFFER_SIZE && 2 <= base <= 16
      modifies buf
      ensures len <= BUFFER_SIZE && buf[..len] == NumberDigits(value, base, f)
    {
      len := 0;
      if PRECISION !in f || value > 0 {
        len := DigitLoop(buf, value, base, UPPERCASE in f);
      }
    }

    /** `_ntoa_long` and `_ntoa_long_long`: on a machine where both types have 64 bits they are the same function. */
    method Ntoa(value: nat, negative: bool, base: nat, prec: nat, width: nat, f0: Flags)
      requires Valid() && 2 <= base <= 16 && Fits(|NumberText(value, negative, base, prec, width, f0)|)
      modifies this, buffer
      ensures Valid() && text == old(text) + NumberText(value, negative, base, prec, width, f0)
    {
      var buf := new char[BUFFER_SIZE];
      var f := if value == 0 then f0 - {HASH} else f0;
      var len := NtoaDigits(buf, value, base, f);
      NtoaFormat(buf, len, negative, base, prec, width, f);
    }

    /** The loop that copies a string, up to a precision if there is one. */
    method PutChars(s: string, prec0: nat, f: Flags)
      requires Valid() && Fits(if PRECISION in f && prec0 < |s| then prec0 else |s|)
      modifies this, buffer
      ensures Valid() && text == old(text) + (if PRECISION in f && prec0 < |s| then s[..prec0] else s)
    {
      var prec, p := prec0, 0;
      while p < |s| && (PRECISION !in f || prec > 0)
        invariant Valid() && p <= |s| && text == old(text) + s[..p]
        invariant PRECISION in f ==> p + prec == prec0
      {
        if PRECISION in f {
          prec := prec - 1;
        }
        assert s[..p + 1] == s[..p] + [s[p]];
        Put(s[p]);
        p := p + 1;
      }
      assert p == |s| ==> s[..p] == s;
    }

    /** The `%s` conversion. */
    method PutString(s: string, prec: nat, width: nat, f: Flags)
      requires Valid() && (PRECISION !in f ==> prec == 0) && Fits(|StringText(s, prec, width, f)|)
      modifies this, buffer
      ensures Valid() && text == old(text) + StringText(s, prec, width, f)
    {
      var l := if prec > 0 && prec < |s| then prec else |s|;  // _strnlen_s
      if PRECISION in f {
        l := if l < prec then l else prec;
      }
      if LEFT !in f {
        Spaces(l, width);
      }
      PutChars(s, prec, f);
      if LEFT in f {
        Spaces(l, width);
      }
    }

    /** The integer conversions. */
    method PutInteger(ch: char, p: Specifier, args: seq<Arg>)
      requires Valid() && IsInteger(ch) && IntegerArg(p.flags, ch, args, p.argAt).Some?
      requires Fits(|Convert(ch, p, args).value.0|)
      modifies this, buffer
      ensures Valid()
      ensures text == old(text) + Convert(ch, p, args).value.0
    {
      var base := if ch == 'x' || ch == 'X' then 16 else if ch == 'o' then 8 else if ch == 'b' then 2 else 10;
      var f := ConversionFlags(ch, base, p.flags);
      var v := IntegerArg(p.flags, ch, args, p.argAt).value;
      ConvertInteger(ch, p, args);
      Ntoa(if v > 0 then v else -v, v < 0, base, p.prec, p.width, f);
    }

    /** The `%c` conversion. */
    method PutChar(ch: char, width: nat, left: bool)
      requires Valid() && Fits(|Padded([ch], width, left)|)
      modifies this, buffer
      ensures Valid() && text == old(text) + Padded([ch], width, left)
    {
      if !left {
        Spaces(1, width);
      }
      Put(ch);
      if left {
        Spaces(1, width);
      }
    }

    /** One conversion of `_vsnprintf`, behind the length modifier. */
    method PutConversion(ch: char, p: Specifier, args: seq<Arg>) returns (used: nat)
      requires Valid() && Convert(ch, p, args).Some? && (PRECISION !in p.flags ==> p.prec == 0)
      requires Fits(|Convert(ch, p, args).value.0|)
      modifies this, buffer
      ensures Valid()
      ensures text == old(text) + Convert(ch, p, args).value.0 && used == Convert(ch, p, args).value.1
    {
      used := 1;
      if IsInteger(ch) {
        PutInteger(ch, p, args);
      } else if ch == 'c' {
        PutChar((args[p.argAt].v % 0x100) as char, p.width, LEFT in p.flags);
      } else if ch == 's' {
        PutString(args[p.argAt].s, p.prec, p.width, p.flags);
      } else if ch == 'p' {
        Ntoa(args[p.argAt].v, false, 16, p.prec, 16, p.flags + {ZEROPAD, UPPERCASE});
      } else {
        Put(ch);
        used := 0;
      }
    }

    /** One round of the loop over the format in `_vsnprintf`. */
    method PutPiece(s: string, i: nat, args: seq<Arg>, k: nat) returns (j: nat, l: nat)
      requires Valid() && i < |s| && Piece(s, i, args, k).Some? && Fits(|Piece(s, i, args, k).value.0|)
      modifies this, buffer
      ensures Valid() && text == old(text) + Piece(s, i, args, k).value.0
      ensures j == Piece(s, i, args, k).value.1 && l == Piece(s, i, args, k).value.2
    {
      if s[i] != '%' {
        Put(s[i]);
        j, l := i + 1, k;
      } else {
        var p := ParseSpecifier(s, i + 1, args, k);
        var used := PutConversion(At(s, p.at), p, args);
        j, l := p.at + 1, p.argAt + used;
      }
    }

    /** The loop over the format in `_vsnprintf`. */
    method PutFormat(s: string, args: seq<Arg>)
      requires Valid() && text == "" && Render(s, 0, args, 0).Some? && Fits(|Render(s, 0, args, 0).value|)
      modifies this, buffer
      ensures Valid() && text == Render(s, 0, args, 0).value
    {
      var i: nat, k: nat := 0, 0;
      ghost var rest := Render(s, 0, args, 0).value;
      while i < |s|
        invariant Valid() && i <= |s| && Render(s, i, args, k) == Some(rest)
        invariant text + rest == Render(s, 0, args, 0).value
        decreases |s| - i
      {
        rest := RenderStep(s, i, args, k, text, rest);
        i, k := PutPiece(s, i, args, k);
      }
    }

    /** The termination: a NUL behind the text, or at the last place that the buffer has. */
    method Terminate()
      requires Valid() && maxlen < TWO64
      modifies buffer
      ensures buffer != null ==> buffer[..] == Truncated(text, maxlen, before)
    {
      var last := if maxlen > 0 then maxlen - 1 else TWO64 - 1;  // maxlen - 1U wraps in size_t
      var at := if idx < maxlen then idx else last;
      if buffer != null && at < maxlen {
        assert at == Min(|text|, maxlen - 1);
        buffer[at] := '\0';
      }
      assert buffer != null && maxlen == 0 ==> buffer[..] == before;
    }
  }

  method ParseFlags(s: string, i: nat) returns (f: Flags, at: nat)
    requires i <= |s|
    ensures (f, at) == ReadFlags(s, i, NO_FLAGS) && PRECISION !in f
  {
    f, at := NO_FLAGS, i;
    while IsFlag(At(s, at))
      invariant i <= at <= |s| && ReadFlags(s, i, NO_FLAGS) == ReadFlags(s, at, f) && PRECISION !in f
      decreases |s| - at
    {
      f := SetFlag(f, At(s, at));
      at := at + 1;
    }
  }

  method ParseWidth(s: string, i: nat, f0: Flags, args: seq<Arg>, k: nat) returns (p: Specifier)
    requires i <= |s| && ReadWidth(s, i, f0, args, k).Some?
    ensures ReadWidth(s, i, f0, args, k) == Some(p) && (PRECISION in p.flags <==> PRECISION in f0)
  {
    var f, width, at, argAt := f0, 0, i, k;
    if IsDigit(At(s, at)) {
      width, at := Atoi(s, at);
    } else if At(s, at) == '*' {
      var w := args[argAt].v;
      if w < 0 {
        f := f + {LEFT};
        width := -w;
      } else {
        width := w;
      }
      at, argAt := at + 1, argAt + 1;
    }
    p := Specifier(f, width, 0, at, argAt);
  }

  method ParsePrecision(s: string, p: Specifier, args: seq<Arg>) returns (q: Specifier)
    requires p.at <= |s| && ReadPrecision(s, p, args).Some?
    ensures ReadPrecision(s, p, args) == Some(q) && (q.prec == 0 || PRECISION in q.flags)
  {
    var f, prec, at, argAt := p.flags, 0, p.at, p.argAt;
    if At(s, at) == '.' {
      f := f + {PRECISION};
      at := at + 1;
      if IsDigit(At(s, at)) {
        prec, at := Atoi(s, at);
      } else if At(s, at) == '*' {
        prec := if args[argAt].v > 0 then args[argAt].v else 0;
        at, argAt := at + 1, argAt + 1;
      }
    }
    q := Specifier(f, p.width, prec, at, argAt);
  }

  method ParseLength(s: string, p: Specifier) returns (q: Specifier)
    requires p.at <= |s|
    ensures q == ReadLength(s, p)
    ensures q.prec == p.prec && (PRECISION in q.flags <==> PRECISION in p.flags)
  {
    var f, at := p.flags, p.at;
    if At(s, at) == 'l' {
      f, at := f + {LONG}, at + 1;
      if At(s, at) == 'l' {
        f, at := f + {LONG_LONG}, at + 1;
      }
    } else if At(s, at) == 'h' {
      f, at := f + {SHORT}, at + 1;
      if At(s, at) == 'h' {
        f, at := f + {CHAR}, at + 1;
      }
    } else if At(s, at) == 't' || At(s, at) == 'j' || At(s, at) == 'z' {
      f, at := f + {LONG}, at + 1;  // ptrdiff_t, intmax_t and size_t are as wide as long
    }
    q := p.(flags := f, at := at);
  }

  /** The parser of `%[flags][width][.precision][length]` in `_vsnprintf`. */
  method ParseSpecifier(s: string, i: nat, args: seq<Arg>, k: nat) returns (p: Specifier)
    requires i <= |s| && ReadSpecifier(s, i, args, k).Some?
    ensures ReadSpecifier(s, i, args, k) == Some(p)
    ensures PRECISION !in p.flags ==> p.prec == 0
  {
    var f, at := ParseFlags(s, i);
    p := ParseWidth(s, at, f, args, k);
    p := ParsePrecision(s, p, args);
    p := ParseLength(s, p);
  }

  /** `_vsnprintf` with `_out_buffer`, for a buffer that has room up to the limit, or for the whole text, as `sprintf_`
      needs, which sets no limit: the buffer gets the first maxlen - 1 characters of the ideal text and a NUL, its
      other characters stay as they were, and the result is the length of the whole text, truncated or not. */
  method Vsnprintf(buffer: array?<char>, maxlen: nat, s: string, args: seq<Arg>) returns (length: nat)
    requires Render(s, 0, args, 0).Some? && |Render(s, 0, args, 0).value| < TWO31
    requires maxlen < TWO64
    requires buffer != null ==> maxlen <= buffer.Length || |Render(s, 0, args, 0).value| < buffer.Length
    modifies buffer
    ensures length == |Render(s, 0, args, 0).value|
    ensures buffer != null ==> buffer[..] == Truncated(Render(s, 0, args, 0).value, maxlen, old(buffer[..]))
    ensures buffer != null && maxlen > 0 ==>
              var n := Min(length, maxlen - 1);
              && n < buffer.Length && buffer[n] == '\0'
              && (forall i :: 0 <= i < n ==> buffer[i] == Render(s, 0, args, 0).value[i])
              && (forall i :: n < i < buffer.Length ==> buffer[i] == old(buffer[i]))
    ensures buffer != null && maxlen == 0 ==> buffer[..] == old(buffer[..])
  {
    hide Render;
    var p := new Printer(buffer, maxlen);
    p.PutFormat(s, args);
    p.Terminate();
    length := p.idx;
    if buffer != null {
      TruncatedAt(p.text, maxlen, old(buffer[..]), buffer[..]);
    }
  }

  /** A truncated text, place by place. */
  lemma TruncatedAt(text: string, m: nat, before: string, after: string)
    requires m <= |before| || |text| < |before|
    requires after == Truncated(text, m, before)
    ensures |after| == |before|
    ensures m > 0 ==>
              var n := Min(|text|, m - 1);
              && n < |after| && after[n] == '\0'
              && (forall i :: 0 <= i < n ==> after[i] == text[i])
              && (forall i :: n < i < |after| ==> after[i] == before[i])
  {
  }
}
