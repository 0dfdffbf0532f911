/** Parsing of the Linux IIO per-channel `_type` attribute under `scan_elements`, text such as
    `le:s12/16>>4`: byte order, signedness, significant bits, storage bits and
    a shift. The parser reports every malformed text as "no type" instead of
    failing. The Python string primitives it relies on (`split`, `int`) are
    modelled here on ASCII text. */
module IioType {
  import opened Wrappers

  datatype Endian = Little | Big

  /** A parsed channel type. The bit counts are whatever integers the text holds. */
  datatype ScanType = ScanType(endian: Endian, signed: bool, realbits: int, storagebits: int)

  // ---------------------------------------------------------------- splitting

  /** `s.split(sep)` for a one-character separator: the pieces between
      separators, including empty ones. */
  function Split(s: string, sep: char): (parts: seq<string>)
    ensures |parts| >= 1
    ensures forall i :: 0 <= i < |parts| ==> sep !in parts[i]
    decreases |s|
  {
    if |s| == 0 then [""]
    else if s[0] == sep then [""] + Split(s[1..], sep)
    else
      var rest := Split(s[1..], sep);
      [[s[0]] + rest[0]] + rest[1..]
  }

  /** The pieces glued back with the separator between them. */
  function Join(parts: seq<string>, sep: char): string
    requires |parts| >= 1
    decreases |parts|
  {
    if |parts| == 1 then parts[0] else parts[0] + [sep] + Join(parts[1..], sep)
  }

  /** Splitting loses nothing: joining the pieces gives the text back. */
  lemma {:induction false} JoinSplit(s: string, sep: char)
    ensures Join(Split(s, sep), sep) == s
    decreases |s|
  {
    if |s| == 0 {
    } else if s[0] == sep {
      JoinSplit(s[1..], sep);
      assert s == [sep] + s[1..];
    } else {
      var rest := Split(s[1..], sep);
      JoinSplit(s[1..], sep);
      if |rest| == 1 {
        assert s == [s[0]] + s[1..];
      } else {
        assert Join(rest, sep) == rest[0] + [sep] + Join(rest[1..], sep);
        assert s == [s[0]] + s[1..];
      }
    }
  }

  /** Text free of the separator is a single piece. */
  lemma {:induction false} SplitNoSeparator(s: string, sep: char)
    requires sep !in s
    ensures Split(s, sep) == [s]
    decreases |s|
  {
    if |s| > 0 {
      SplitNoSeparator(s[1..], sep);
      assert s == [s[0]] + s[1..];
    }
  }

  /** A separator-free head is the first piece; the pieces of the tail follow. */
  lemma {:induction false} SplitAtFirst(a: string, sep: char, b: string)
    requires sep !in a
    ensures Split(a + [sep] + b, sep) == [a] + Split(b, sep)
    decreases |a|
  {
    var s := a + [sep] + b;
    if |a| > 0 {
      assert s[1..] == a[1..] + [sep] + b;
      SplitAtFirst(a[1..], sep, b);
      assert [a[0]] + a[1..] == a;
    } else {
      assert s[1..] == b;
    }
  }

  /** `s.split(sep)[0]` for a separator of several characters: the text before
      its first occurrence, or all of `s`. */
  function Before(s: string, sep: string): (b: string)
    requires |sep| > 0
    ensures |b| <= |s| && b == s[..|b|]
    decreases |s|
  {
    if |s| < |sep| then s
    else if s[..|sep|] == sep then ""
    else [s[0]] + Before(s[1..], sep)
  }

  /** `sep` occurs in `s` starting at position i. */
  predicate OccursAt(s: string, sep: string, i: nat)
  {
    i + |sep| <= |s| && s[i..i + |sep|] == sep
  }

  /** The cut lands on a separator: the separator follows the prefix, or the
      prefix is the whole text. */
  lemma {:induction false} BeforeStopsAtSeparator(s: string, sep: string)
    requires |sep| > 0
    ensures var b := Before(s, sep);
            b == s || (|b| + |sep| <= |s| && s[|b|..|b| + |sep|] == sep)
    decreases |s|
  {
    if |s| >= |sep| && s[..|sep|] != sep {
      var t := s[1..];
      BeforeStopsAtSeparator(t, sep);
      var b' := Before(t, sep);
      assert Before(s, sep) == [s[0]] + b';
      if b' == t {
        assert [s[0]] + t == s;
      } else {
        var k := |b'|;
        assert t[k..k + |sep|] == sep;
        assert s[1 + k..1 + k + |sep|] == t[k..k + |sep|];
      }
    }
  }

  /** The separator occurs nowhere inside the prefix. */
  lemma {:induction false} BeforeIsFirst(s: string, sep: string)
    requires |sep| > 0
    ensures var b := Before(s, sep);
            forall i :: 0 <= i < |b| ==> !OccursAt(s, sep, i)
    decreases |s|
  {
    if |s| >= |sep| && s[..|sep|] != sep {
      var t := s[1..];
      BeforeIsFirst(t, sep);
      var b' := Before(t, sep);
      assert Before(s, sep) == [s[0]] + b';
      forall i | 0 < i < |b'| + 1
        ensures !OccursAt(s, sep, i)
      {
        OccursAfterFirst(s, sep, i);
      }
    }
  }

  /** An occurrence past the first character is one in the rest of the text. */
  lemma OccursAfterFirst(s: string, sep: string, i: nat)
    requires 0 < i <= |s|
    ensures OccursAt(s, sep, i) == OccursAt(s[1..], sep, i - 1)
  {
    if i + |sep| <= |s| {
      assert s[i..i + |sep|] == s[1..][i - 1..i - 1 + |sep|];
    }
  }

  /** A head that never contains the separator's first character is cut off
      exactly at the separator that follows it. */
  lemma {:induction false} BeforeAt(a: string, sep: string, b: string)
    requires |sep| > 0 && sep[0] !in a
    ensures Before(a + sep + b, sep) == a
    decreases |a|
  {
    var s := a + sep + b;
    if |a| == 0 {
      assert s[..|sep|] == sep;
    } else {
      assert s[0] == a[0] && s[..|sep|][0] != sep[0];
      assert s[1..] == a[1..] + sep + b;
      BeforeAt(a[1..], sep, b);
      assert [a[0]] + a[1..] == a;
    }
  }

  // ---------------------------------------------------------------- integers

  /** The ASCII characters Python treats as white space around a number. */
  predicate IsSpace(c: char)
  {
    c == ' ' || c == '\t' || c == '\n' || c == '\r' || c == '\U{0B}' || c == '\U{0C}' ||
    ('\U{1C}' <= c <= '\U{1F}')
  }

  predicate IsDigit(c: char)
  {
    '0' <= c <= '9'
  }

  function DigitValue(c: char): nat
    requires IsDigit(c)
  {
    c as int - '0' as int
  }

  function StripLeft(s: string): (t: string)
    ensures |t| <= |s| && t == s[|s| - |t|..]
    ensures |t| > 0 ==> !IsSpace(t[0])
  {
    if |s| > 0 && IsSpace(s[0]) then StripLeft(s[1..]) else s
  }

  function StripRight(s: string): (t: string)
    ensures |t| <= |s| && t == s[..|t|]
    ensures |t| > 0 ==> !IsSpace(t[|t| - 1])
  {
    if |s| > 0 && IsSpace(s[|s| - 1]) then StripRight(s[..|s| - 1]) else s
  }

  /** White space removed from both ends. */
  function Strip(s: string): (t: string)
    ensures |t| <= |s|
    ensures |t| > 0 ==> !IsSpace(t[0]) && !IsSpace(t[|t| - 1])
  {
    StripRight(StripLeft(s))
  }

  /** Every character a decimal digit. */
  predicate AllDigits(s: string)
  {
    forall i :: 0 <= i < |s| ==> IsDigit(s[i])
  }

  /** Every character a decimal digit or an underscore. */
  predicate DigitsOrUnderscores(s: string)
  {
    forall i :: 0 <= i < |s| ==> IsDigit(s[i]) || s[i] == '_'
  }

  /** Decimal digits, with single underscores allowed between two digits. */
  predicate DigitString(s: string)
  {
    |s| > 0 && IsDigit(s[0]) && IsDigit(s[|s| - 1]) && DigitsOrUnderscores(s) &&
    forall i :: 0 <= i < |s| - 1 && s[i] == '_' ==> IsDigit(s[i + 1])
  }

  /** The number the digits spell; underscores are skipped. */
  function DigitsValue(s: string): nat
    requires DigitsOrUnderscores(s)
  {
    if |s| == 0 then 0
    else if s[|s| - 1] == '_' then DigitsValue(s[..|s| - 1])
    else DigitsValue(s[..|s| - 1]) * 10 + DigitValue(s[|s| - 1])
  }

  /** Python's `int(text)` on ASCII text: optional surrounding white space, an
      optional sign, then decimal digits; anything else is a ValueError (None). */
  function PyInt(text: string): (r: Option<int>)
  {
    var t := Strip(text);
    if |t| > 0 && (t[0] == '+' || t[0] == '-') then
      var body := t[1..];
      var magnitude: int := if DigitString(body) then DigitsValue(body) else 0;
      if DigitString(body) then Some(if t[0] == '-' then -magnitude else magnitude) else None
    else if DigitString(t) then Some(DigitsValue(t))
    else None
  }

  /** Decimal rendering of a natural number, most significant digit first. */
  function NatToString(n: nat): (s: string)
    ensures |s| > 0 && AllDigits(s)
  {
    if n < 10 then [('0' as int + n) as char]
    else NatToString(n / 10) + [('0' as int + n % 10) as char]
  }

  /** Decimal rendering of an integer, with a leading minus when negative. */
  function IntToString(n: int): (s: string)
    ensures n >= 0 ==> s == NatToString(n)
    ensures n < 0 ==> s == "-" + NatToString(-n)
  {
    if n < 0 then "-" + NatToString(-n) else NatToString(n)
  }

  /** Digits hold no other character. */
  lemma DigitsExclude(s: string, c: char)
    requires AllDigits(s) && !IsDigit(c)
    ensures c !in s
  {
  }

  /** A rendered integer holds no character other than digits and '-'. */
  lemma IntToStringExcludes(n: int, c: char)
    requires !IsDigit(c) && c != '-'
    ensures c !in IntToString(n)
  {
    if n < 0 {
      DigitsExclude(NatToString(-n), c);
    } else {
      DigitsExclude(NatToString(n), c);
    }
  }

  /** The digits of a rendering spell the number back. */
  lemma {:induction false} NatToStringValue(n: nat)
    ensures DigitString(NatToString(n))
    ensures DigitsValue(NatToString(n)) == n
  {
    var s := NatToString(n);
    if n >= 10 {
      NatToStringValue(n / 10);
      assert s[..|s| - 1] == NatToString(n / 10);
    }
  }

  /** Text that neither starts nor ends with white space is left alone. */
  lemma StripUnchanged(s: string)
    requires |s| > 0 && !IsSpace(s[0]) && !IsSpace(s[|s| - 1])
    ensures Strip(s) == s
  {
  }

  /** `int` reads back every number this module writes. */
  lemma PyIntRoundTrip(n: int)
    ensures PyInt(IntToString(n)) == Some(n)
  {
    var s := IntToString(n);
    if n < 0 {
      var d := NatToString(-n);
      assert s[|s| - 1] == d[|d| - 1];
      StripUnchanged(s);
      NatToStringValue(-n);
      assert s[1..] == d;
    } else {
      StripUnchanged(s);
      NatToStringValue(n);
    }
  }

  // ---------------------------------------------------------------- the type text

  /** The attribute text split into its pieces, as the parser sees them: the
      byte-order word, the text after the first ':', the bits text before any
      `>>`, and that text split at '/'. */
  function OrderWord(text: string): string
  {
    Split(text, ':')[0]
  }

  /** The parser: None whenever a step of the Python code would raise. */
  function ParseScanType(text: string): (r: Option<ScanType>)
  {
    var parts := Split(text, ':');
    if |parts| < 2 || |parts[1]| == 0 then None
    else
      var rest := parts[1];
      var halves := Split(Before(rest[1..], ">>"), '/');
      if |halves| != 2 then None
      else
        match (PyInt(halves[0]), PyInt(halves[1]))
        case (Some(realbits), Some(storagebits)) =>
          Some(ScanType(if parts[0] == "le" then Little else Big, rest[0] == 's', realbits, storagebits))
        case _ => None
  }

  /** The byte order is little exactly when the word before the first ':' is
      `le`; the type is signed exactly when the text after it starts with `s`. */
  lemma ParseFlags(text: string)
    requires ParseScanType(text).Some?
    ensures ':' in text
    ensures ParseScanType(text).value.endian == Little <==> OrderWord(text) == "le"
    ensures ParseScanType(text).value.signed <==> Split(text, ':')[1][0] == 's'
  {
    if ':' !in text {
      SplitNoSeparator(text, ':');
    }
  }

  /** The two bit counts are the integers on either side of the '/' in the
      text after the sign letter, with any `>>` shift ignored. */
  lemma ParseBits(text: string)
    requires ParseScanType(text).Some?
    ensures var rest := Split(text, ':')[1];
            var halves := Split(Before(rest[1..], ">>"), '/');
            |halves| == 2 &&
            PyInt(halves[0]) == Some(ParseScanType(text).value.realbits) &&
            PyInt(halves[1]) == Some(ParseScanType(text).value.storagebits)
  {
  }

  /** Every malformed text gives None: no ':', nothing after it, not exactly
      one '/' in the bits text, or a bit count that is not an integer. */
  lemma {:induction false} ParseRejects(text: string)
    ensures ':' !in text ==> ParseScanType(text).None?
    ensures |Split(text, ':')| >= 2 && Split(text, ':')[1] == "" ==> ParseScanType(text).None?
    ensures |Split(text, ':')| >= 2 && Split(text, ':')[1] != "" ==>
              var halves := Split(Before(Split(text, ':')[1][1..], ">>"), '/');
              (|halves| != 2 ==> ParseScanType(text).None?) &&
              (|halves| == 2 && (PyInt(halves[0]).None? || PyInt(halves[1]).None?) ==> ParseScanType(text).None?)
  {
    if ':' !in text {
      SplitNoSeparator(text, ':');
    }
  }

  /** The attribute text the kernel writes for a channel type and shift. */
  function Format(t: ScanType, shift: nat): string
  {
    OrderText(t.endian) + ":" + (if t.signed then "s" else "u") + BitsText(t) + ">>" + NatToString(shift)
  }

  function OrderText(e: Endian): string
  {
    if e == Little then "le" else "be"
  }

  /** The `realbits/storagebits` part of the text. */
  function BitsText(t: ScanType): string
  {
    IntToString(t.realbits) + "/" + IntToString(t.storagebits)
  }

  /** The text after the sign letter: the bit counts and the shift. */
  function TailText(t: ScanType, shift: nat): string
  {
    BitsText(t) + ">>" + NatToString(shift)
  }

  /** The bits text holds only digits, '-' and one '/'. */
  lemma BitsTextExcludes(t: ScanType, c: char)
    requires !IsDigit(c) && c != '-' && c != '/'
    ensures c !in BitsText(t)
  {
    IntToStringExcludes(t.realbits, c);
    IntToStringExcludes(t.storagebits, c);
  }

  /** The first ':' of a rendering follows the byte-order word, and it is the only one. */
  lemma SplitFormatAtColon(t: ScanType, shift: nat)
    ensures Split(Format(t, shift), ':') == [OrderText(t.endian), [if t.signed then 's' else 'u'] + TailText(t, shift)]
  {
    var rest := [if t.signed then 's' else 'u'] + TailText(t, shift);
    assert Format(t, shift) == OrderText(t.endian) + [':'] + rest;
    assert ':' !in rest by {
      BitsTextExcludes(t, ':');
      DigitsExclude(NatToString(shift), ':');
    }
    SplitAtFirst(OrderText(t.endian), ':', rest);
    SplitNoSeparator(rest, ':');
  }

  /** Cutting the tail at `>>` leaves the bits text. */
  lemma TailBeforeShift(t: ScanType, shift: nat)
    ensures Before(TailText(t, shift), ">>") == BitsText(t)
  {
    BitsTextExcludes(t, '>');
    BeforeAt(BitsText(t), ">>", NatToString(shift));
  }

  /** The bits text splits at its '/' into the two renderings. */
  lemma SplitBitsText(t: ScanType)
    ensures Split(BitsText(t), '/') == [IntToString(t.realbits), IntToString(t.storagebits)]
  {
    var r := IntToString(t.realbits);
    var st := IntToString(t.storagebits);
    assert BitsText(t) == r + ['/'] + st;
    IntToStringExcludes(t.realbits, '/');
    IntToStringExcludes(t.storagebits, '/');
    SplitAtFirst(r, '/', st);
    SplitNoSeparator(st, '/');
  }

  /** Parsing the kernel's rendering of a type gives that type back. */
  lemma ParseFormat(t: ScanType, shift: nat)
    ensures ParseScanType(Format(t, shift)) == Some(t)
  {
    var rest := [if t.signed then 's' else 'u'] + TailText(t, shift);
    SplitFormatAtColon(t, shift);
    assert rest[1..] == TailText(t, shift);
    TailBeforeShift(t, shift);
    SplitBitsText(t);
    PyIntRoundTrip(t.realbits);
    PyIntRoundTrip(t.storagebits);
  }

  /** The kernel's text for a 12-bit signed little-endian sample in 16 bits. */
  lemma FormatExample()
    ensures Format(ScanType(Little, true, 12, 16), 4) == "le:s12/16>>4"
  {
    assert BitsText(ScanType(Little, true, 12, 16)) == "12/16" by {
      assert NatToString(12) == "12";
      assert NatToString(16) == "16";
    }
    assert NatToString(4) == "4";
  }

  /** Text without ':' has a single piece. */
  lemma SplitExamples()
    ensures Split("les12/16>>4", ':') == ["les12/16>>4"]
    ensures Split("le:", ':') == ["le", ""]
  {
    SplitNoSeparator("les12/16>>4", ':');
    SplitAtFirst("le", ':', "");
    assert "le" + [':'] + "" == "le:";
  }

  /** A text the kernel produces, and texts it does not. */
  lemma ParseExamples()
    ensures ParseScanType("le:s12/16>>4") == Some(ScanType(Little, true, 12, 16))
    ensures ParseScanType("les12/16>>4") == None
    ensures ParseScanType("le:") == None
  {
    FormatExample();
    ParseFormat(ScanType(Little, true, 12, 16), 4);
    SplitExamples();
  }
}
