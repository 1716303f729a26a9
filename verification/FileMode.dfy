/** fopen mode strings (section 7.21.5.3 of ISO/IEC 9899:2011): parsed to open flags, and printed back. */
module FileMode {
  import opened Common
  import opened OpenFlags
  import opened CStrings

  /** What `*s` reads. */
  function First(s: string): char { if s == "" then '\0' else s[0] }

  /** strchr(s, c) finds something; the terminator counts as part of the string. */
  predicate Strchr(s: string, c: char) { c == '\0' || c in s }

  predicate Has(flags: bv32, bit: bv32) { flags & bit != 0 }

  function Bit(b: bool, bit: bv32): bv32 { if b then bit else 0 }

  /** The flags, bit by bit: those that printing keeps, and the two that it drops. */
  function Kept(first: char, plus: bool): bv32 {
    (if plus then O_RDWR else if first == 'r' then O_RDONLY else O_WRONLY)
    | Bit(first != 'r', O_CREAT) | Bit(first == 'w', O_TRUNC) | Bit(first == 'a', O_APPEND) | O_BINARY
  }

  function Flags(first: char, plus: bool, excl: bool, cloexec: bool): bv32 {
    Kept(first, plus) | Bit(excl, O_EXCL) | Bit(cloexec, O_CLOEXEC)
  }

  /** None is the -1 of the C code. */
  function ModeFlags(mode: string): Option<bv32> {
    if First(mode) !in {'r', 'w', 'a', '\0'} then None
    else Some(Flags(First(mode), '+' in mode, 'x' in mode, 'e' in mode || 'N' in mode))
  }

  /** The canonical mode string: the first character, the plus, and always binary. */
  function Canonical(mode: string): Option<string> {
    if First(mode) !in {'r', 'w', 'a'} then None
    else Some([First(mode)] + (if '+' in mode then "+" else "") + "b")
  }

  method Fmodeflags(mode: string) returns (r: Option<bv32>)
    requires CString(mode)
    ensures r == ModeFlags(mode)
    ensures r.Some? <==> mode == "" || mode[0] in {'r', 'w', 'a'}
    ensures r.Some? ==>
              && (Has(r.value, O_RDWR) <==> '+' in mode)
              && (Has(r.value, O_WRONLY) <==> '+' !in mode && First(mode) != 'r')
              && (Has(r.value, O_CREAT) <==> First(mode) != 'r')
              && (Has(r.value, O_TRUNC) <==> First(mode) == 'w')
              && (Has(r.value, O_APPEND) <==> First(mode) == 'a')
              && (Has(r.value, O_EXCL) <==> 'x' in mode)
              && (Has(r.value, O_CLOEXEC) <==> 'e' in mode || 'N' in mode)
              && Has(r.value, O_BINARY)
  {
    if !Strchr("rwa", First(mode)) {
      return None;
    }
    var flags: bv32;
    if Strchr(mode, '+') {
      flags := O_RDWR;
    } else if First(mode) == 'r' {
      flags := O_RDONLY;
    } else {
      flags := O_WRONLY;
    }
    if Strchr(mode, 'x') { flags := flags | O_EXCL; }
    if Strchr(mode, 'e') || Strchr(mode, 'N') { flags := flags | O_CLOEXEC; }
    if First(mode) != 'r' { flags := flags | O_CREAT; }
    if First(mode) == 'w' { flags := flags | O_TRUNC; }
    if First(mode) == 'a' { flags := flags | O_APPEND; }
    flags := flags | O_BINARY;
    return Some(flags);
  }

  /** `out` asks for a binary stream, with the first character and the plus of `mode` and nothing else. */
  predicate Prints(out: string, mode: string) {
    && |out| == (if '+' in mode then 3 else 2)
    && mode != "" && out[0] == mode[0]
    && ('+' in mode ==> out[1] == '+')
    && out[|out| - 1] == 'b' && 't' !in out
  }

  lemma CanonicalPrints(mode: string)
    requires Canonical(mode).Some?
    ensures Prints(Canonical(mode).value, mode)
  {
  }

  /** Printing writes the canonical string and its terminator at the front of the buffer, or nothing at all. */
  method FixupFmode(oldMode: string, mode: array<char>) returns (code: int)
    requires CString(oldMode) && mode.Length >= 4
    modifies mode
    ensures code == 0 <==> Canonical(oldMode).Some?
    ensures code == -1 <==> Canonical(oldMode).None?
    ensures match Canonical(oldMode)
            case None => mode[..] == old(mode[..])
            case Some(c) => mode[..|c| + 1] == c + ['\0'] && mode[|c| + 1..] == old(mode[|c| + 1..])
    ensures code == 0 ==> Prints(Text(mode[..]), oldMode)
  {
    var parsed := Fmodeflags(oldMode);
    if parsed.None? {
      return -1;
    }
    var flags, plus, ptr := parsed.value, false, 0;
    if Has(flags, O_RDWR) {
      plus := true;
      if Has(flags, O_APPEND) {
        mode[ptr] := 'a';
      } else if Has(flags, O_TRUNC) {
        mode[ptr] := 'w';
      } else if !Has(flags, O_CREAT) {
        mode[ptr] := 'r';
      } else {
        return -1;
      }
    } else if Has(flags, O_WRONLY) {
      if Has(flags, O_TRUNC) {
        mode[ptr] := 'w';
      } else if Has(flags, O_APPEND) {
        mode[ptr] := 'a';
      } else {
        return -1;
      }
    } else {
      mode[ptr] := 'r';
    }
    ptr := ptr + 1;
    if mode[0] != 'r' && !Has(flags, O_CREAT) {
      return -1;
    }
    if plus {
      mode[ptr] := '+';
      ptr := ptr + 1;
    }
    mode[ptr] := 'b';
    ptr := ptr + 1;
    mode[ptr] := '\0';
    TextIsCanonical(oldMode, mode[..]);
    return 0;
  }

  lemma TextIsCanonical(oldMode: string, mode: string)
    requires CString(oldMode) && Canonical(oldMode).Some? && |mode| >= 4
    requires var c := Canonical(oldMode).value; mode[..|c| + 1] == c + ['\0']
    ensures Text(mode) == Canonical(oldMode).value && Prints(Text(mode), oldMode)
  {
    var c := Canonical(oldMode).value;
    assert mode == c + ['\0'] + mode[|c| + 1..];
    CanonicalIsIdempotent(oldMode);
    TextOfCString(c, mode[|c| + 1..]);
    CanonicalPrints(oldMode);
  }

  // ----- The parser and the printer against each other

  /** The flags without the two bits that printing drops. */
  function Printable(flags: bv32): bv32 { flags & !(O_EXCL | O_CLOEXEC) }

  /** The six values that can be kept. */
  lemma KeptTable(first: char, plus: bool)
    requires first in {'r', 'w', 'a'}
    ensures Kept(first, plus) == if first == 'r' then (if plus then 0x8002 else 0x8000)
                                 else if first == 'w' then (if plus then 0x8302 else 0x8301)
                                 else if plus then 0x810A else 0x8109
  {
  }

  /** Over the six values that can be kept, the two bits that are dropped come and go without a trace. */
  lemma MaskedValues(kept: bv32, excl: bool, cloexec: bool)
    requires kept in {0x8000, 0x8002, 0x8301, 0x8302, 0x8109, 0x810A}
    ensures Printable(kept | Bit(excl, 0x400) | Bit(cloexec, 0x80)) == kept == kept | Bit(false, 0x400) | Bit(false, 0x80)
  {
    if kept == 0x8000 {
    } else if kept == 0x8002 {
    } else if kept == 0x8301 {
    } else if kept == 0x8302 {
    } else if kept == 0x8109 {
    } else {
    }
  }

  lemma DropTwoBits(first: char, plus: bool, excl: bool, cloexec: bool)
    requires first in {'r', 'w', 'a'}
    ensures Printable(Flags(first, plus, excl, cloexec)) == Flags(first, plus, false, false)
  {
    KeptTable(first, plus);
    MaskedValues(Kept(first, plus), excl, cloexec);
  }

  /** Reparsing the printed mode gives the original flags without the exclusive and close-on-exec bits. */
  lemma ReparseDropsTwoBits(mode: string)
    requires CString(mode) && Canonical(mode).Some?
    ensures ModeFlags(mode).Some?
    ensures ModeFlags(Canonical(mode).value) == Some(Printable(ModeFlags(mode).value))
  {
    var c := Canonical(mode).value;
    assert First(c) == First(mode) && ('+' in c <==> '+' in mode);
    assert 'x' !in c && 'e' !in c && 'N' !in c;
    DropTwoBits(First(mode), '+' in mode, 'x' in mode, 'e' in mode || 'N' in mode);
  }

  lemma CanonicalIsIdempotent(mode: string)
    requires CString(mode) && Canonical(mode).Some?
    ensures var c := Canonical(mode).value; CString(c) && Canonical(c) == Some(c) && |c| + 1 <= 4
  {
    var c := Canonical(mode).value;
    assert First(c) == First(mode);
    assert '+' in c <==> '+' in mode;
  }

  /** The flags that are kept tell the modes apart. */
  lemma KeptDetermines(first: char, plus: bool, other: char, otherPlus: bool)
    requires first in {'r', 'w', 'a'} && other in {'r', 'w', 'a'} && Kept(first, plus) == Kept(other, otherPlus)
    ensures first == other && plus == otherPlus
  {
    KeptTable(first, plus);
    KeptTable(other, otherPlus);
  }

  /** Two modes print alike exactly when their flags differ at most in the bits that printing drops. */
  lemma PrintAlikeIffFlagsAlike(one: string, two: string)
    requires CString(one) && CString(two) && Canonical(one).Some? && Canonical(two).Some?
    ensures Canonical(one) == Canonical(two) <==>
            Printable(ModeFlags(one).value) == Printable(ModeFlags(two).value)
  {
    ReparseDropsTwoBits(one);
    ReparseDropsTwoBits(two);
    PrintableIsKept(one);
    PrintableIsKept(two);
    if Printable(ModeFlags(one).value) == Printable(ModeFlags(two).value) {
      KeptDetermines(First(one), '+' in one, First(two), '+' in two);
    }
  }

  lemma PrintableIsKept(mode: string)
    requires CString(mode) && Canonical(mode).Some?
    ensures Printable(ModeFlags(mode).value) == Kept(First(mode), '+' in mode)
  {
    KeptTable(First(mode), '+' in mode);
    MaskedValues(Kept(First(mode), '+' in mode), 'x' in mode, 'e' in mode || 'N' in mode);
  }

  /** The empty string gets past the parser, because strchr also finds a terminator, but not past the printer. */
  lemma ParserAndPrinterDisagreeOnlyOnEmpty(mode: string)
    requires CString(mode)
    ensures ModeFlags(mode).Some? && Canonical(mode).None? <==> mode == ""
    ensures ModeFlags("") == Some(O_WRONLY | O_CREAT | O_BINARY)
  {
    assert mode != "" ==> First(mode) in mode;
  }

  // ----- fdopen

  /** `crtStream` is whether the CRT's own fdopen succeeds; the stream is represented by the mode it gets. */
  method WrapFdopen(mode: string, crtStream: bool) returns (stream: Option<string>)
    requires CString(mode)
    ensures stream == if crtStream then Canonical(mode) else None
    ensures stream.Some? ==> Prints(stream.value, mode)
  {
    var newMode := new char[16](_ => ' ');
    var code := FixupFmode(mode, newMode);
    if code < 0 || !crtStream {
      return None;
    }
    TextIsCanonical(mode, newMode[..]);
    return Some(Text(newMode[..]));
  }

  /** Every bit of the parsed flags that fopen relies on, by its value. */
  lemma ModeBits(first: char, plus: bool, excl: bool, cloexec: bool)
    requires first in {'r', 'w', 'a', '\0'}
    ensures var flags := Flags(first, plus, excl, cloexec);
            && flags | 0x8000 == flags
            && (flags & 0x3 == if plus then 0x2 else if first == 'r' then 0x0 else 0x1)
            && (flags & 0x8 == if first == 'a' then 0x8 else 0x0)
            && (flags & 0x80 == if cloexec then 0x80 else 0x0)
            && (flags & 0x100 == if first != 'r' then 0x100 else 0x0)
            && (flags & 0x200 == if first == 'w' then 0x200 else 0x0)
            && (flags & 0x400 == if excl then 0x400 else 0x0)
            && flags & 0x8000 == 0x8000
  {
  }
}
