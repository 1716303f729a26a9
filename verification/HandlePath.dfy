/** Paths of handles: the in-place removal of the extended-length prefix, and the bounded join below a directory. */
module HandlePath {
  import opened Common
  import opened CStrings

  const PATH_MAX: nat := 260
  const EXTENDED: string := "\\\\?\\"
  const EXTENDED_UNC: string := "\\\\?\\UNC\\"
  const UNC: string := "UNC\\"

  /** The rule: an extended UNC path becomes a plain UNC path, any other extended path loses its prefix. */
  function Strip(p: string): string {
    if EXTENDED_UNC <= p then "\\\\" + p[8..]
    else if EXTENDED <= p then p[4..]
    else p
  }

  /** Stripping undoes the prefixing of a UNC path. */
  lemma StripUndoesUnc(share: string)
    ensures Strip("\\\\?\\UNC\\" + share) == "\\\\" + share
  {
    assert (EXTENDED_UNC + share)[8..] == share;
  }

  /** Stripping undoes the prefixing of any other path, exactly when it does not look like an extended UNC path. */
  lemma StripUndoesPlainIff(p: string)
    ensures Strip("\\\\?\\" + p) == p <==> !("UNC\\" <= p)
  {
    var q := EXTENDED + p;
    assert q[4..] == p && q[..4] == EXTENDED;
    assert EXTENDED_UNC == EXTENDED + UNC;
    if UNC <= p {
      assert q[4..8] == p[..4] == UNC;
      assert q[..8] == q[..4] + q[4..8];
      assert EXTENDED_UNC <= q;
      assert Strip(q)[0] == '\\' && p[0] == 'U';
    }
  }

  /** A path without the extended-length prefix, and no other one, is left as it is. */
  lemma StripsOnlyExtended(p: string)
    ensures Strip(p) == p <==> !("\\\\?\\" <= p)
  {
    assert EXTENDED_UNC <= p ==> p[..4] == EXTENDED_UNC[..4] == EXTENDED;
  }

  /** The buffer `s` holds the C string `p`. */
  predicate Holding(s: seq<char>, p: string) {
    CString(p) && |p| < |s| && s[..|p|] == p && s[|p|] == '\0'
  }

  lemma HoldingText(s: seq<char>, p: string)
    requires Holding(s, p)
    ensures Text(s) == p
  {
    assert s == p + ['\0'] + s[|p| + 1..];
    TextOfCString(p, s[|p| + 1..]);
  }

  method StrLen(buf: array<char>, ghost p: string) returns (n: nat)
    requires Holding(buf[..], p)
    ensures n == |p|
  {
    n := 0;
    while buf[n] != '\0'
      invariant n <= |p|
      decreases |p| - n
    {
      assert n < |p| && buf[..][n] == p[n];
      n := n + 1;
    }
  }

  /** strncmp(buf, prefix, |prefix|) == 0: compares no further than the first difference or terminator. */
  method StartsWith(buf: array<char>, prefix: string, ghost p: string) returns (b: bool)
    requires Holding(buf[..], p) && CString(prefix)
    ensures b <==> prefix <= p
  {
    var n := 0;
    while n < |prefix| && buf[n] == prefix[n]
      invariant n <= |prefix| && n <= |p| && prefix[..n] == p[..n]
      decreases |prefix| - n
    {
      assert buf[..][n] == p[n];
      n := n + 1;
    }
    b := n == |prefix|;
    if !b {
      assert n < |p| ==> buf[..][n] == p[n];
    }
  }

  /** The regions may overlap. */
  method Memmove(buf: array<char>, dst: nat, src: nat, n: nat)
    requires dst + n <= buf.Length && src + n <= buf.Length
    modifies buf
    ensures forall k :: 0 <= k < buf.Length ==>
              buf[k] == if dst <= k < dst + n then old(buf[src + k - dst]) else old(buf[k])
  {
    forall k | 0 <= k < n {
      buf[dst + k] := buf[src + k];
    }
  }

  /** The buffer after the move and the new terminator. */
  lemma GapClosed(was: seq<char>, now: seq<char>, dst: nat, src: nat, p: string)
    requires Holding(was, p) && dst <= src <= |p| && |now| == |was|
    requires forall k :: 0 <= k < dst ==> now[k] == was[k]
    requires forall k :: dst <= k < dst + |p| - src ==> now[k] == was[src + k - dst]
    requires now[dst + |p| - src] == '\0'
    ensures Holding(now, p[..dst] + p[src..])
  {
    var q := p[..dst] + p[src..];
    assert forall k :: 0 <= k < |p| ==> was[k] == was[..|p|][k] == p[k];
    assert now[..|q|] == q;
  }

  /** Closing the gap between `dst` and `src` in place, with a new terminator after the moved text. */
  method CloseGap(buf: array<char>, dst: nat, src: nat, length: nat, ghost p: string)
    requires Holding(buf[..], p) && dst <= src <= length == |p|
    modifies buf
    ensures Holding(buf[..], p[..dst] + p[src..])
    ensures forall k :: |p| < k < buf.Length ==> buf[k] == old(buf[k])
  {
    ghost var was := buf[..];
    var pathLen := length - src;
    Memmove(buf, dst, src, pathLen);
    buf[dst + pathLen] := '\0';
    GapClosed(was, buf[..], dst, src, p);
  }

  /** The buffer ends up with the stripped path, and nothing past its terminator changes. */
  method StripInPlace(buf: array<char>, ghost p: string)
    requires Holding(buf[..], p)
    modifies buf
    ensures Holding(buf[..], Strip(p))
    ensures forall k :: |p| < k < buf.Length ==> buf[k] == old(buf[k])
    ensures Strip(p) == p ==> buf[..] == old(buf[..])
  {
    var bufLen := StrLen(buf, p);
    var isUnc := StartsWith(buf, EXTENDED_UNC, p);
    if isUnc {
      assert p[..2] == "\\\\";
      CloseGap(buf, 2, 8, bufLen, p);
      return;
    }
    var isExtended := StartsWith(buf, EXTENDED, p);
    if isExtended {
      assert p[..0] + p[4..] == p[4..];
      CloseGap(buf, 0, 4, bufLen, p);
    }
  }

  /** The text of a buffer filled by snprintf(buf, size, "%s", text): cut to fit, always terminated. */
  function Printed(text: string, size: nat): string
    requires size > 0
  {
    if |text| < size then text else text[..size - 1]
  }

  method Snprintf(buf: array<char>, size: nat, text: string)
    requires 0 < size <= buf.Length && CString(text)
    modifies buf
    ensures Holding(buf[..], Printed(text, size))
  {
    var shown := Printed(text, size);
    forall k | 0 <= k < |shown| {
      buf[k] := shown[k];
    }
    buf[|shown|] := '\0';
  }

  // ----- GetFinalPathNameByHandle answers a required size, not 0, when the buffer is too small, and leaves it alone

  /** Reading past the buffer, undefined in C, is `Overrun`. */
  datatype PathAnswer = NoPath | Overrun | Path(text: string)

  /** What the code takes for the path of a handle; `unfilled` is what malloc left in the buffer, None if it failed. */
  function PathTaken(path: Option<string>, unfilled: Option<seq<char>>): PathAnswer {
    if path.None? || unfilled.None? then NoPath
    else if |path.value| < PATH_MAX then Path(Strip(path.value))
    else if '\0' in unfilled.value then Path(Strip(Text(unfilled.value)))
    else Overrun
  }

  lemma {:induction false} TextIsHeld(s: seq<char>)
    requires '\0' in s
    ensures Holding(s, Text(s))
  {
    if s[0] != '\0' {
      TextIsHeld(s[1..]);
      assert s == [s[0]] + s[1..];
    }
  }

  /** The path taken is that of the handle, whatever malloc left in the buffer, exactly when the path fits it. */
  lemma PathIsRightIffItFits(p: string)
    requires CString(p)
    ensures (forall unfilled :: |unfilled| == PATH_MAX ==> PathTaken(Some(p), Some(unfilled)) == Path(Strip(p)))
            <==> |p| < 260
  {
    if |p| >= PATH_MAX {
      var zeros := seq(PATH_MAX, _ => '\0');
      assert zeros[0] == '\0' && Text(zeros) == "";
      assert |Strip(p)| >= |p| - 6;
      assert PathTaken(Some(p), Some(zeros)) == Path("");
    }
  }

  /** The buffer holds the path taken; without one there is none, or the code has read past the buffer. */
  method FdGetPath(path: Option<string>, unfilled: Option<seq<char>>) returns (buf: Option<array<char>>, overrun: bool)
    requires (path.Some? ==> CString(path.value)) && (unfilled.Some? ==> |unfilled.value| == PATH_MAX)
    ensures overrun <==> PathTaken(path, unfilled).Overrun?
    ensures buf.Some? <==> PathTaken(path, unfilled).Path?
    // A path that does not fit is not refused: the buffer is used as malloc left it, up to a terminator or past its end.
    ensures path.Some? && unfilled.Some? && |path.value| >= 260 ==>
              if '\0' in unfilled.value then buf.Some? && Holding(buf.value[..], Strip(Text(unfilled.value))) else overrun
    ensures path.Some? && unfilled.Some? && |path.value| < 260 ==>
              buf.Some? && Holding(buf.value[..], Strip(path.value))
    ensures buf.Some? ==> fresh(buf.value) && Holding(buf.value[..], PathTaken(path, unfilled).text)
  {
    if path.None? || unfilled.None? {
      return None, false;
    }
    var left := unfilled.value;
    var b := new char[PATH_MAX](i requires 0 <= i < |left| => left[i]);
    assert b[..] == left;
    if |path.value| < PATH_MAX {
      Snprintf(b, PATH_MAX, path.value);
      StripInPlace(b, path.value);
      return Some(b), false;
    }
    if '\0' !in b[..] {
      return None, true;
    }
    TextIsHeld(left);
    StripInPlace(b, Text(left));
    return Some(b), false;
  }

  datatype PathError = NotADirectory | NoSuchPath | NameTooLong | OutOfMemory

  /**
   The path of `name` below a directory is the path taken for it, slash, name, with nothing cut off; or the call
   fails, for exactly one reason, and too long means that it would not fit PATH_MAX characters. A parent path that
   cannot be allocated is reported like one that cannot be found; `room` is whether the second allocation succeeds.
   */
  method GetPathAt(isDir: bool, path: Option<string>, unfilled: Option<seq<char>>, name: string, room: bool)
    returns (result: Option<array<char>>, error: Option<PathError>, overrun: bool)
    requires (path.Some? ==> CString(path.value)) && (unfilled.Some? ==> |unfilled.value| == PATH_MAX) && CString(name)
    ensures result.Some? <==> error.None? && !overrun
    ensures overrun <==> isDir && PathTaken(path, unfilled).Overrun?
    ensures error == Some(NotADirectory) <==> !isDir
    ensures error == Some(NoSuchPath) <==> isDir && (path.None? || unfilled.None?)
    ensures error == Some(NameTooLong) <==>
            isDir && PathTaken(path, unfilled).Path? && |PathTaken(path, unfilled).text + "/" + name| > PATH_MAX
    ensures error == Some(OutOfMemory) <==>
            && isDir && !room && PathTaken(path, unfilled).Path?
            && |PathTaken(path, unfilled).text + "/" + name| <= PATH_MAX
    ensures result.Some? ==>
              fresh(result.value) && Text(result.value[..]) == PathTaken(path, unfilled).text + "/" + name
  {
    if !isDir {
      return None, Some(NotADirectory), false;
    }
    var parent, past := FdGetPath(path, unfilled);
    if past {
      return None, None, true;
    }
    if parent.None? {
      return None, Some(NoSuchPath), false;
    }
    ghost var text := PathTaken(path, unfilled).text;
    var length := StrLen(parent.value, text);
    if length + 1 + |name| > PATH_MAX {
      return None, Some(NameTooLong), false;
    }
    if !room {
      return None, Some(OutOfMemory), false;
    }
    var buff := new char[PATH_MAX + 1](_ => ' ');
    HoldingText(parent.value[..], text);
    Snprintf(buff, PATH_MAX + 1, Text(parent.value[..]) + "/" + name);
    HoldingText(buff[..], text + "/" + name);
    return Some(buff), None, false;
  }
}
