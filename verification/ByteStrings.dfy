/** The byte-string functions the C libraries lack: memmem and strlcpy. */
module ByteStrings {
  import opened Common

  // ----- memmem

  predicate Matches(haystack: seq<byte>, needle: seq<byte>, k: int) {
    0 <= k && k + |needle| <= |haystack| && haystack[k..k + |needle|] == needle
  }

  /** The first `c` among the `len` bytes from `from` on. */
  function Memchr(s: seq<byte>, c: byte, from: nat, len: nat): (r: Option<nat>)
    requires from + len <= |s|
    ensures r.Some? ==> from <= r.value < from + len && s[r.value] == c && forall k :: from <= k < r.value ==> s[k] != c
    ensures r.None? ==> forall k :: from <= k < from + len ==> s[k] != c
    decreases len
  {
    if len == 0 then None else if s[from] == c then Some(from) else Memchr(s, c, from + 1, len - 1)
  }

  /** Both byte ranges must be inside the objects compared. */
  predicate Memcmp(s: seq<byte>, at: nat, t: seq<byte>)
    requires at + |t| <= |s|
  {
    s[at..at + |t|] == t
  }

  /** A null or empty argument finds nothing; otherwise the leftmost match is found, if there is one. */
  method Memmem(haystack: Option<seq<byte>>, needle: Option<seq<byte>>) returns (r: Option<nat>)
    ensures haystack.None? || needle.None? || haystack.value == [] || needle.value == [] ==> r == None
    ensures haystack.Some? && needle.Some? && r.Some? ==>
              && needle.value != [] && Matches(haystack.value, needle.value, r.value)
              && forall k :: 0 <= k < r.value ==> !Matches(haystack.value, needle.value, k)
    ensures haystack.Some? && needle.Some? && needle.value != [] && r.None? ==>
              forall k :: !Matches(haystack.value, needle.value, k)
  {
    if haystack.None? || haystack.value == [] || needle.None? || needle.value == [] {
      return None;
    }
    var csrc, ctrg := haystack.value, needle.value;
    var ndx := 0;
    while ndx <= |csrc|
      invariant forall k :: 0 <= k < ndx ==> !Matches(csrc, ctrg, k)
      decreases |csrc| + 1 - ndx
    {
      var searchlen := |csrc| - ndx - |ctrg| + 1;
      if searchlen <= 0 {
        return None;
      }
      var tptr := Memchr(csrc, ctrg[0], ndx, searchlen);
      // A match starts with the first byte of the needle, so none starts before `tptr`.
      assert forall k :: Matches(csrc, ctrg, k) ==> csrc[k] == csrc[k..k + |ctrg|][0] == ctrg[0];
      if tptr.None? {
        return None;
      }
      if Memcmp(csrc, tptr.value, ctrg) {
        return tptr;
      }
      ndx := ndx + (tptr.value - ndx) + 1;
    }
    return None;
  }

  // ----- strlcpy

  /** The length of the C string at the front of `s`. */
  function StrLen(s: seq<byte>): (n: nat)
    requires 0 in s
    ensures n < |s| && s[n] == 0 && forall k :: 0 <= k < n ==> s[k] != 0
  {
    if s[0] == 0 then 0 else 1 + StrLen(s[1..])
  }

  /** The copy is the whole source, and not a truncation, exactly when the returned length is less than the size. */
  lemma TruncationIsReported(dst: seq<byte>, src: seq<byte>, siz: nat)
    requires 0 in src && 0 < siz <= |dst|
    requires var m := Min(StrLen(src), siz - 1); dst[..m] == src[..m] && dst[m] == 0
    ensures 0 in dst && StrLen(dst) == Min(StrLen(src), siz - 1)
    ensures StrLen(src) < siz <==> dst[..StrLen(dst)] == src[..StrLen(src)]
  {
    var m := Min(StrLen(src), siz - 1);
    assert dst[m] in dst;
    assert forall k :: 0 <= k < m ==> dst[k] == dst[..m][k] == src[..m][k] == src[k];
  }

  /**
   The longest prefix of the source that fits with its terminator is copied, nothing past it is touched, and the
   source length is returned.
   */
  method Strlcpy(dst: array<byte>, src: array<byte>, siz: nat) returns (r: nat)
    requires dst != src && 0 in src[..] && siz <= dst.Length
    modifies dst
    ensures r == StrLen(src[..])
    ensures siz == 0 ==> dst[..] == old(dst[..])
    ensures siz > 0 ==>
              var m := Min(r, siz - 1);
              && dst[..m] == src[..m] && dst[m] == 0 && dst[m + 1..] == old(dst[m + 1..])
  {
    var d, s, n := 0, 0, siz;
    ghost var len := StrLen(src[..]);
    if n != 0 {
      n := n - 1;
      if n != 0 {
        while true
          invariant d == s <= len && n >= 1 && d + n == siz - 1
          invariant forall j :: 0 <= j < d ==> dst[j] == src[j]
          invariant forall j :: d <= j < dst.Length ==> dst[j] == old(dst[j])
          decreases n
        {
          dst[d] := src[s];
          d, s := d + 1, s + 1;
          if dst[d - 1] == 0 {
            break;
          }
          n := n - 1;
          if n == 0 {
            break;
          }
        }
      }
    }
    if n == 0 {
      if siz != 0 {
        dst[d] := 0;
      }
      while src[s] != 0
        invariant s <= len
        decreases len - s
      {
        s := s + 1;
      }
      s := s + 1;
    }
    return s - 1;
  }
}
