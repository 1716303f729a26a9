/** Shared by every module: an optional value, for the null pointers and failure values of the C code, and bytes. */
module Common {
  datatype Option<+T> = None | Some(value: T)

  type byte = bv8

  function Min(a: nat, b: nat): nat { if a < b then a else b }
}

/** The flags of open, with their MinGW values. */
module OpenFlags {
  const O_RDONLY: bv32 := 0x0
  const O_WRONLY: bv32 := 0x1
  const O_RDWR: bv32 := 0x2
  const O_ACCMODE: bv32 := 0x3
  const O_APPEND: bv32 := 0x8
  const O_CLOEXEC: bv32 := 0x80
  const O_CREAT: bv32 := 0x100
  const O_TRUNC: bv32 := 0x200
  const O_EXCL: bv32 := 0x400
  const O_BINARY: bv32 := 0x8000
}

/** C strings: text up to a terminator. */
module CStrings {
  /** A C string, without its terminator. */
  predicate CString(s: string) { '\0' !in s }

  /** The C string at the front of a buffer. */
  function Text(buffer: seq<char>): string {
    if buffer == [] || buffer[0] == '\0' then "" else [buffer[0]] + Text(buffer[1..])
  }

  lemma {:induction false} TextOfCString(s: string, rest: seq<char>)
    requires CString(s)
    ensures Text(s + ['\0'] + rest) == s
  {
    if s != "" {
      assert (s + ['\0'] + rest)[1..] == s[1..] + ['\0'] + rest;
      TextOfCString(s[1..], rest);
    }
  }
}
