/** The users of the cache: the wrapped open and the fopen over it, and the Rust conversion of a handle to a descriptor. */
module WinOpen {
  import opened Common
  import opened CStrings
  import opened OpenFlags
  import opened FdWorld
  import opened FdCache
  import opened FdCacheRuns
  import opened FileMode

  datatype Stat = Missing | Directory | NotDirectory

  /** Why open failed: by its own checks, or because the system call did. */
  datatype Failure = IsDirectory | BadAccessMode | SystemFailure

  /** The one system call that may be made: the CRT's open, with its mode argument if it gets one, or CreateFile. */
  datatype Call =
    | CrtOpen(flags: bv32, mode: Option<bv32>)
    | OpenDirectory(access: bv32, share: bv32, flags: bv32)
    | NoCall

  const GENERIC_READ: bv32 := 0x8000_0000
  const FILE_SHARE_VALID_FLAGS: bv32 := 0x7

  /** The call that open makes, and the descriptor that it answers. */
  function CallFor(oflag: bv32, mode: bv32, stat: Stat): Call {
    if oflag & O_CREAT != 0 then CrtOpen(oflag | O_BINARY, Some(mode))
    else if !stat.Directory? then CrtOpen(oflag | O_BINARY, None)
    else if oflag & O_ACCMODE == O_RDONLY then OpenDirectory(GENERIC_READ, FILE_SHARE_VALID_FLAGS, oflag | O_BINARY)
    else NoCall
  }

  function Answered(call: Call, crtFd: Option<nat>, dirFd: Option<nat>): Option<nat> {
    match call
    case CrtOpen(_, _) => crtFd
    case OpenDirectory(_, _, _) => dirFd
    case NoCall => None
  }

  lemma CallCases(oflag: bv32, mode: bv32, stat: Stat)
    ensures oflag & 0x100 != 0 ==> CallFor(oflag, mode, stat) == CrtOpen(oflag | 0x8000, Some(mode))
    ensures oflag & 0x100 == 0 && !stat.Directory? ==> CallFor(oflag, mode, stat) == CrtOpen(oflag | 0x8000, None)
    ensures oflag & 0x100 == 0 && stat.Directory? && oflag & 0x3 == 0 ==>
              CallFor(oflag, mode, stat) == OpenDirectory(0x8000_0000, 0x7, oflag | 0x8000)
    ensures oflag & 0x100 == 0 && stat.Directory? && oflag & 0x3 != 0 ==> CallFor(oflag, mode, stat) == NoCall
  {
  }

  lemma BinaryIsItsOwnBit(oflag: bv32)
    ensures (oflag | O_BINARY) & O_CREAT == oflag & 0x100
    ensures (oflag | O_BINARY) & O_ACCMODE == oflag & 0x3
    ensures oflag & 0x3 <= 3
  {
  }

  /** `crtFd` and `dirFd` are what the CRT's open and the opening of a directory handle would return. */
  method OpenImpl(oflag: bv32, mode: bv32, stat: Stat, crtFd: Option<nat>, dirFd: Option<nat>)
    returns (fd: Option<nat>, error: Option<Failure>, call: Call)
    // Whatever may create a file goes to the CRT, and so does all that is not an existing directory.
    ensures oflag & 0x100 != 0 ==> call == CrtOpen(oflag | 0x8000, Some(mode)) && fd == crtFd
    ensures oflag & 0x100 == 0 && (stat.Missing? || stat.NotDirectory?) ==>
              call == CrtOpen(oflag | 0x8000, None) && fd == crtFd
    // An existing directory is opened for reading only.
    ensures oflag & 0x100 == 0 && stat.Directory? && oflag & 0x3 == 0 ==>
              call == OpenDirectory(0x8000_0000, 0x7, oflag | 0x8000) && fd == dirFd
    ensures oflag & 0x100 == 0 && stat.Directory? && (oflag & 0x3 == 1 || oflag & 0x3 == 2) ==>
              call == NoCall && fd == None && error == Some(IsDirectory)
    ensures oflag & 0x100 == 0 && stat.Directory? && oflag & 0x3 == 3 ==>
              call == NoCall && fd == None && error == Some(BadAccessMode)
    ensures fd.Some? <==> error.None?
    ensures fd.None? && call != NoCall ==> error == Some(SystemFailure)
    ensures call == CallFor(oflag, mode, stat) && fd == Answered(call, crtFd, dirFd)
  {
    BinaryIsItsOwnBit(oflag);
    CallCases(oflag, mode, stat);
    var flags := oflag | O_BINARY;
    if flags & O_CREAT != 0 {
      return crtFd, if crtFd.Some? then None else Some(SystemFailure), CrtOpen(flags, Some(mode));
    }
    if stat.Directory? {
      var access, share := 0, 0;
      match flags & O_ACCMODE {
        case 0 => access, share := GENERIC_READ, FILE_SHARE_VALID_FLAGS;
        case 1 => return None, Some(IsDirectory), NoCall;
        case 2 => return None, Some(IsDirectory), NoCall;
        case _ => return None, Some(BadAccessMode), NoCall;
      }
      return dirFd, if dirFd.Some? then None else Some(SystemFailure), OpenDirectory(access, share, flags);
    }
    return crtFd, if crtFd.Some? then None else Some(SystemFailure), CrtOpen(flags, None);
  }

  /** Every successful open is recorded, directories included, with the caller's own flags; a failed one is not. */
  method WrapOpen(cache: OflagCache, oflag: bv32, mode: bv32, stat: Stat, crtFd: Option<nat>, dirFd: Option<nat>)
    returns (fd: Option<nat>, error: Option<Failure>, call: Call)
    requires crtFd.Some? ==> crtFd.value < cache.slots.Length
    requires dirFd.Some? ==> dirFd.value < cache.slots.Length
    modifies cache`max, cache.slots
    ensures call == CallFor(oflag, mode, stat) && fd == Answered(call, crtFd, dirFd)
    ensures fd.Some? <==> error.None?
    ensures fd.None? ==> error == Some(if call != NoCall then SystemFailure
                                       else if oflag & 0x3 == 3 then BadAccessMode else IsDirectory)
    ensures fd.Some? ==> fd.value < cache.slots.Length
    ensures cache.View() == if fd.Some? then WithFlag(old(cache.View()), fd.value, oflag) else old(cache.View())
  {
    fd, error, call := OpenImpl(oflag, mode, stat, crtFd, dirFd);
    if fd.Some? {
      cache.CacheOflag(fd.value, oflag);
    }
  }

  /** What fopen did: the call that opens the file, the descriptor, and the mode a stream was opened with. */
  datatype Fopen = Fopen(call: Call, fd: Option<nat>, stream: Option<string>)

  /** The flags of the CRT's open, each bit as the mode string asks for it. */
  predicate AsAsked(flags: bv32, mode: string) {
    && (flags & 0x3 == if '+' in mode then 0x2 else if First(mode) == 'r' then 0x0 else 0x1)
    && (flags & 0x8 != 0 <==> First(mode) == 'a')
    && (flags & 0x80 != 0 <==> 'e' in mode || 'N' in mode)
    && (flags & 0x100 != 0 <==> First(mode) != 'r')
    && (flags & 0x200 != 0 <==> First(mode) == 'w')
    && (flags & 0x400 != 0 <==> 'x' in mode)
    && flags & 0x8000 != 0
  }

  /** `crtStream` is whether the CRT's own fdopen succeeds. */
  method WrapFopen(cache: OflagCache, mode: string, stat: Stat, crtFd: Option<nat>, dirFd: Option<nat>, crtStream: bool)
    returns (r: Fopen)
    requires CString(mode)
    requires crtFd.Some? ==> crtFd.value < cache.slots.Length
    requires dirFd.Some? ==> dirFd.value < cache.slots.Length
    modifies cache`max, cache.slots
    // What is opened, and how.
    ensures r.call.CrtOpen? <==> mode == "" || mode[0] in {'w', 'a'} || (mode[0] == 'r' && !stat.Directory?)
    ensures r.call.CrtOpen? ==>
              && AsAsked(r.call.flags, mode)
              && r.call.mode == (if First(mode) == 'r' then None else Some(0x1B6))
              && r.fd == crtFd
    ensures r.call.OpenDirectory? <==> First(mode) == 'r' && '+' !in mode && stat.Directory?
    ensures r.call.OpenDirectory? ==> AsAsked(r.call.flags, mode) && r.fd == dirFd
    ensures r.call.NoCall? ==> r.fd.None?
    ensures r.stream == if r.fd.Some? && crtStream then Canonical(mode) else None
    ensures r.stream.Some? ==> Prints(r.stream.value, mode)
    // A descriptor is left behind without a stream, exactly on the empty mode or when the CRT's fdopen fails.
    ensures r.fd.Some? && r.stream.None? <==> r.fd.Some? && (mode == "" || !crtStream)
    // The cache knows the new descriptor as appending exactly when the mode starts with an a.
    ensures r.fd.None? ==> cache.View() == old(cache.View())
    ensures r.fd.Some? ==>
              && ModeFlags(mode).Some? && r.fd.value < cache.slots.Length
              && cache.View() == WithFlag(old(cache.View()), r.fd.value, ModeFlags(mode).value)
              && cache.slots[r.fd.value] == Some(if First(mode) == 'a' then 0x8 else 0)
  {
    var flags := Fmodeflags(mode);
    if flags.None? {
      return Fopen(NoCall, None, None);
    }
    var fd, _, call := WrapOpen(cache, flags.value, 0x1B6, stat, crtFd, dirFd);
    FlagsAreAsAsked(mode);
    ParserAndPrinterDisagreeOnlyOnEmpty(mode);
    if fd.None? {
      return Fopen(call, None, None);
    }
    assert cache.View().slots[fd.value] == cache.slots[fd.value];
    var stream := WrapFdopen(mode, crtStream);
    return Fopen(call, fd, stream);
  }

  lemma FlagsAreAsAsked(mode: string)
    requires ModeFlags(mode).Some?
    ensures AsAsked(ModeFlags(mode).value | O_BINARY, mode)
    ensures ModeFlags(mode).value & 0x100 != 0 <==> First(mode) != 'r'
    ensures ModeFlags(mode).value & 0x8 == if First(mode) == 'a' then 0x8 else 0
    ensures ModeFlags(mode).value & 0x3 == if '+' in mode then 0x2 else if First(mode) == 'r' then 0x0 else 0x1
  {
    ModeBits(First(mode), '+' in mode, 'x' in mode, 'e' in mode || 'N' in mode);
  }

  /** as_raw_fd and into_raw_fd; `free` is the descriptor open_osfhandle allocates, if it can. */
  method RawFd(cache: OflagCache, w: World, h: Handle, free: Option<nat>) returns (w': World)
    requires Bounded(cache.View())
    requires Possible(State(cache.View(), w), Convert(h, free))
    modifies cache`max, cache.slots
    ensures State(cache.View(), w') == Step(old(State(cache.View(), w)), Convert(h, free))
    ensures free.Some? ==> free.value in w'.flags && w'.flags[free.value] & 0x8000 != 0
  {
    var oflag := cache.GetOsHandleOflag(w, h);
    var flags := oflag | O_BINARY;
    w' := if free.None? then w
          else w.(crt := w.crt[free.value := h], flags := w.flags[free.value := flags]);
  }
}
