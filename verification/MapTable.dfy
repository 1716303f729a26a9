/**
 The Emscripten host as the mapping shim sees it. A shared writable mapping is written back at
 munmap time through the descriptor it was made from: to whatever file that number denotes then,
 and nowhere if the number is closed. That is the defect the shim works around.
 */
module Host {
  type Addr = nat
  type Stream = nat
  type File = nat

  /** A live mapping; `writesBack` holds for a shared writable mapping of a descriptor. */
  datatype Mapping = Mapping(len: nat, fd: int, writesBack: bool)

  /** `writeBacks` and `closed` log what munmap stored where and every descriptor really closed. */
  datatype Host = Host(
    open: map<int, File>,
    live: map<Addr, Mapping>,
    streams: map<Stream, int>,
    writeBacks: seq<(Addr, File)>,
    closed: seq<int>)

  function RealClose(h: Host, fd: int): (r: (Host, int))
  {
    if fd in h.open then (h.(open := h.open - {fd}, closed := h.closed + [fd]), 0) else (h, -1)
  }

  /** munmap of a whole mapping; an address that is not mapped is left alone. */
  function Unmap(h: Host, addr: Addr): (r: Host)
  {
    if addr !in h.live then h
    else
      var m := h.live[addr];
      var done := if m.writesBack && m.fd in h.open then [(addr, h.open[m.fd])] else [];
      h.(live := h.live - {addr}, writeBacks := h.writeBacks + done)
  }
}

/** What each wrapped call does to the list of tracked mappings and to the host, as a function of values. */
module MapTable {
  import opened Common
  import opened Host

  /** `fp` is meaningful only under `haveFp`: the C code leaves it uninitialised until fclose. */
  datatype Entry = Entry(ptr: Addr, len: nat, fd: int, fp: Stream, haveFp: bool, wantClose: bool)

  datatype Sys = Sys(maps: seq<Entry>, host: Host)

  /** `Aborted` is a C assert that failed. */
  datatype Outcome = Done(sys: Sys, code: int) | Aborted

  predicate Mapped(maps: seq<Entry>, fd: int) {
    exists i :: 0 <= i < |maps| && maps[i].fd == fd
  }

  predicate Tracked(maps: seq<Entry>, addr: Addr) {
    exists i :: 0 <= i < |maps| && maps[i].ptr == addr
  }

  function MarkEntry(e: Entry, fd: int, stream: Option<Stream>): Entry {
    if e.fd != fd then e
    else if stream.None? then e.(wantClose := true)
    else e.(wantClose := true, fp := stream.value, haveFp := true)
  }

  function Mark(maps: seq<Entry>, fd: int, stream: Option<Stream>): seq<Entry> {
    seq(|maps|, i requires 0 <= i < |maps| => MarkEntry(maps[i], fd, stream))
  }

  function MmapStub(s: Sys, result: Option<Addr>, len: nat, write: bool, shared: bool, fd: int, junk: Stream): Outcome {
    if result.None? then Done(s, -1)
    else
      var addr := result.value;
      var tracked := fd >= 0 && write && shared;
      var host := s.host.(live := s.host.live[addr := Mapping(len, fd, tracked)]);
      Done(Sys(if tracked then [Entry(addr, len, fd, junk, false, false)] + s.maps else s.maps, host), addr)
  }

  function WrapClose(s: Sys, fd: int): (Sys, int) {
    if fd !in s.host.open then (s, -1)
    else if Mapped(s.maps, fd) then (s.(maps := Mark(s.maps, fd, None)), 0)
    else
      var (host, code) := RealClose(s.host, fd);
      (s.(host := host), code)
  }

  /**
   libc's fclose. `nested` says whether it closes its descriptor through the wrapped close or directly.
   fclose of a dead FILE object is undefined in C and reported as a failure here.
   */
  function RealFclose(s: Sys, stream: Stream, nested: bool): (Sys, int) {
    if stream !in s.host.streams then (s, -1)
    else
      var fd := s.host.streams[stream];
      var freed := s.(host := s.host.(streams := s.host.streams - {stream}));
      if fd < 0 then (freed, 0)
      else if nested then WrapClose(freed, fd)
      else
        var (host, code) := RealClose(freed.host, fd);
        (freed.(host := host), code)
  }

  /** `stream` is None for a null pointer; a live stream without a descriptor has a negative fileno. */
  function WrapFclose(s: Sys, stream: Option<Stream>, nested: bool): (Sys, int) {
    if stream.None? || stream.value !in s.host.streams then (s, -1)
    else
      var fd := s.host.streams[stream.value];
      if fd >= 0 && Mapped(s.maps, fd) then (s.(maps := Mark(s.maps, fd, stream)), 0)
      else RealFclose(s, stream.value, nested)
  }

  /** The position of the first entry from `from` on whose address (or descriptor) is the key; `|maps|` if none. */
  function FindPtr(maps: seq<Entry>, addr: Addr, from: nat): (k: nat)
    requires from <= |maps|
    ensures from <= k <= |maps|
    ensures k < |maps| ==> maps[k].ptr == addr
    ensures forall j :: from <= j < k ==> maps[j].ptr != addr
    decreases |maps| - from
  {
    if from == |maps| || maps[from].ptr == addr then from else FindPtr(maps, addr, from + 1)
  }

  function FindFd(maps: seq<Entry>, fd: int, from: nat): (k: nat)
    requires from <= |maps|
    ensures from <= k <= |maps|
    ensures k < |maps| ==> maps[k].fd == fd
    ensures forall j :: from <= j < k ==> maps[j].fd != fd
    decreases |maps| - from
  {
    if from == |maps| || maps[from].fd == fd then from else FindFd(maps, fd, from + 1)
  }

  function Without(maps: seq<Entry>, k: nat): seq<Entry>
    requires k < |maps|
  {
    maps[..k] + maps[k + 1..]
  }

  /** `entry` is already unlinked from `s.maps`. */
  function PostMunmapHook(s: Sys, entry: Entry, len: nat, nested: bool): Outcome {
    if entry.len != len then Aborted
    else
      var k := FindFd(s.maps, entry.fd, 0);
      if k < |s.maps| then
        if s.maps[k].wantClose then Done(s, 0) else Aborted
      else
        var (s', code) :=
          if entry.haveFp then RealFclose(s, entry.fp, nested)
          else
            var (host, c) := RealClose(s.host, entry.fd);
            (s.(host := host), c);
        if code == 0 then Done(s', 0) else Aborted
  }

  /** `ok` is whether the host's munmap succeeded. */
  function MunmapStub(s: Sys, addr: Addr, len: nat, ok: bool, nested: bool): Outcome {
    if !ok then Done(s, -1)
    else
      var s1 := s.(host := Unmap(s.host, addr));
      var k := FindPtr(s.maps, addr, 0);
      if k == |s.maps| then Done(s1, 0)
      else
        var s2 := s1.(maps := Without(s.maps, k));
        if s.maps[k].wantClose then PostMunmapHook(s2, s.maps[k], len, nested) else Done(s2, 0)
  }

  datatype Event =
    | Open(fd: int, file: File)
    | Attach(stream: Stream, fileno: int)
    | Mmap(result: Option<Addr>, mlen: nat, write: bool, shared: bool, mfd: int, junk: Stream)
    | Close(cfd: int)
    | Fclose(fp: Option<Stream>)
    | Munmap(addr: Addr, len: nat, ok: bool)

  function Step(s: Sys, ev: Event, nested: bool): Outcome {
    match ev
    case Open(fd, file) => Done(s.(host := s.host.(open := s.host.open[fd := file])), fd)
    case Attach(st, fd) => Done(s.(host := s.host.(streams := s.host.streams[st := fd])), 0)
    case Mmap(res, len, w, sh, fd, junk) => MmapStub(s, res, len, w, sh, fd, junk)
    case Close(fd) => var (s', c) := WrapClose(s, fd); Done(s', c)
    case Fclose(fp) => var (s', c) := WrapFclose(s, fp, nested); Done(s', c)
    case Munmap(addr, len, ok) => MunmapStub(s, addr, len, ok, nested)
  }
}

/**
 The reference: the mmap page of POSIX.1-2017 (System Interfaces volume), read as a machine. A close takes
 effect at once, and a shared writable mapping keeps its own reference to the file until it is unmapped.
 */
module PosixReference {
  import opened Common
  import opened Host
  import opened MapTable

  /**
   `maps` gives the file behind each shared writable mapping. `lastFclose` records the stream of the latest
   fclose issued on a descriptor since it was opened, `held` the streams the client has not fclosed, and `issued`
   every descriptor ever opened.
   */
  datatype Posix = Posix(
    fds: map<int, File>,
    maps: map<Addr, File>,
    filenos: map<Stream, int>,
    lastFclose: map<int, Stream>,
    held: set<Stream>,
    writeBacks: seq<(Addr, File)>,
    issued: seq<int>)

  function CloseFd(p: Posix, fd: int): (Posix, int) {
    (p.(fds := p.fds - {fd}), if fd in p.fds then 0 else -1)
  }

  function PosixStep(p: Posix, ev: Event): (Posix, int) {
    match ev
    case Open(fd, file) =>
      (p.(fds := p.fds[fd := file], lastFclose := p.lastFclose - {fd}, issued := p.issued + [fd]), fd)
    case Attach(st, fd) =>
      (p.(filenos := p.filenos[st := fd], held := p.held + {st}), 0)
    case Mmap(res, len, w, sh, fd, _) =>
      if res.None? then (p, -1)
      else (if fd in p.fds && fd >= 0 && w && sh then p.(maps := p.maps[res.value := p.fds[fd]]) else p, res.value)
    case Close(fd) =>
      CloseFd(p, fd)
    case Fclose(fp) =>
      if fp.None? || fp.value !in p.filenos then (p, -1)
      else
        var fd := p.filenos[fp.value];
        var q := p.(held := p.held - {fp.value});
        if fd < 0 then (q, 0) else CloseFd(q.(lastFclose := p.lastFclose[fd := fp.value]), fd)
    case Munmap(addr, _, ok) =>
      if !ok then (p, -1)
      else if addr !in p.maps then (p, 0)
      else (p.(maps := p.maps - {addr}, writeBacks := p.writeBacks + [(addr, p.maps[addr])]), 0)
  }
}
