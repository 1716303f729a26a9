/** The invariant of the mapping shim relative to the POSIX reference, and that every step keeps it. */
module MapInvariant {
  import opened Common
  import opened Host
  import opened MapTable
  import opened PosixReference

  /** What is asked of the host and of the client before each step; nothing about close or about failures. */
  predicate Legal(s: Sys, p: Posix, ev: Event) {
    match ev
    case Open(fd, _) => 0 <= fd && fd !in s.host.open
    case Attach(st, fd) => st !in s.host.streams && (0 <= fd ==> fd in p.fds)
    case Mmap(res, _, w, sh, fd, _) =>
      res.Some? ==> res.value !in s.host.live && (0 <= fd && w && sh ==> fd in p.fds)
    case Close(_) => true
    case Fclose(fp) => fp.Some? ==> fp.value in s.host.streams
    case Munmap(addr, len, _) => addr in s.host.live ==> len == s.host.live[addr].len
  }

  /** The list and the host agree on which mappings write back, and no address is recorded twice. */
  ghost predicate TableInv(maps: seq<Entry>, live: map<Addr, Mapping>) {
    && (forall i, j :: 0 <= i < j < |maps| ==> maps[i].ptr != maps[j].ptr)
    && (forall i :: 0 <= i < |maps| ==> Recorded(maps[i], live))
    && (forall a :: a in live && live[a].writesBack ==> Tracked(maps, a))
  }

  predicate Recorded(e: Entry, live: map<Addr, Mapping>) {
    e.ptr in live && live[e.ptr] == Mapping(e.len, e.fd, true)
  }

  /** Really open: what the client has open, and what is still mapped. */
  ghost predicate OpenInv(maps: seq<Entry>, open: map<int, File>, fds: map<int, File>) {
    forall fd :: fd in open <==> fd in fds || Mapped(maps, fd)
  }

  /** A number the client has open, or that an entry records, denotes the file it should. */
  ghost predicate FileInv(maps: seq<Entry>, open: map<int, File>, fds: map<int, File>, files: map<Addr, File>) {
    && (forall fd :: fd in open ==> 0 <= fd)
    && (forall fd :: fd in fds ==> fd in open && fds[fd] == open[fd])
    && (forall i :: 0 <= i < |maps| ==> SameFile(maps[i], open, files))
    && (forall a :: a in files ==> Tracked(maps, a))
  }

  predicate SameFile(e: Entry, open: map<int, File>, files: map<Addr, File>) {
    e.fd in open && e.ptr in files && files[e.ptr] == open[e.fd]
  }

  /** The marks of an entry are those of its descriptor, so all entries of one descriptor agree. */
  ghost predicate MarkInv(maps: seq<Entry>, streams: map<Stream, int>, fds: map<int, File>, last: map<int, Stream>) {
    forall i :: 0 <= i < |maps| ==> WellMarked(maps[i], streams, fds, last)
  }

  predicate WellMarked(e: Entry, streams: map<Stream, int>, fds: map<int, File>, last: map<int, Stream>) {
    && (e.wantClose <==> e.fd !in fds)
    && (e.haveFp <==> e.fd in last)
    && (e.haveFp ==> e.fp == last[e.fd] && e.fp in streams && streams[e.fp] == e.fd)
  }

  ghost predicate StreamInv(streams: map<Stream, int>, p: Posix) {
    && (forall st :: st in streams ==> st in p.filenos && p.filenos[st] == streams[st])
    && (forall fd :: fd in p.lastFclose ==> fd !in p.fds)
  }

  /** No stream the client still holds has been freed, or will be by a delayed close. */
  ghost predicate HeldInv(maps: seq<Entry>, streams: map<Stream, int>, held: set<Stream>) {
    && held <= streams.Keys
    && (forall i :: 0 <= i < |maps| && maps[i].haveFp ==> maps[i].fp !in held)
  }

  /** Conservation: every descriptor opened has been really closed once, or is still really open. */
  ghost predicate Balanced(h: Host, p: Posix) {
    multiset(p.issued) == multiset(h.closed) + multiset(h.open.Keys)
  }

  ghost predicate Inv(s: Sys, p: Posix) {
    && TableInv(s.maps, s.host.live)
    && OpenInv(s.maps, s.host.open, p.fds)
    && FileInv(s.maps, s.host.open, p.fds, p.maps)
    && MarkInv(s.maps, s.host.streams, p.fds, p.lastFclose)
    && StreamInv(s.host.streams, p)
    && HeldInv(s.maps, s.host.streams, p.held)
    && Balanced(s.host, p)
    && s.host.writeBacks == p.writeBacks
  }

  // ----- Opening and attaching

  lemma IssueBalances(h: Host, p: Posix, fd: int, file: File)
    requires Balanced(h, p) && fd !in h.open
    ensures Balanced(h.(open := h.open[fd := file]), p.(issued := p.issued + [fd]))
  {
    assert h.open[fd := file].Keys == h.open.Keys + {fd};
  }

  /** Opening a descriptor that no entry records, and forgetting its fclose history. */
  lemma UnmappedMarks(maps: seq<Entry>, streams: map<Stream, int>, fds: map<int, File>, last: map<int, Stream>,
                      fd: int, file: File)
    requires MarkInv(maps, streams, fds, last) && !Mapped(maps, fd)
    ensures MarkInv(maps, streams, fds[fd := file], last - {fd})
  {
    forall i | 0 <= i < |maps|
      ensures WellMarked(maps[i], streams, fds[fd := file], last - {fd})
    {
      assert WellMarked(maps[i], streams, fds, last);
    }
  }

  lemma OpenKeeps(s: Sys, p: Posix, fd: int, file: File)
    requires Inv(s, p) && Legal(s, p, Open(fd, file))
    ensures Inv(Step(s, Open(fd, file), false).sys, PosixStep(p, Open(fd, file)).0)
  {
    IssueBalances(s.host, p, fd, file);
    assert !Mapped(s.maps, fd);
    UnmappedMarks(s.maps, s.host.streams, p.fds, p.lastFclose, fd, file);
  }

  lemma AttachKeeps(s: Sys, p: Posix, st: Stream, fd: int)
    requires Inv(s, p) && Legal(s, p, Attach(st, fd))
    ensures Inv(Step(s, Attach(st, fd), false).sys, PosixStep(p, Attach(st, fd)).0)
  {
    forall i | 0 <= i < |s.maps|
      ensures WellMarked(s.maps[i], s.host.streams[st := fd], p.fds, p.lastFclose)
      ensures s.maps[i].haveFp ==> s.maps[i].fp != st
    {
      assert WellMarked(s.maps[i], s.host.streams, p.fds, p.lastFclose);
    }
  }

  // ----- Mapping

  lemma PushKeys(maps: seq<Entry>, e: Entry)
    ensures forall fd :: Mapped([e] + maps, fd) <==> fd == e.fd || Mapped(maps, fd)
    ensures forall a :: Tracked([e] + maps, a) <==> a == e.ptr || Tracked(maps, a)
  {
    var maps' := [e] + maps;
    assert maps'[0] == e;
    assert forall i :: 0 <= i < |maps| ==> maps'[i + 1] == maps[i];
  }

  lemma PushTable(maps: seq<Entry>, live: map<Addr, Mapping>, e: Entry)
    requires TableInv(maps, live) && e.ptr !in live
    ensures TableInv([e] + maps, live[e.ptr := Mapping(e.len, e.fd, true)])
  {
    PushKeys(maps, e);
    var maps', live' := [e] + maps, live[e.ptr := Mapping(e.len, e.fd, true)];
    forall i | 0 <= i < |maps'|
      ensures Recorded(maps'[i], live')
    {
      if i > 0 { assert maps'[i] == maps[i - 1] && Recorded(maps[i - 1], live); }
    }
    forall i, j | 0 <= i < j < |maps'|
      ensures maps'[i].ptr != maps'[j].ptr
    {
      assert maps'[j] == maps[j - 1] && Recorded(maps[j - 1], live);
    }
  }

  lemma PushFile(maps: seq<Entry>, open: map<int, File>, fds: map<int, File>, files: map<Addr, File>, e: Entry)
    requires FileInv(maps, open, fds, files) && e.fd in fds && !Tracked(maps, e.ptr)
    ensures FileInv([e] + maps, open, fds, files[e.ptr := fds[e.fd]])
  {
    PushKeys(maps, e);
    var files' := files[e.ptr := fds[e.fd]];
    forall i | 0 <= i < |maps| + 1
      ensures SameFile(([e] + maps)[i], open, files')
    {
      if i > 0 { assert ([e] + maps)[i] == maps[i - 1]; }
    }
  }

  lemma PushMarks(maps: seq<Entry>, s: Sys, p: Posix, e: Entry)
    requires maps == s.maps && MarkInv(maps, s.host.streams, p.fds, p.lastFclose) && HeldInv(maps, s.host.streams, p.held)
    requires e.fd in p.fds && e.fd !in p.lastFclose && !e.wantClose && !e.haveFp
    ensures MarkInv([e] + maps, s.host.streams, p.fds, p.lastFclose) && HeldInv([e] + maps, s.host.streams, p.held)
  {
    forall i | 0 <= i < |maps| + 1
      ensures WellMarked(([e] + maps)[i], s.host.streams, p.fds, p.lastFclose)
      ensures ([e] + maps)[i].haveFp ==> ([e] + maps)[i].fp !in p.held
    {
      if i > 0 { assert ([e] + maps)[i] == maps[i - 1]; }
    }
  }

  lemma MmapKeeps(s: Sys, p: Posix, ev: Event)
    requires ev.Mmap? && Inv(s, p) && Legal(s, p, ev)
    ensures Inv(Step(s, ev, false).sys, PosixStep(p, ev).0)
  {
    if ev.result.Some? && 0 <= ev.mfd && ev.write && ev.shared {
      var e := Entry(ev.result.value, ev.mlen, ev.mfd, ev.junk, false, false);
      PushTable(s.maps, s.host.live, e);
      PushKeys(s.maps, e);
      PushFile(s.maps, s.host.open, p.fds, p.maps, e);
      PushMarks(s.maps, s, p, e);
      assert OpenInv([e] + s.maps, s.host.open, p.fds);
    }
  }

  // ----- Deferring a close: every entry of the descriptor is marked

  lemma MarkKeys(maps: seq<Entry>, fd: int, st: Option<Stream>)
    ensures |Mark(maps, fd, st)| == |maps|
    ensures forall x :: Mapped(Mark(maps, fd, st), x) <==> Mapped(maps, x)
    ensures forall a :: Tracked(Mark(maps, fd, st), a) <==> Tracked(maps, a)
  {
    var marked := Mark(maps, fd, st);
    assert forall i :: 0 <= i < |maps| ==> marked[i].fd == maps[i].fd && marked[i].ptr == maps[i].ptr;
  }

  lemma MarkTable(maps: seq<Entry>, live: map<Addr, Mapping>, fd: int, st: Option<Stream>)
    requires TableInv(maps, live)
    ensures TableInv(Mark(maps, fd, st), live)
  {
    MarkKeys(maps, fd, st);
  }

  lemma MarkFiles(maps: seq<Entry>, open: map<int, File>, fds: map<int, File>, files: map<Addr, File>,
                  fd: int, st: Option<Stream>)
    requires FileInv(maps, open, fds, files)
    ensures FileInv(Mark(maps, fd, st), open, fds - {fd}, files)
  {
    MarkKeys(maps, fd, st);
  }

  /** The fclose history after close (no stream) or fclose of `fd`. */
  function History(last: map<int, Stream>, fd: int, st: Option<Stream>): map<int, Stream> {
    if st.None? then last else last[fd := st.value]
  }

  lemma MarkMarks(maps: seq<Entry>, streams: map<Stream, int>, fds: map<int, File>, last: map<int, Stream>,
                  fd: int, st: Option<Stream>)
    requires MarkInv(maps, streams, fds, last)
    requires st.Some? ==> st.value in streams && streams[st.value] == fd
    ensures MarkInv(Mark(maps, fd, st), streams, fds - {fd}, History(last, fd, st))
  {
    var marked := Mark(maps, fd, st);
    forall i | 0 <= i < |marked|
      ensures WellMarked(marked[i], streams, fds - {fd}, History(last, fd, st))
    {
      assert WellMarked(maps[i], streams, fds, last);
    }
  }

  function StillHeld(held: set<Stream>, st: Option<Stream>): set<Stream> {
    if st.None? then held else held - {st.value}
  }

  lemma MarkHeld(maps: seq<Entry>, streams: map<Stream, int>, held: set<Stream>, fd: int, st: Option<Stream>)
    requires HeldInv(maps, streams, held)
    ensures HeldInv(Mark(maps, fd, st), streams, StillHeld(held, st))
  {
  }

  lemma DeferKeeps(s: Sys, p: Posix, fd: int, st: Option<Stream>)
    requires Inv(s, p) && Mapped(s.maps, fd)
    requires st.Some? ==> st.value in s.host.streams && s.host.streams[st.value] == fd
    ensures Inv(s.(maps := Mark(s.maps, fd, st)),
                p.(fds := p.fds - {fd}, lastFclose := History(p.lastFclose, fd, st), held := StillHeld(p.held, st)))
  {
    MarkHeld(s.maps, s.host.streams, p.held, fd, st);
    MarkMarks(s.maps, s.host.streams, p.fds, p.lastFclose, fd, st);
    MarkKeys(s.maps, fd, st);
    MarkTable(s.maps, s.host.live, fd, st);
    MarkFiles(s.maps, s.host.open, p.fds, p.maps, fd, st);
  }

  // ----- Closing at once: no entry records the descriptor

  lemma ReleaseBalances(h: Host, p: Posix, fd: int)
    requires Balanced(h, p)
    ensures Balanced(RealClose(h, fd).0, p)
  {
    if fd in h.open {
      var h' := RealClose(h, fd).0;
      assert h'.open.Keys == h.open.Keys - {fd};
      assert multiset(h.open.Keys) == multiset(h'.open.Keys) + multiset{fd};
      assert multiset(h.closed + [fd]) == multiset(h.closed) + multiset{fd};
    }
  }

  lemma ReleaseKeeps(s: Sys, p: Posix, fd: int)
    requires Inv(s, p) && !Mapped(s.maps, fd)
    ensures Inv(s.(host := RealClose(s.host, fd).0), p.(fds := p.fds - {fd}))
    ensures RealClose(s.host, fd).1 == 0 <==> fd in p.fds
  {
    ReleaseBalances(s.host, p, fd);
    assert forall i :: 0 <= i < |s.maps| ==> SameFile(s.maps[i], s.host.open, p.maps) && s.maps[i].fd != fd;
  }

  lemma CloseKeeps(s: Sys, p: Posix, fd: int)
    requires Inv(s, p)
    ensures Inv(Step(s, Close(fd), false).sys, PosixStep(p, Close(fd)).0)
  {
    var s', p' := Step(s, Close(fd), false).sys, PosixStep(p, Close(fd)).0;
    assert p' == p.(fds := p.fds - {fd});
    if fd !in s.host.open {
      assert p.fds - {fd} == p.fds;
      assert s' == s && p' == p;
    } else if Mapped(s.maps, fd) {
      DeferKeeps(s, p, fd, None);
      assert s' == s.(maps := Mark(s.maps, fd, None));
      assert p' == p.(fds := p.fds - {fd}, lastFclose := History(p.lastFclose, fd, None), held := StillHeld(p.held, None));
    } else {
      ReleaseKeeps(s, p, fd);
      assert s' == s.(host := RealClose(s.host, fd).0);
    }
  }

  /** Freeing a FILE that the client has fclosed and whose descriptor no entry records. */
  lemma FreeStreamKeeps(s: Sys, p: Posix, st: Stream)
    requires Inv(s, p) && st in s.host.streams && !Mapped(s.maps, s.host.streams[st]) && st !in p.held
    ensures Inv(s.(host := s.host.(streams := s.host.streams - {st})), p)
  {
    forall i | 0 <= i < |s.maps|
      ensures WellMarked(s.maps[i], s.host.streams - {st}, p.fds, p.lastFclose)
    {
      assert WellMarked(s.maps[i], s.host.streams, p.fds, p.lastFclose);
    }
  }

  lemma FcloseKeeps(s: Sys, p: Posix, fp: Option<Stream>)
    requires Inv(s, p) && Legal(s, p, Fclose(fp))
    ensures Inv(Step(s, Fclose(fp), false).sys, PosixStep(p, Fclose(fp)).0)
  {
    if fp.Some? {
      var fd := s.host.streams[fp.value];
      assert fp.value in p.filenos && p.filenos[fp.value] == fd;
      var q := p.(held := p.held - {fp.value});
      assert Inv(s, q);
      if fd < 0 {
        assert !Mapped(s.maps, fd);
        FreeStreamKeeps(s, q, fp.value);
      } else if Mapped(s.maps, fd) {
        DeferKeeps(s, p, fd, fp);
      } else {
        FreeStreamKeeps(s, q, fp.value);
        var freed := s.(host := s.host.(streams := s.host.streams - {fp.value}));
        ReleaseKeeps(freed, q, fd);
      }
    }
  }

  // ----- Unmapping: one entry is unlinked, and the last of a closed descriptor closes it

  lemma WithoutKeys(maps: seq<Entry>, k: nat)
    requires k < |maps|
    requires forall i, j :: 0 <= i < j < |maps| ==> maps[i].ptr != maps[j].ptr
    ensures forall i :: 0 <= i < |maps| - 1 ==> Without(maps, k)[i] == maps[if i < k then i else i + 1]
    ensures forall x :: x != maps[k].fd ==> (Mapped(Without(maps, k), x) <==> Mapped(maps, x))
    ensures forall a :: Tracked(Without(maps, k), a) <==> Tracked(maps, a) && a != maps[k].ptr
  {
    var rest := Without(maps, k);
    assert forall i :: 0 <= i < k ==> rest[i] == maps[i];
    assert forall i :: k < i < |maps| ==> rest[i - 1] == maps[i];
  }

  lemma UnlinkTable(maps: seq<Entry>, live: map<Addr, Mapping>, k: nat)
    requires TableInv(maps, live) && k < |maps|
    ensures TableInv(Without(maps, k), live - {maps[k].ptr})
  {
    WithoutKeys(maps, k);
    var rest := Without(maps, k);
    forall i | 0 <= i < |rest|
      ensures Recorded(rest[i], live - {maps[k].ptr})
    {
      assert Recorded(maps[if i < k then i else i + 1], live);
    }
  }

  lemma UnlinkFiles(maps: seq<Entry>, open: map<int, File>, fds: map<int, File>, files: map<Addr, File>, k: nat)
    requires k < |maps| && FileInv(maps, open, fds, files)
    requires forall i, j :: 0 <= i < j < |maps| ==> maps[i].ptr != maps[j].ptr
    ensures FileInv(Without(maps, k), open, fds, files - {maps[k].ptr})
  {
    WithoutKeys(maps, k);
    var rest := Without(maps, k);
    forall i | 0 <= i < |rest|
      ensures SameFile(rest[i], open, files - {maps[k].ptr})
    {
      assert SameFile(maps[if i < k then i else i + 1], open, files);
    }
  }

  lemma UnlinkMarks(maps: seq<Entry>, streams: map<Stream, int>, fds: map<int, File>, last: map<int, Stream>,
                    held: set<Stream>, k: nat)
    requires k < |maps| && MarkInv(maps, streams, fds, last) && HeldInv(maps, streams, held)
    requires forall i, j :: 0 <= i < j < |maps| ==> maps[i].ptr != maps[j].ptr
    ensures MarkInv(Without(maps, k), streams, fds, last) && HeldInv(Without(maps, k), streams, held)
  {
    WithoutKeys(maps, k);
    var rest := Without(maps, k);
    forall i | 0 <= i < |rest|
      ensures WellMarked(rest[i], streams, fds, last)
      ensures rest[i].haveFp ==> rest[i].fp !in held
    {
      assert WellMarked(maps[if i < k then i else i + 1], streams, fds, last);
    }
  }

  /** The write-back of the host is the one of the reference. */
  lemma UnlinkLog(s: Sys, p: Posix, k: nat)
    requires k < |s.maps| && Recorded(s.maps[k], s.host.live) && SameFile(s.maps[k], s.host.open, p.maps)
    requires s.host.writeBacks == p.writeBacks
    ensures Unmap(s.host, s.maps[k].ptr)
            == s.host.(live := s.host.live - {s.maps[k].ptr}, writeBacks := Forgotten(p, s.maps[k].ptr).writeBacks)
    ensures Forgotten(p, s.maps[k].ptr)
            == p.(maps := p.maps - {s.maps[k].ptr}, writeBacks := Forgotten(p, s.maps[k].ptr).writeBacks)
  {
  }

  /** The state once the host has unmapped entry `k` and the list has dropped it. */
  function Unlinked(s: Sys, k: nat): Sys
    requires k < |s.maps|
  {
    Sys(Without(s.maps, k), Unmap(s.host, s.maps[k].ptr))
  }

  function Forgotten(p: Posix, addr: Addr): Posix {
    PosixStep(p, Munmap(addr, 0, true)).0
  }

  /** The descriptor of the dropped entry is still wanted: by the client, or by another mapping. */
  lemma UnlinkKeeps(s: Sys, p: Posix, k: nat)
    requires Inv(s, p) && k < |s.maps|
    requires s.maps[k].fd in p.fds || Mapped(Without(s.maps, k), s.maps[k].fd)
    ensures Inv(Unlinked(s, k), Forgotten(p, s.maps[k].ptr))
  {
    assert Recorded(s.maps[k], s.host.live) && SameFile(s.maps[k], s.host.open, p.maps);
    UnlinkLog(s, p, k);
    UnlinkTable(s.maps, s.host.live, k);
    UnlinkFiles(s.maps, s.host.open, p.fds, p.maps, k);
    UnlinkMarks(s.maps, s.host.streams, p.fds, p.lastFclose, p.held, k);
    assert OpenInv(Without(s.maps, k), s.host.open, p.fds) by { WithoutKeys(s.maps, k); }
  }

  /** The reference as it would be had the client kept `fd` open on `file` and never closed its stream. */
  function Reopened(p: Posix, fd: int, file: File): Posix {
    p.(fds := p.fds[fd := file], lastFclose := p.lastFclose - {fd})
  }

  /** Dropping the last entry of a closed descriptor leaves the state of a client that still has it open. */
  lemma LastUnlinkKeeps(s: Sys, p: Posix, k: nat)
    requires Inv(s, p) && k < |s.maps|
    requires s.maps[k].fd !in p.fds && !Mapped(Without(s.maps, k), s.maps[k].fd)
    ensures s.maps[k].fd in s.host.open
    ensures Inv(Unlinked(s, k), Reopened(Forgotten(p, s.maps[k].ptr), s.maps[k].fd, s.host.open[s.maps[k].fd]))
  {
    var fd, rest := s.maps[k].fd, Without(s.maps, k);
    assert Recorded(s.maps[k], s.host.live) && SameFile(s.maps[k], s.host.open, p.maps);
    UnlinkLog(s, p, k);
    UnlinkTable(s.maps, s.host.live, k);
    UnlinkFiles(s.maps, s.host.open, p.fds, p.maps, k);
    UnlinkMarks(s.maps, s.host.streams, p.fds, p.lastFclose, p.held, k);
    UnmappedMarks(rest, s.host.streams, p.fds, p.lastFclose, fd, s.host.open[fd]);
    assert OpenInv(rest, s.host.open, p.fds[fd := s.host.open[fd]]) by { WithoutKeys(s.maps, k); }
  }

  /** The fclose history of a descriptor that is closed and unmapped does not matter. */
  lemma HistoryIsFree(s: Sys, p: Posix, fd: int, last: map<int, Stream>)
    requires Inv(s, p) && !Mapped(s.maps, fd) && fd !in p.fds
    requires last - {fd} == p.lastFclose - {fd}
    ensures Inv(s, p.(lastFclose := last))
  {
    forall i | 0 <= i < |s.maps|
      ensures WellMarked(s.maps[i], s.host.streams, p.fds, last)
    {
      assert WellMarked(s.maps[i], s.host.streams, p.fds, p.lastFclose);
      assert s.maps[i].fd in last <==> s.maps[i].fd in last - {fd};
    }
    assert forall x :: x in last && x != fd ==> x in last - {fd};
  }

  /** The delayed close of the hook succeeds and completes the step. */
  lemma DelayedCloseKeeps(s: Sys, p: Posix, e: Entry)
    requires e.fd !in p.fds && !Mapped(s.maps, e.fd) && e.fd in s.host.open
    requires Inv(s, Reopened(p, e.fd, s.host.open[e.fd]))
    requires e.haveFp ==> e.fp in s.host.streams && s.host.streams[e.fp] == e.fd && e.fp !in p.held
    ensures var r := PostMunmapHook(s, e, e.len, false);
            r.Done? && r.code == 0 && Inv(r.sys, p) && e.fd !in r.sys.host.open
  {
    var q := Reopened(p, e.fd, s.host.open[e.fd]);
    var freed := s;
    if e.haveFp {
      FreeStreamKeeps(s, q, e.fp);
      freed := s.(host := s.host.(streams := s.host.streams - {e.fp}));
    }
    ReleaseKeeps(freed, q, e.fd);
    assert q.fds - {e.fd} == p.fds;
    var closed := freed.(host := RealClose(freed.host, e.fd).0);
    HistoryIsFree(closed, q.(fds := p.fds), e.fd, p.lastFclose);
    assert PostMunmapHook(s, e, e.len, false) == Done(closed, 0);
  }

  lemma UntrackedUnmapKeeps(s: Sys, p: Posix, addr: Addr)
    requires Inv(s, p) && !Tracked(s.maps, addr)
    ensures Inv(s.(host := Unmap(s.host, addr)), p) && addr !in p.maps
  {
    if addr in s.host.live {
      assert !s.host.live[addr].writesBack;
      var live := s.host.live - {addr};
      forall i | 0 <= i < |s.maps|
        ensures Recorded(s.maps[i], live)
      {
        assert Recorded(s.maps[i], s.host.live);
      }
    }
  }

  lemma MunmapKeeps(s: Sys, p: Posix, addr: Addr, len: nat, ok: bool)
    requires Inv(s, p) && Legal(s, p, Munmap(addr, len, ok))
    ensures var r := Step(s, Munmap(addr, len, ok), false);
            r.Done? && Inv(r.sys, PosixStep(p, Munmap(addr, len, ok)).0)
  {
    var k := FindPtr(s.maps, addr, 0);
    if ok && k == |s.maps| {
      UntrackedUnmapKeeps(s, p, addr);
    } else if ok {
      var e := s.maps[k];
      assert Recorded(e, s.host.live) && WellMarked(e, s.host.streams, p.fds, p.lastFclose);
      var u := Unlinked(s, k);
      var j := FindFd(u.maps, e.fd, 0);
      if e.fd in p.fds {
        UnlinkKeeps(s, p, k);
      } else if j < |u.maps| {
        UnlinkKeeps(s, p, k);
        assert WellMarked(u.maps[j], u.host.streams, p.fds, p.lastFclose);
      } else {
        assert !Mapped(u.maps, e.fd);
        LastUnlinkKeeps(s, p, k);
        DelayedCloseKeeps(u, Forgotten(p, addr), e);
      }
    }
  }
}
