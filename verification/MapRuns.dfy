/** Whole runs of the mapping shim, side by side with the POSIX reference. */
module MapRuns {
  import opened Common
  import opened Host
  import opened MapTable
  import opened PosixReference
  import opened MapInvariant

  datatype World = Up(sys: Sys, posix: Posix) | Down

  /** An empty list, and a host and client that agree on what is open. */
  ghost predicate Start(w: World) {
    && w.Up?
    && w.sys.maps == []
    && w.posix.fds == w.sys.host.open
    && w.posix.filenos == w.sys.host.streams
    && w.posix.maps == map[]
    && w.posix.lastFclose == map[]
    && w.posix.held == w.sys.host.streams.Keys
    && w.posix.writeBacks == w.sys.host.writeBacks == []
    && w.sys.host.closed == []
    && multiset(w.posix.issued) == multiset(w.sys.host.open.Keys)
    && (forall fd :: fd in w.sys.host.open ==> 0 <= fd)
    && (forall a :: a in w.sys.host.live ==> !w.sys.host.live[a].writesBack)
  }

  function Advance(w: World, ev: Event, nested: bool): World {
    if w.Down? then Down
    else
      match Step(w.sys, ev, nested)
      case Done(s, _) => Up(s, PosixStep(w.posix, ev).0)
      case Aborted => Down
  }

  function Exec(w: World, evs: seq<Event>, nested: bool): World
    decreases |evs|
  {
    if evs == [] then w else Exec(Advance(w, evs[0], nested), evs[1..], nested)
  }

  /** Every step meets its hypotheses in the state it is taken in. */
  predicate LegalRun(w: World, evs: seq<Event>, nested: bool)
    decreases |evs|
  {
    evs == [] || (w.Up? && Legal(w.sys, w.posix, evs[0]) && LegalRun(Advance(w, evs[0], nested), evs[1..], nested))
  }

  ghost predicate Good(w: World) { w.Up? && Inv(w.sys, w.posix) }

  lemma {:induction false} StepKeeps(s: Sys, p: Posix, ev: Event)
    requires Inv(s, p) && Legal(s, p, ev)
    ensures var r := Step(s, ev, false); r.Done? && Inv(r.sys, PosixStep(p, ev).0)
  {
    match ev
    case Open(fd, file) => OpenKeeps(s, p, fd, file);
    case Attach(st, fd) => AttachKeeps(s, p, st, fd);
    case Mmap(_, _, _, _, _, _) => MmapKeeps(s, p, ev);
    case Close(fd) => CloseKeeps(s, p, fd);
    case Fclose(fp) => FcloseKeeps(s, p, fp);
    case Munmap(addr, len, ok) => MunmapKeeps(s, p, addr, len, ok);
  }

  // ----- Whether libc's fclose goes through the wrapped close

  lemma NestedFclose(s: Sys, st: Stream)
    requires st in s.host.streams ==> !Mapped(s.maps, s.host.streams[st])
    ensures RealFclose(s, st, true) == RealFclose(s, st, false)
  {
  }

  /** At both call sites no entry records the descriptor any more, so a nested close passes straight through. */
  lemma NestedStep(s: Sys, p: Posix, ev: Event)
    requires Inv(s, p)
    ensures Step(s, ev, true) == Step(s, ev, false)
  {
    match ev
    case Fclose(fp) =>
      if fp.Some? && fp.value in s.host.streams {
        var fd := s.host.streams[fp.value];
        if fd >= 0 && !Mapped(s.maps, fd) { NestedFclose(s, fp.value); }
      }
    case Munmap(addr, len, ok) =>
      var k := FindPtr(s.maps, addr, 0);
      if ok && k < |s.maps| {
        var e, u := s.maps[k], Unlinked(s, k);
        assert WellMarked(e, s.host.streams, p.fds, p.lastFclose);
        if FindFd(u.maps, e.fd, 0) == |u.maps| && e.haveFp { NestedFclose(u, e.fp); }
      }
    case _ =>
  }

  // ----- The main theorems

  lemma {:induction false} GoodRun(w: World, evs: seq<Event>, nested: bool)
    requires Good(w) && LegalRun(w, evs, nested)
    ensures Good(Exec(w, evs, nested))
    ensures Exec(w, evs, nested) == Exec(w, evs, false)
    decreases |evs|
  {
    if evs == [] {
    } else {
      NestedStep(w.sys, w.posix, evs[0]);
      StepKeeps(w.sys, w.posix, evs[0]);
      GoodRun(Advance(w, evs[0], nested), evs[1..], nested);
    }
  }

  lemma StartIsGood(w: World)
    requires Start(w)
    ensures Good(w)
  {
  }

  /** Some live mapping of the host writes back through `fd`. */
  ghost predicate StillMapped(h: Host, fd: int) {
    exists a :: a in h.live && h.live[a].writesBack && h.live[a].fd == fd
  }

  /** The descriptors the client has closed but that a mapping still needs. */
  ghost predicate Pending(s: Sys, p: Posix, fd: int) { fd !in p.fds && StillMapped(s.host, fd) }

  /** The list of the shim and the mappings of the host are about the same descriptors. */
  lemma MappedIffLive(s: Sys, fd: int)
    requires TableInv(s.maps, s.host.live)
    ensures Mapped(s.maps, fd) <==> StillMapped(s.host, fd)
  {
    if Mapped(s.maps, fd) {
      var i :| 0 <= i < |s.maps| && s.maps[i].fd == fd;
      assert Recorded(s.maps[i], s.host.live);
    }
    if StillMapped(s.host, fd) {
      var a :| a in s.host.live && s.host.live[a].writesBack && s.host.live[a].fd == fd;
      var i :| 0 <= i < |s.maps| && s.maps[i].ptr == a;
      assert Recorded(s.maps[i], s.host.live);
    }
  }

  /** The reference has the mappings of the host that write back, and the descriptor of each is open on its file. */
  ghost predicate SameMappings(h: Host, p: Posix) {
    && (forall a :: a in p.maps <==> a in h.live && h.live[a].writesBack)
    && (forall a :: a in p.maps ==> h.live[a].fd in h.open && h.open[h.live[a].fd] == p.maps[a])
  }

  lemma MappingsMatch(s: Sys, p: Posix)
    requires Inv(s, p)
    ensures SameMappings(s.host, p)
  {
    forall a
      ensures a in p.maps <==> a in s.host.live && s.host.live[a].writesBack
      ensures a in p.maps ==> s.host.live[a].fd in s.host.open && s.host.open[s.host.live[a].fd] == p.maps[a]
    {
      if Tracked(s.maps, a) {
        var i :| 0 <= i < |s.maps| && s.maps[i].ptr == a;
        assert Recorded(s.maps[i], s.host.live) && SameFile(s.maps[i], s.host.open, p.maps);
      }
    }
  }

  /**
   Every run: no assertion of the shim ever fails; the really open descriptors are the client's open ones, on
   the client's files, plus the closed ones through which a live mapping writes back, each open on the file of
   every such mapping; every munmap so far has written back to the file POSIX prescribes; no stream the client
   holds has been freed; and every descriptor ever opened was really closed exactly once or is open.
   */
  lemma {:induction false} EveryRunRefinesPosix(w: World, evs: seq<Event>, nested: bool)
    requires Start(w) && LegalRun(w, evs, nested)
    ensures var u := Exec(w, evs, nested);
            && u.Up?
            && (forall fd :: fd in u.sys.host.open <==> fd in u.posix.fds || Pending(u.sys, u.posix, fd))
            && (forall fd :: fd in u.posix.fds ==> u.sys.host.open[fd] == u.posix.fds[fd])
            && SameMappings(u.sys.host, u.posix)
            && u.sys.host.writeBacks == u.posix.writeBacks
            && u.posix.held <= u.sys.host.streams.Keys
            && multiset(u.posix.issued) == multiset(u.sys.host.closed) + multiset(u.sys.host.open.Keys)
  {
    StartIsGood(w);
    GoodRun(w, evs, nested);
    var u := Exec(w, evs, nested);
    MappingsMatch(u.sys, u.posix);
    forall fd
      ensures fd in u.sys.host.open <==> fd in u.posix.fds || Pending(u.sys, u.posix, fd)
    {
      MappedIffLive(u.sys, fd);
    }
  }

  lemma UnmappedIsClientOpen(s: Sys, p: Posix)
    requires Inv(s, p) && p.maps == map[]
    ensures s.maps == [] && s.host.open == p.fds
  {
    assert |s.maps| == 0 || SameFile(s.maps[0], s.host.open, p.maps);
    assert forall fd :: !Mapped(s.maps, fd);
    assert s.host.open.Keys == p.fds.Keys by {
      assert forall fd :: fd in s.host.open.Keys <==> fd in p.fds.Keys;
    }
    assert forall fd :: fd in p.fds ==> p.fds[fd] == s.host.open[fd];
  }

  /** Once no mapping is left, nothing is open that the client does not have open. */
  lemma {:induction false} NothingLeaks(w: World, evs: seq<Event>, nested: bool)
    requires Start(w) && LegalRun(w, evs, nested)
    ensures var u := Exec(w, evs, nested);
            u.Up? && (u.posix.maps == map[] ==> u.sys.maps == [] && u.sys.host.open == u.posix.fds)
  {
    StartIsGood(w);
    GoodRun(w, evs, nested);
    var u := Exec(w, evs, nested);
    if u.posix.maps == map[] { UnmappedIsClientOpen(u.sys, u.posix); }
  }

  /** How libc closes the descriptor inside fclose cannot be observed. */
  lemma {:induction false} NestingIsInvisible(w: World, evs: seq<Event>)
    requires Start(w) && LegalRun(w, evs, true)
    ensures Exec(w, evs, true) == Exec(w, evs, false)
  {
    StartIsGood(w);
    GoodRun(w, evs, true);
  }

  /**
   In every reachable state all entries of one descriptor carry the same marks: they wait to be closed exactly
   when the client has closed the descriptor, through fclose exactly when some fclose was issued on it, and then
   with the stream of the latest one, which is still a live stream of that descriptor.
   */
  lemma {:induction false} MarksFollowTheClient(w: World, evs: seq<Event>, nested: bool, i: nat)
    requires Start(w) && LegalRun(w, evs, nested)
    requires var u := Exec(w, evs, nested); u.Up? && i < |u.sys.maps|
    ensures var u := Exec(w, evs, nested); var e := u.sys.maps[i];
            && (e.wantClose <==> e.fd !in u.posix.fds)
            && (e.haveFp <==> e.fd in u.posix.lastFclose)
            && (e.haveFp ==> e.fp == u.posix.lastFclose[e.fd] && e.fp in u.sys.host.streams
                             && u.sys.host.streams[e.fp] == e.fd)
  {
    StartIsGood(w);
    GoodRun(w, evs, nested);
    var u := Exec(w, evs, nested);
    assert WellMarked(u.sys.maps[i], u.sys.host.streams, u.posix.fds, u.posix.lastFclose);
  }

  /** The descriptor a close or fclose is about; -1 for every other call. */
  function Closing(s: Sys, ev: Event): int {
    if ev.Close? then ev.cfd
    else if ev.Fclose? && ev.fp.Some? && ev.fp.value in s.host.streams then s.host.streams[ev.fp.value]
    else -1
  }

  lemma CloseCode(s: Sys, p: Posix, fd: int)
    requires Inv(s, p)
    ensures WrapClose(s, fd).1 == (if fd in p.fds || Pending(s, p, fd) then 0 else -1)
  {
    MappedIffLive(s, fd);
  }

  lemma FcloseCode(s: Sys, p: Posix, st: Stream)
    requires Inv(s, p) && st in s.host.streams
    ensures var fd := s.host.streams[st];
            WrapFclose(s, Some(st), false).1 == (if fd < 0 || fd in p.fds || Pending(s, p, fd) then 0 else -1)
  {
    MappedIffLive(s, s.host.streams[st]);
  }

  lemma NeverAborts(s: Sys, p: Posix, ev: Event)
    requires Inv(s, p) && Legal(s, p, ev)
    ensures Step(s, ev, false).Done?
  {
    StepKeeps(s, p, ev);
  }

  /**
   Each call returns what POSIX prescribes, with one exception: a second close (or an fclose) of a descriptor
   whose close is pending returns 0, because the number is still really open.
   */
  lemma ReturnCodes(s: Sys, p: Posix, ev: Event)
    requires Inv(s, p) && Legal(s, p, ev)
    ensures var r := Step(s, ev, false);
            && r.Done?
            && (r.code == PosixStep(p, ev).1 <==> !Pending(s, p, Closing(s, ev)))
            && (Pending(s, p, Closing(s, ev)) ==> r.code == 0)
  {
    NeverAborts(s, p, ev);
    MappedIffLive(s, Closing(s, ev));
    assert !Mapped(s.maps, -1);
    match ev
    case Close(fd) => CloseCode(s, p, fd);
    case Fclose(fp) =>
      if fp.Some? {
        FcloseCode(s, p, fp.value);
        assert p.filenos[fp.value] == s.host.streams[fp.value];
      }
    case _ =>
  }

  // ----- Freeing streams

  /**
   fclose frees its stream at once, and no other one, unless a mapping still writes back through the descriptor:
   then it frees none.
   */
  lemma FcloseFrees(s: Sys, p: Posix, st: Stream, nested: bool)
    requires Inv(s, p) && Legal(s, p, Fclose(Some(st)))
    ensures var fd := s.host.streams[st]; var r := Step(s, Fclose(Some(st)), nested);
            && r.Done?
            && r.sys.host.streams == if 0 <= fd && StillMapped(s.host, fd) then s.host.streams else s.host.streams - {st}
  {
    NestedStep(s, p, Fclose(Some(st)));
    MappedIffLive(s, s.host.streams[st]);
  }

  /** The client has fclosed the stream, and it is still there. */
  predicate Lingers(w: World, st: Stream) {
    w.Up? && st in w.sys.host.streams && st !in w.posix.held
  }

  /** The event is an fclose of the stream while a mapping writes back through its descriptor. */
  ghost predicate Defers(w: World, ev: Event, st: Stream) {
    && w.Up? && ev == Fclose(Some(st))
    && st in w.sys.host.streams && StillMapped(w.sys.host, w.sys.host.streams[st])
  }

  lemma {:induction false} NewlyLingers(w: World, ev: Event, nested: bool, st: Stream)
    requires Good(w) && Legal(w.sys, w.posix, ev) && !Lingers(w, st) && Lingers(Advance(w, ev, nested), st)
    ensures Defers(w, ev, st)
  {
    NestedStep(w.sys, w.posix, ev);
    if ev == Fclose(Some(st)) {
      FcloseFrees(w.sys, w.posix, st, nested);
    } else {
      StreamsComeFromAttach(w.sys, ev);
    }
  }

  lemma StreamsComeFromAttach(s: Sys, ev: Event)
    requires Step(s, ev, false).Done?
    ensures forall st :: st in Step(s, ev, false).sys.host.streams ==>
              st in s.host.streams || (ev.Attach? && ev.stream == st)
  {
  }

  lemma {:induction false} LingersSince(w: World, evs: seq<Event>, nested: bool, st: Stream) returns (i: nat)
    requires Good(w) && LegalRun(w, evs, nested) && !Lingers(w, st) && Lingers(Exec(w, evs, nested), st)
    ensures i < |evs| && Defers(Exec(w, evs[..i], nested), evs[i], st)
    decreases |evs|
  {
    var v := Advance(w, evs[0], nested);
    NestedStep(w.sys, w.posix, evs[0]);
    StepKeeps(w.sys, w.posix, evs[0]);
    if Lingers(v, st) {
      NewlyLingers(w, evs[0], nested, st);
      assert Exec(w, evs[..0], nested) == w;
      i := 0;
    } else {
      var j := LingersSince(v, evs[1..], nested, st);
      i := j + 1;
      assert evs[..i][0] == evs[0] && evs[..i][1..] == evs[1..][..j];
    }
  }

  /**
   Every run: a stream that is still there although the client has fclosed it was fclosed at a moment when a mapping
   wrote back through its descriptor. Every other fclose has freed its stream.
   */
  lemma {:induction false} OnlyDeferredStreamsLinger(w: World, evs: seq<Event>, nested: bool, st: Stream) returns (i: nat)
    requires Start(w) && LegalRun(w, evs, nested)
    requires var u := Exec(w, evs, nested); u.Up? && st in u.sys.host.streams && st !in u.posix.held
    ensures i < |evs| && evs[i] == Fclose(Some(st))
    ensures var v := Exec(w, evs[..i], nested);
            v.Up? && st in v.sys.host.streams && StillMapped(v.sys.host, v.sys.host.streams[st])
  {
    StartIsGood(w);
    i := LingersSince(w, evs, nested, st);
  }

  /** munmap fails an assertion exactly when it unmaps part of a mapping whose descriptor is waiting to be closed. */
  lemma {:induction false} MunmapAbortsIff(s: Sys, p: Posix, addr: Addr, len: nat, nested: bool)
    requires Inv(s, p)
    ensures Step(s, Munmap(addr, len, true), nested).Aborted? <==>
            && addr in s.host.live && s.host.live[addr].writesBack
            && Pending(s, p, s.host.live[addr].fd) && len != s.host.live[addr].len
  {
    NestedStep(s, p, Munmap(addr, len, true));
    var k := FindPtr(s.maps, addr, 0);
    if addr in s.host.live && len == s.host.live[addr].len {
      NeverAborts(s, p, Munmap(addr, len, true));
    } else if k < |s.maps| {
      assert Recorded(s.maps[k], s.host.live) && WellMarked(s.maps[k], s.host.streams, p.fds, p.lastFclose);
      MappedIffLive(s, s.maps[k].fd);
    }
  }

  // ----- A mapping keeps its file

  /** The entry of `addr` records a number that is really open on `file`. */
  ghost predicate BackedBy(s: Sys, addr: Addr, fd: int, file: File) {
    && Tracked(s.maps, addr)
    && addr in s.host.live && s.host.live[addr].writesBack && s.host.live[addr].fd == fd
    && fd in s.host.open && s.host.open[fd] == file
  }

  lemma BackedIffReference(s: Sys, p: Posix, addr: Addr, fd: int, file: File)
    requires Inv(s, p)
    ensures BackedBy(s, addr, fd, file) <==>
            addr in p.maps && p.maps[addr] == file && addr in s.host.live && s.host.live[addr].fd == fd
  {
    if Tracked(s.maps, addr) {
      var i :| 0 <= i < |s.maps| && s.maps[i].ptr == addr;
      assert SameFile(s.maps[i], s.host.open, p.maps) && Recorded(s.maps[i], s.host.live);
    }
  }

  /** Only a fresh mmap or the munmap of `addr` itself touches the live mapping at `addr`. */
  lemma StepKeepsLive(s: Sys, ev: Event, addr: Addr)
    requires addr in s.host.live && Step(s, ev, false).Done?
    requires !(ev.Munmap? && ev.addr == addr && ev.ok) && !(ev.Mmap? && ev.result == Some(addr))
    ensures var live := Step(s, ev, false).sys.host.live; addr in live && live[addr] == s.host.live[addr]
  {
  }

  lemma StepKeepsReference(p: Posix, ev: Event, addr: Addr)
    requires addr in p.maps
    requires !(ev.Munmap? && ev.addr == addr && ev.ok) && !(ev.Mmap? && ev.result == Some(addr))
    ensures var maps := PosixStep(p, ev).0.maps; addr in maps && maps[addr] == p.maps[addr]
  {
  }

  /** A tracked mmap backs its address by the file the client has open on the descriptor. */
  lemma MmapBacks(s: Sys, p: Posix, ev: Event)
    requires Inv(s, p) && Legal(s, p, ev)
    requires ev.Mmap? && ev.result.Some? && ev.mfd >= 0 && ev.write && ev.shared
    ensures BackedBy(Step(s, ev, false).sys, ev.result.value, ev.mfd, p.fds[ev.mfd])
  {
    StepKeeps(s, p, ev);
    BackedIffReference(Step(s, ev, false).sys, PosixStep(p, ev).0, ev.result.value, ev.mfd, p.fds[ev.mfd]);
  }

  /** Until it is unmapped, a mapping stays backed by the same open number and the same file. */
  lemma {:induction false} MappingKeepsItsFile(w: World, evs: seq<Event>, nested: bool, addr: Addr, fd: int, file: File)
    requires Good(w) && LegalRun(w, evs, nested) && BackedBy(w.sys, addr, fd, file)
    requires forall i :: 0 <= i < |evs| ==> !(evs[i].Munmap? && evs[i].addr == addr && evs[i].ok)
    ensures var u := Exec(w, evs, nested); u.Up? && BackedBy(u.sys, addr, fd, file)
    decreases |evs|
  {
    if evs == [] {
    } else {
      NestedStep(w.sys, w.posix, evs[0]);
      StepKeeps(w.sys, w.posix, evs[0]);
      var v := Advance(w, evs[0], nested);
      BackedIffReference(w.sys, w.posix, addr, fd, file);
      StepKeepsLive(w.sys, evs[0], addr);
      StepKeepsReference(w.posix, evs[0], addr);
      BackedIffReference(v.sys, v.posix, addr, fd, file);
      MappingKeepsItsFile(v, evs[1..], nested, addr, fd, file);
    }
  }

  /**
   From the mmap to the munmap of a mapping, whatever else happens (closes, opens, other mappings of the same
   descriptor), its number stays open on the file the client mapped: it cannot be recycled.
   */
  lemma {:induction false} FromMmapToMunmap(w: World, mmap: Event, evs: seq<Event>, nested: bool)
    requires Good(w) && LegalRun(w, [mmap] + evs, nested)
    requires mmap.Mmap? && mmap.result.Some? && mmap.mfd >= 0 && mmap.write && mmap.shared
    requires forall i :: 0 <= i < |evs| ==> !(evs[i].Munmap? && evs[i].addr == mmap.result.value && evs[i].ok)
    ensures mmap.mfd in w.posix.fds
    ensures var u := Exec(w, [mmap] + evs, nested);
            u.Up? && BackedBy(u.sys, mmap.result.value, mmap.mfd, w.posix.fds[mmap.mfd])
  {
    assert ([mmap] + evs)[1..] == evs;
    StepKeeps(w.sys, w.posix, mmap);
    MmapBacks(w.sys, w.posix, mmap);
    MappingKeepsItsFile(Advance(w, mmap, nested), evs, nested, mmap.result.value, mmap.mfd, w.posix.fds[mmap.mfd]);
  }
}
