/** The delayed close: exactly once, at the last munmap, in whatever order; and what a late mmap breaks. */
module MapOrder {
  import opened Common
  import opened Host
  import opened MapTable
  import opened PosixReference
  import opened MapInvariant
  import opened MapRuns

  /** The run of whole munmaps of the given addresses, one after the other. */
  function Unmaps(live: map<Addr, Mapping>, order: seq<Addr>): seq<Event>
    requires forall a :: a in order ==> a in live
  {
    seq(|order|, i requires 0 <= i < |order| => Munmap(order[i], live[order[i]].len, true))
  }

  /** The addresses are mapped now as they were in `live`. */
  predicate StillLive(live: map<Addr, Mapping>, h: Host, order: seq<Addr>) {
    forall a :: a in order ==> a in live && a in h.live && live[a] == h.live[a]
  }

  predicate Distinct<T(==)>(s: seq<T>) {
    forall i, j :: 0 <= i < j < |s| ==> s[i] != s[j]
  }

  lemma UnmapsStep(w: World, live: map<Addr, Mapping>, order: seq<Addr>)
    requires order != [] && forall a :: a in order ==> a in live
    ensures forall a :: a in order[1..] ==> a in live
    ensures Exec(w, Unmaps(live, order), false)
            == Exec(Advance(w, Munmap(order[0], live[order[0]].len, true), false), Unmaps(live, order[1..]), false)
  {
    assert Unmaps(live, order)[1..] == Unmaps(live, order[1..]);
  }

  /** Such a run is legal, and it does not matter how libc closes a descriptor. */
  lemma {:induction false} UnmapsAreLegal(w: World, live: map<Addr, Mapping>, order: seq<Addr>, nested: bool)
    requires Good(w) && Distinct(order) && StillLive(live, w.sys.host, order)
    ensures LegalRun(w, Unmaps(live, order), nested)
    ensures Exec(w, Unmaps(live, order), nested) == Exec(w, Unmaps(live, order), false)
    ensures var u := Exec(w, Unmaps(live, order), nested); u.Up? && u.posix.held == w.posix.held
    decreases |order|
  {
    if order == [] {
    } else {
      var ev, rest := Unmaps(live, order)[0], order[1..];
      assert order[0] in order;
      assert Unmaps(live, order)[1..] == Unmaps(live, rest);
      NestedStep(w.sys, w.posix, ev);
      StepKeeps(w.sys, w.posix, ev);
      var v := Advance(w, ev, nested);
      forall a | a in rest
        ensures a in live && a in v.sys.host.live && live[a] == v.sys.host.live[a]
      {
        assert a in order && a != order[0];
        StepKeepsLive(w.sys, ev, a);
      }
      UnmapsAreLegal(v, live, rest, nested);
    }
  }

  /** `order` lists the mappings of `fd`, each once. */
  ghost predicate Orders(order: seq<Addr>, maps: seq<Entry>, fd: int) {
    && Distinct(order)
    && (forall a :: a in order <==> Holds(maps, a, fd))
  }

  /** `order` lists the host's live mappings that write back through `fd`, each once. */
  ghost predicate Lists(order: seq<Addr>, h: Host, fd: int) {
    && Distinct(order)
    && (forall a :: a in order <==> a in h.live && h.live[a].writesBack && h.live[a].fd == fd)
  }

  lemma ListsIsOrders(s: Sys, fd: int, order: seq<Addr>)
    requires TableInv(s.maps, s.host.live) && Lists(order, s.host, fd)
    ensures Orders(order, s.maps, fd)
  {
    forall a
      ensures a in order <==> Holds(s.maps, a, fd)
    {
      if a in order {
        var i :| 0 <= i < |s.maps| && s.maps[i].ptr == a;
        assert Recorded(s.maps[i], s.host.live);
      }
      if Holds(s.maps, a, fd) {
        var i :| 0 <= i < |s.maps| && s.maps[i].ptr == a && s.maps[i].fd == fd;
        assert Recorded(s.maps[i], s.host.live);
      }
    }
  }

  lemma ListsAreLive(h: Host, fd: int, order: seq<Addr>)
    requires Lists(order, h, fd)
    ensures StillLive(h.live, h, order)
  {
  }

  predicate Holds(maps: seq<Entry>, a: Addr, fd: int) {
    exists i :: 0 <= i < |maps| && maps[i].ptr == a && maps[i].fd == fd
  }

  /** The entries of the other descriptors, in their order. */
  function Others(maps: seq<Entry>, fd: int): seq<Entry> {
    if maps == [] then []
    else (if maps[0].fd == fd then [] else [maps[0]]) + Others(maps[1..], fd)
  }

  lemma {:induction false} OthersWithout(maps: seq<Entry>, fd: int, k: nat)
    requires k < |maps| && maps[k].fd == fd
    ensures Others(Without(maps, k), fd) == Others(maps, fd)
  {
    if k == 0 {
      assert Without(maps, 0) == maps[1..];
    } else {
      assert Without(maps, k)[1..] == Without(maps[1..], k - 1);
      OthersWithout(maps[1..], fd, k - 1);
    }
  }

  lemma {:induction false} OthersOfUnmapped(maps: seq<Entry>, fd: int)
    requires !Mapped(maps, fd)
    ensures Others(maps, fd) == maps
  {
    if maps == [] {
    } else {
      assert maps[0].fd != fd;
      assert !Mapped(maps[1..], fd) by {
        assert forall i :: 0 <= i < |maps[1..]| ==> maps[1..][i] == maps[i + 1];
      }
      OthersOfUnmapped(maps[1..], fd);
      assert maps == [maps[0]] + maps[1..];
    }
  }

  /** The stream the delayed close of `fd` goes through, if any. */
  function Owner(p: Posix, fd: int): Option<Stream> {
    if fd in p.lastFclose then Some(p.lastFclose[fd]) else None
  }

  predicate Ripe(e: Entry, live: map<Addr, Mapping>, st: Option<Stream>) {
    e.wantClose && (e.haveFp <==> st.Some?) && (e.haveFp ==> e.fp == st.value) && Recorded(e, live)
  }

  /** What the invariant says about one closed descriptor, until it is really closed. */
  ghost predicate Waiting(s: Sys, fd: int, st: Option<Stream>) {
    && 0 <= fd && fd in s.host.open
    && (st.Some? ==> st.value in s.host.streams && s.host.streams[st.value] == fd)
    && (forall i, j :: 0 <= i < j < |s.maps| ==> s.maps[i].ptr != s.maps[j].ptr)
    && (forall i :: 0 <= i < |s.maps| && s.maps[i].fd == fd ==> Ripe(s.maps[i], s.host.live, st))
  }

  lemma PendingWaits(s: Sys, p: Posix, fd: int)
    requires Inv(s, p) && Pending(s, p, fd)
    ensures Mapped(s.maps, fd) && Waiting(s, fd, Owner(p, fd))
  {
    MappedIffLive(s, fd);
    forall i | 0 <= i < |s.maps| && s.maps[i].fd == fd
      ensures Ripe(s.maps[i], s.host.live, Owner(p, fd))
    {
      assert WellMarked(s.maps[i], s.host.streams, p.fds, p.lastFclose) && Recorded(s.maps[i], s.host.live);
    }
    var k :| 0 <= k < |s.maps| && s.maps[k].fd == fd;
    assert WellMarked(s.maps[k], s.host.streams, p.fds, p.lastFclose);
  }

  function StreamsWithout(streams: map<Stream, int>, st: Option<Stream>): map<Stream, int> {
    if st.Some? then streams - {st.value} else streams
  }

  /** One munmap of a closed descriptor: the entry goes, and the descriptor goes exactly with the last entry. */
  lemma UnmapOne(s: Sys, fd: int, st: Option<Stream>, k: nat)
    requires Waiting(s, fd, st) && k < |s.maps| && s.maps[k].fd == fd
    ensures var e := s.maps[k]; var r := MunmapStub(s, e.ptr, e.len, true, false);
            var u := Unlinked(s, k);
            && (Mapped(u.maps, fd) ==> r == Done(u, 0) && Waiting(u, fd, st))
            && (!Mapped(u.maps, fd) ==>
                  r == Done(Sys(u.maps, RealClose(u.host, fd).0.(streams := StreamsWithout(s.host.streams, st))), 0))
  {
    var e, u := s.maps[k], Unlinked(s, k);
    assert Ripe(e, s.host.live, st);
    WithoutKeys(s.maps, k);
    assert FindPtr(s.maps, e.ptr, 0) == k;
    forall i | 0 <= i < |u.maps| && u.maps[i].fd == fd
      ensures Ripe(u.maps[i], u.host.live, st)
    {
      assert Ripe(s.maps[if i < k then i else i + 1], s.host.live, st);
    }
  }

  lemma RestOrders(order: seq<Addr>, maps: seq<Entry>, fd: int, k: nat)
    requires Orders(order, maps, fd) && order != [] && k < |maps| && maps[k].ptr == order[0] && maps[k].fd == fd
    requires forall i, j :: 0 <= i < j < |maps| ==> maps[i].ptr != maps[j].ptr
    ensures Orders(order[1..], Without(maps, k), fd)
    ensures order[1..] == [] <==> !Mapped(Without(maps, k), fd)
  {
    WithoutKeys(maps, k);
    var rest := Without(maps, k);
    forall a
      ensures a in order[1..] <==> Holds(rest, a, fd)
    {
      if a in order[1..] {
        assert a in order && a != order[0];
        var i :| 0 <= i < |maps| && maps[i].ptr == a && maps[i].fd == fd;
        assert rest[if i < k then i else i - 1] == maps[i];
      }
      if Holds(rest, a, fd) {
        var i :| 0 <= i < |rest| && rest[i].ptr == a && rest[i].fd == fd;
        assert rest[i] == maps[if i < k then i else i + 1];
        assert a in order && a != order[0];
        assert order == [order[0]] + order[1..];
      }
    }
    if order[1..] != [] { assert order[1] == order[1..][0] && order[1] in order[1..]; }
    if Mapped(rest, fd) {
      var i :| 0 <= i < |rest| && rest[i].fd == fd;
      assert Holds(rest, rest[i].ptr, fd);
    }
  }

  lemma FirstHeld(s: Sys, fd: int, st: Option<Stream>, order: seq<Addr>) returns (k: nat)
    requires Waiting(s, fd, st) && Mapped(s.maps, fd) && Orders(order, s.maps, fd)
    ensures order != [] && k < |s.maps| && s.maps[k].ptr == order[0] && s.maps[k].fd == fd
    ensures Recorded(s.maps[k], s.host.live)
  {
    var m :| 0 <= m < |s.maps| && s.maps[m].fd == fd;
    assert Holds(s.maps, s.maps[m].ptr, fd);
    assert order[0] in order;
    k :| 0 <= k < |s.maps| && s.maps[k].ptr == order[0] && s.maps[k].fd == fd;
    assert Ripe(s.maps[k], s.host.live, st);
  }

  /** What is written back when the addresses are unmapped in that order while the descriptor is open on `file`. */
  function WrittenBack(order: seq<Addr>, file: File): seq<(Addr, File)> {
    seq(|order|, i requires 0 <= i < |order| => (order[i], file))
  }

  /**
   `w` is `s` after one real close of `fd`, with the entries of `fd` and the mappings of `order` gone, each written
   back to the file of `fd` in that order.
   */
  ghost predicate Released(s: Sys, fd: int, st: Option<Stream>, order: seq<Addr>, w: World) {
    && w.Up? && fd in s.host.open
    && w.sys.maps == Others(s.maps, fd)
    && w.sys.host.open == s.host.open - {fd}
    && w.sys.host.closed == s.host.closed + [fd]
    && w.sys.host.streams == StreamsWithout(s.host.streams, st)
    && w.sys.host.live == s.host.live - (set a | a in order)
    && w.sys.host.writeBacks == s.host.writeBacks + WrittenBack(order, s.host.open[fd])
  }

  lemma ReleasedEarlier(s: Sys, fd: int, st: Option<Stream>, order: seq<Addr>, k: nat, w: World)
    requires k < |s.maps| && s.maps[k].fd == fd && order != [] && s.maps[k].ptr == order[0]
    requires Recorded(s.maps[k], s.host.live) && fd in s.host.open
    requires Released(Unlinked(s, k), fd, st, order[1..], w)
    ensures Released(s, fd, st, order, w)
  {
    OthersWithout(s.maps, fd, k);
    assert (set a | a in order) == {order[0]} + (set a | a in order[1..]);
    var file := s.host.open[fd];
    assert WrittenBack(order, file) == [(order[0], file)] + WrittenBack(order[1..], file);
  }

  /** The last munmap. */
  lemma ReleasedNow(s: Sys, fd: int, st: Option<Stream>, k: nat, w: World)
    requires Waiting(s, fd, st) && k < |s.maps| && s.maps[k].fd == fd
    requires !Mapped(Without(s.maps, k), fd) && w.Up?
    requires var u := Unlinked(s, k);
             w.sys == Sys(u.maps, RealClose(u.host, fd).0.(streams := StreamsWithout(s.host.streams, st)))
    ensures Released(s, fd, st, [s.maps[k].ptr], w)
  {
    assert Ripe(s.maps[k], s.host.live, st);
    OthersWithout(s.maps, fd, k);
    OthersOfUnmapped(Without(s.maps, k), fd);
    var order := [s.maps[k].ptr];
    assert (set a | a in order) == {order[0]};
  }

  lemma {:induction false} WaitingIsReleased(w: World, fd: int, st: Option<Stream>, live: map<Addr, Mapping>,
                                             order: seq<Addr>)
    requires w.Up? && Waiting(w.sys, fd, st) && Mapped(w.sys.maps, fd) && Orders(order, w.sys.maps, fd)
    requires StillLive(live, w.sys.host, order)
    ensures Released(w.sys, fd, st, order, Exec(w, Unmaps(live, order), false))
    decreases |order|
  {
    var s := w.sys;
    var k, v := UnmapFirst(w, fd, st, live, order);
    UnmapsStep(w, live, order);
    if order[1..] == [] {
      assert Exec(v, [], false) == v;
      ReleasedNow(s, fd, st, k, v);
      assert order == [s.maps[k].ptr];
    } else {
      WaitingIsReleased(v, fd, st, live, order[1..]);
      ReleasedEarlier(s, fd, st, order, k, Exec(w, Unmaps(live, order), false));
    }
  }

  /** The first step of such a run, and what is left for the rest of it. */
  lemma {:induction false} UnmapFirst(w: World, fd: int, st: Option<Stream>, live: map<Addr, Mapping>, order: seq<Addr>)
    returns (k: nat, v: World)
    requires w.Up? && Waiting(w.sys, fd, st) && Mapped(w.sys.maps, fd) && Orders(order, w.sys.maps, fd)
    requires StillLive(live, w.sys.host, order)
    ensures order != [] && k < |w.sys.maps| && w.sys.maps[k].ptr == order[0] && w.sys.maps[k].fd == fd
    ensures Recorded(w.sys.maps[k], w.sys.host.live) && v.Up?
    ensures order[0] in live && v == Advance(w, Munmap(order[0], live[order[0]].len, true), false)
    ensures var u := Unlinked(w.sys, k);
            if order[1..] == [] then
              !Mapped(u.maps, fd)
              && v.sys == Sys(u.maps, RealClose(u.host, fd).0.(streams := StreamsWithout(w.sys.host.streams, st)))
            else
              && v.sys == u && Waiting(u, fd, st) && Mapped(u.maps, fd)
              && Orders(order[1..], u.maps, fd) && StillLive(live, u.host, order[1..])
  {
    k := FirstHeld(w.sys, fd, st, order);
    UnmapOne(w.sys, fd, st, k);
    RestOrders(order, w.sys.maps, fd, k);
    assert order[0] in order && live[order[0]].len == w.sys.maps[k].len;
    v := Advance(w, Munmap(order[0], w.sys.maps[k].len, true), false);
    assert forall a :: a in order[1..] ==> a in order && a != order[0];
  }

  /**
   For any number of mappings of one closed descriptor, unmapped in any order: the run is legal and completes, the
   descriptor is really closed exactly once, its latest fclosed stream is freed with it, each mapping is written
   back to the descriptor's file, and the list keeps exactly the entries of the other descriptors, in their order.
   */
  lemma {:induction false} AnyOrderClosesOnce(s: Sys, p: Posix, fd: int, order: seq<Addr>, nested: bool)
    requires Inv(s, p) && Pending(s, p, fd) && Lists(order, s.host, fd)
    ensures var evs := Unmaps(s.host.live, order);
            LegalRun(Up(s, p), evs, nested) && Released(s, fd, Owner(p, fd), order, Exec(Up(s, p), evs, nested))
  {
    PendingWaits(s, p, fd);
    ListsIsOrders(s, fd, order);
    UnmapsAreLegal(Up(s, p), s.host.live, order, nested);
    WaitingIsReleased(Up(s, p), fd, Owner(p, fd), s.host.live, order);
  }

  /**
   Of the streams on the descriptor only the latest fclosed one is freed, while POSIX frees every one the client no
   longer holds: an earlier fclose of another stream on the same mapped descriptor leaks that stream.
   */
  lemma {:induction false} OnlyLatestStreamIsFreed(s: Sys, p: Posix, fd: int, order: seq<Addr>, st: Stream, nested: bool)
    requires Inv(s, p) && Pending(s, p, fd) && Lists(order, s.host, fd)
    requires st in s.host.streams && s.host.streams[st] == fd
    ensures var u := Exec(Up(s, p), Unmaps(s.host.live, order), nested);
            && u.Up? && u.posix.held == p.held
            && (st !in u.sys.host.streams <==> fd in p.lastFclose && p.lastFclose[fd] == st)
  {
    ListsAreLive(s.host, fd, order);
    UnmapsAreLegal(Up(s, p), s.host.live, order, nested);
    AnyOrderClosesOnce(s, p, fd, order, nested);
  }

  lemma {:induction false} WaitingStaysOpen(w: World, fd: int, st: Option<Stream>, live: map<Addr, Mapping>,
                                            order: seq<Addr>, n: nat)
    requires w.Up? && Waiting(w.sys, fd, st) && Mapped(w.sys.maps, fd) && Orders(order, w.sys.maps, fd) && n < |order|
    requires StillLive(live, w.sys.host, order)
    ensures var u := Exec(w, Unmaps(live, order[..n]), false);
            u.Up? && u.sys.host.open == w.sys.host.open && u.sys.host.closed == w.sys.host.closed
    decreases n
  {
    if n == 0 {
      assert Exec(w, [], false) == w;
    } else {
      var k, v := UnmapFirst(w, fd, st, live, order);
      WaitingStaysOpen(v, fd, st, live, order[1..], n - 1);
      assert order[..n][0] == order[0] && order[..n][1..] == order[1..][..n - 1];
      UnmapsStep(w, live, order[..n]);
    }
  }

  /** Before the last of those munmaps the descriptor is still open and nothing has been closed. */
  lemma {:induction false} NoEarlyClose(s: Sys, p: Posix, fd: int, order: seq<Addr>, n: nat, nested: bool)
    requires Inv(s, p) && Pending(s, p, fd) && Lists(order, s.host, fd) && n < |order|
    ensures var u := Exec(Up(s, p), Unmaps(s.host.live, order[..n]), nested);
            u.Up? && u.sys.host.open == s.host.open && u.sys.host.closed == s.host.closed && fd in s.host.open
  {
    PendingWaits(s, p, fd);
    ListsIsOrders(s, fd, order);
    UnmapsAreLegal(Up(s, p), s.host.live, order[..n], nested);
    WaitingStaysOpen(Up(s, p), fd, Owner(p, fd), s.host.live, order, n);
  }

  lemma {:induction false} CountDistinct<T>(s: seq<T>, x: T)
    requires Distinct(s)
    ensures multiset(s)[x] == if x in s then 1 else 0
  {
    if s == [] {
    } else {
      assert s == [s[0]] + s[1..];
      CountDistinct(s[1..], x);
    }
  }

  lemma SameElements<T>(s: seq<T>, t: seq<T>)
    requires Distinct(s) && Distinct(t) && forall x :: x in s <==> x in t
    ensures multiset(s) == multiset(t)
  {
    forall x
      ensures multiset(s)[x] == multiset(t)[x]
    {
      CountDistinct(s, x);
      CountDistinct(t, x);
    }
  }

  lemma SameWriteBacks(one: seq<Addr>, two: seq<Addr>, file: File)
    requires Distinct(one) && Distinct(two) && forall a :: a in one <==> a in two
    ensures multiset(WrittenBack(one, file)) == multiset(WrittenBack(two, file))
  {
    var w1, w2 := WrittenBack(one, file), WrittenBack(two, file);
    forall x
      ensures x in w1 <==> x in w2
    {
      assert x in w1 <==> x.1 == file && x.0 in one by { InWrittenBack(one, file, x); }
      assert x in w2 <==> x.1 == file && x.0 in two by { InWrittenBack(two, file, x); }
    }
    SameElements(w1, w2);
  }

  lemma InWrittenBack(order: seq<Addr>, file: File, x: (Addr, File))
    ensures x in WrittenBack(order, file) <==> x.1 == file && x.0 in order
  {
    if x.1 == file && x.0 in order {
      var i :| 0 <= i < |order| && order[i] == x.0;
      assert WrittenBack(order, file)[i] == x;
    }
  }

  lemma SameRelease(s: Sys, fd: int, st: Option<Stream>, one: seq<Addr>, two: seq<Addr>, r: World, t: World)
    requires Released(s, fd, st, one, r) && Released(s, fd, st, two, t)
    requires Distinct(one) && Distinct(two) && forall a :: a in one <==> a in two
    ensures r.sys == t.sys.(host := t.sys.host.(writeBacks := r.sys.host.writeBacks))
    ensures multiset(r.sys.host.writeBacks) == multiset(t.sys.host.writeBacks)
  {
    assert (set a | a in one) == (set a | a in two);
    SameWriteBacks(one, two, s.host.open[fd]);
  }

  /** Two orders end in the same list and the same host, but for the order in which the same write-backs were made. */
  lemma {:induction false} OrderDoesNotMatter(s: Sys, p: Posix, fd: int, one: seq<Addr>, two: seq<Addr>, nested: bool)
    requires Inv(s, p) && Pending(s, p, fd) && Lists(one, s.host, fd) && Lists(two, s.host, fd)
    ensures var r := Exec(Up(s, p), Unmaps(s.host.live, one), nested);
            var t := Exec(Up(s, p), Unmaps(s.host.live, two), nested);
            && r.Up? && t.Up?
            && r.sys == t.sys.(host := t.sys.host.(writeBacks := r.sys.host.writeBacks))
            && multiset(r.sys.host.writeBacks) == multiset(t.sys.host.writeBacks)
  {
    AnyOrderClosesOnce(s, p, fd, one, nested);
    AnyOrderClosesOnce(s, p, fd, two, nested);
    SameRelease(s, fd, Owner(p, fd), one, two, Exec(Up(s, p), Unmaps(s.host.live, one), nested),
                Exec(Up(s, p), Unmaps(s.host.live, two), nested));
  }

  /** Whatever the hook does after the unlinking, it leaves the rest of the list alone. */
  lemma HookKeepsList(s: Sys, e: Entry, len: nat)
    requires PostMunmapHook(s, e, len, false).Done?
    ensures PostMunmapHook(s, e, len, false).sys.maps == s.maps
  {
  }

  lemma UntrackedIsQuiet(s: Sys, addr: Addr)
    requires TableInv(s.maps, s.host.live) && !Tracked(s.maps, addr)
    ensures Unmap(s.host, addr) == s.host.(live := s.host.live - {addr})
  {
    if addr !in s.host.live { assert s.host.live - {addr} == s.host.live; }
  }

  /**
   munmap of a tracked address drops exactly its entry: the others stay, unchanged and in order. At an
   untracked address the list and every descriptor and stream stay as they are.
   */
  lemma {:induction false} MunmapTakesOneEntry(s: Sys, p: Posix, addr: Addr, len: nat)
    requires Inv(s, p) && Legal(s, p, Munmap(addr, len, true))
    ensures var r := MunmapStub(s, addr, len, true, false); var k := FindPtr(s.maps, addr, 0);
            && r.Done?
            && (Tracked(s.maps, addr) ==> k < |s.maps| && r.sys.maps == Without(s.maps, k)
                                          && !Tracked(r.sys.maps, addr))
            && (!Tracked(s.maps, addr) ==> r.sys == s.(host := s.host.(live := s.host.live - {addr})))
  {
    NeverAborts(s, p, Munmap(addr, len, true));
    var k := FindPtr(s.maps, addr, 0);
    if k < |s.maps| {
      OneEntryLess(s, addr, len, k);
    } else {
      UntrackedIsQuiet(s, addr);
    }
  }

  lemma OneEntryLess(s: Sys, addr: Addr, len: nat, k: nat)
    requires forall i, j :: 0 <= i < j < |s.maps| ==> s.maps[i].ptr != s.maps[j].ptr
    requires k == FindPtr(s.maps, addr, 0) < |s.maps| && MunmapStub(s, addr, len, true, false).Done?
    ensures var maps := MunmapStub(s, addr, len, true, false).sys.maps; maps == Without(s.maps, k) && !Tracked(maps, addr)
  {
    WithoutKeys(s.maps, k);
    if s.maps[k].wantClose { HookKeepsList(Unlinked(s, k), s.maps[k], len); }
  }

  // ----- Mapping a descriptor after closing it

  lemma RemapAborts(s: Sys, fd: int, b: Addr, len: nat, junk: Stream, k: nat)
    requires 0 <= fd && k < |s.maps| && s.maps[k].fd == fd && s.maps[k].wantClose && s.maps[k].ptr != b
    requires forall i, j :: 0 <= i < j < |s.maps| ==> s.maps[i].ptr != s.maps[j].ptr
    ensures var s1 := MmapStub(s, Some(b), len, true, true, fd, junk).sys;
            |s1.maps| == |s.maps| + 1 && s1.maps[k + 1] == s.maps[k]
            && MunmapStub(s1, s.maps[k].ptr, s.maps[k].len, true, false) == Aborted
  {
    var e, s1 := s.maps[k], MmapStub(s, Some(b), len, true, true, fd, junk).sys;
    assert forall i :: 0 <= i < |s.maps| ==> s1.maps[i + 1] == s.maps[i];
    assert forall i :: 0 < i < |s1.maps| ==> s1.maps[i] == s.maps[i - 1];
    assert FindPtr(s1.maps, e.ptr, 0) == k + 1;
    assert Without(s1.maps, k + 1)[0] == s1.maps[0];
    assert FindFd(Without(s1.maps, k + 1), fd, 0) == 0;
  }

  lemma {:induction false} RemapIsSafeWhileOpen(s: Sys, p: Posix, ev: Event, evs: seq<Event>, nested: bool)
    requires Inv(s, p) && ev.Mmap? && Legal(s, p, ev)
    requires LegalRun(Advance(Up(s, p), ev, false), evs, nested)
    ensures Exec(Advance(Up(s, p), ev, false), evs, nested).Up?
  {
    StepKeeps(s, p, ev);
    GoodRun(Advance(Up(s, p), ev, false), evs, nested);
  }

  /**
   Mapping a really open descriptor once more is safe (no run of legal steps after it ever fails an assertion of
   the shim) exactly when the client has not closed it before. The host cannot refuse the late mmap: the number
   is still open.
   */
  lemma {:induction false} RemapIsSafeIffStillOpen(s: Sys, p: Posix, fd: int, b: Addr, len: nat, junk: Stream)
    requires Inv(s, p) && fd in s.host.open && b !in s.host.live
    ensures var w := Advance(Up(s, p), Mmap(Some(b), len, true, true, fd, junk), false);
            (forall evs :: LegalRun(w, evs, false) ==> Exec(w, evs, false).Up?) <==> fd in p.fds
  {
    var ev := Mmap(Some(b), len, true, true, fd, junk);
    var w := Advance(Up(s, p), ev, false);
    if fd in p.fds {
      forall evs | LegalRun(w, evs, false)
        ensures Exec(w, evs, false).Up?
      {
        RemapIsSafeWhileOpen(s, p, ev, evs, false);
      }
    } else {
      MappedIffLive(s, fd);
      PendingWaits(s, p, fd);
      var evs := RemapFails(s, p, fd, Owner(p, fd), b, len, junk);
    }
  }

  /** A run of one legal munmap that brings the shim down. */
  lemma RemapFails(s: Sys, p: Posix, fd: int, st: Option<Stream>, b: Addr, len: nat, junk: Stream)
    returns (evs: seq<Event>)
    requires Waiting(s, fd, st) && Mapped(s.maps, fd) && b !in s.host.live
    ensures var w := Advance(Up(s, p), Mmap(Some(b), len, true, true, fd, junk), false);
            LegalRun(w, evs, false) && Exec(w, evs, false).Down?
  {
    var k :| 0 <= k < |s.maps| && s.maps[k].fd == fd;
    assert Ripe(s.maps[k], s.host.live, st);
    RemapAborts(s, fd, b, len, junk, k);
    evs := [Munmap(s.maps[k].ptr, s.maps[k].len, true)];
    UnmapDown(Advance(Up(s, p), Mmap(Some(b), len, true, true, fd, junk), false), s.maps[k].ptr, s.maps[k].len);
  }

  lemma UnmapDown(w: World, addr: Addr, len: nat)
    requires w.Up? && MunmapStub(w.sys, addr, len, true, false) == Aborted
    requires addr in w.sys.host.live && w.sys.host.live[addr].len == len
    ensures var evs := [Munmap(addr, len, true)]; LegalRun(w, evs, false) && Exec(w, evs, false).Down?
  {
    var evs := [Munmap(addr, len, true)];
    assert evs[1..] == [] && Advance(w, evs[0], false) == Down;
    assert Exec(Down, [], false) == Down;
  }

  /** The client's steps up to there: open, mmap, close. */
  lemma {:induction false} MapAndClose(w: World, fd: int, file: File, a: Addr, len: nat, junk: Stream) returns (u: World)
    requires Start(w) && 0 <= fd && fd !in w.sys.host.open && a !in w.sys.host.live
    ensures var evs := [Open(fd, file), Mmap(Some(a), len, true, true, fd, junk), Close(fd)];
            LegalRun(w, evs, false) && Exec(w, evs, false) == u
    ensures u.Up? && u.sys.maps == [Entry(a, len, fd, junk, false, true)]
    ensures u.sys.host.live.Keys == w.sys.host.live.Keys + {a}
    ensures u.sys.host.live[a] == Mapping(len, fd, true) && fd in u.sys.host.open && fd !in u.posix.fds
  {
    var open, mmap, close := Open(fd, file), Mmap(Some(a), len, true, true, fd, junk), Close(fd);
    var w1 := Advance(w, open, false);
    var w2 := Advance(w1, mmap, false);
    assert w2.sys.maps == [Entry(a, len, fd, junk, false, false)];
    assert w2.sys.maps[0].fd == fd;
    u := Advance(w2, close, false);
    assert [close][1..] == [] && [mmap, close][1..] == [close] && [open, mmap, close][1..] == [mmap, close];
    assert LegalRun(u, [], false) && Exec(u, [], false) == u;
    assert LegalRun(w2, [close], false) && Exec(w2, [close], false) == u;
    assert LegalRun(w1, [mmap, close], false) && Exec(w1, [mmap, close], false) == u;
  }

  /** Such a run: open, mmap, close, mmap again, and the munmap of the first mapping fails the assertion. */
  lemma {:induction false} LateMmapAborts(w: World, fd: int, file: File, a: Addr, b: Addr, len: nat, junk: Stream)
    requires Start(w) && 0 <= fd && fd !in w.sys.host.open && a != b
    requires a !in w.sys.host.live && b !in w.sys.host.live
    ensures var setup := [Open(fd, file), Mmap(Some(a), len, true, true, fd, junk), Close(fd)];
            && LegalRun(w, setup, false)
            && Exec(w, setup + [Mmap(Some(b), len, true, true, fd, junk), Munmap(a, len, true)], false) == Down
  {
    var again, unmap := Mmap(Some(b), len, true, true, fd, junk), Munmap(a, len, true);
    var u := MapAndClose(w, fd, file, a, len, junk);
    RemapAborts(u.sys, fd, b, len, junk, 0);
    assert [again, unmap][1..] == [unmap] && [unmap][1..] == [];
    assert Advance(Advance(u, again, false), unmap, false) == Down && Exec(Down, [], false) == Down;
    assert Exec(Advance(u, again, false), [unmap], false) == Down;
    ExecAppend(w, [Open(fd, file), Mmap(Some(a), len, true, true, fd, junk), Close(fd)], [again, unmap]);
  }

  /** Such a run: open, mmap, close, and the second close answers 0 where POSIX wants an error. */
  lemma {:induction false} SecondCloseSucceeds(w: World, fd: int, file: File, a: Addr, len: nat, junk: Stream)
    requires Start(w) && 0 <= fd && fd !in w.sys.host.open && a !in w.sys.host.live
    ensures var evs := [Open(fd, file), Mmap(Some(a), len, true, true, fd, junk), Close(fd)];
            var u := Exec(w, evs, false);
            && LegalRun(w, evs, false) && u.Up?
            && Step(u.sys, Close(fd), false) == Done(u.sys, 0)
            && PosixStep(u.posix, Close(fd)).1 == -1
  {
    var u := MapAndClose(w, fd, file, a, len, junk);
    assert u.sys.maps[0].fd == fd;
    assert Mark(u.sys.maps, fd, None) == u.sys.maps;
  }

  lemma OneStep(w: World, ev: Event, evs: seq<Event>)
    requires w.Up? && Legal(w.sys, w.posix, ev) && LegalRun(Advance(w, ev, false), evs, false)
    ensures forall all :: all == [ev] + evs ==>
              LegalRun(w, all, false) && Exec(w, all, false) == Exec(Advance(w, ev, false), evs, false)
  {
    assert ([ev] + evs)[1..] == evs;
  }

  lemma TwoFcloses(w: World, fd: int, a: Stream, b: Stream, e: Entry) returns (u: World)
    requires w.Up? && w.sys.maps == [e] && e.fd == fd && 0 <= fd
    requires a in w.sys.host.streams && w.sys.host.streams[a] == fd
    requires b in w.sys.host.streams && w.sys.host.streams[b] == fd
    ensures u.Up? && LegalRun(w, [Fclose(Some(a)), Fclose(Some(b))], false) && u.posix.maps == w.posix.maps
    ensures u == Exec(w, [Fclose(Some(a)), Fclose(Some(b))], false)
    ensures u.sys == w.sys.(maps := [e.(wantClose := true, fp := b, haveFp := true)])
    ensures a in w.posix.filenos && b in w.posix.filenos ==> u.posix.held == w.posix.held - {a, b}
  {
    var v := Advance(w, Fclose(Some(a)), false);
    assert w.sys.maps[0].fd == fd;
    assert v.sys.maps == [e.(wantClose := true, fp := a, haveFp := true)];
    assert v.sys.maps[0].fd == fd;
    u := Advance(v, Fclose(Some(b)), false);
    assert Exec(u, [], false) == u;
    OneStep(v, Fclose(Some(b)), []);
    OneStep(w, Fclose(Some(a)), [Fclose(Some(b))]);
  }

  /**
   Such a run: two streams on one mapped descriptor are fclosed, the mapping goes, and the first stream is still
   there, although the client holds it no more and nothing is mapped or open for it.
   */
  lemma {:induction false} EarlierStreamLeaks(w: World, fd: int, file: File, a: Stream, b: Stream, m: Addr, len: nat,
                                              junk: Stream)
    requires Start(w) && 0 <= fd && fd !in w.sys.host.open && m !in w.sys.host.live
    requires a != b && a !in w.sys.host.streams && b !in w.sys.host.streams
    ensures var evs := [Open(fd, file), Attach(a, fd), Attach(b, fd), Mmap(Some(m), len, true, true, fd, junk),
                        Fclose(Some(a)), Fclose(Some(b)), Munmap(m, len, true)];
            var u := Exec(w, evs, false);
            && LegalRun(w, evs, false) && u.Up?
            && u.sys.maps == [] && u.posix.maps == map[] && fd !in u.sys.host.open
            && a !in u.posix.held && a in u.sys.host.streams && b !in u.sys.host.streams
  {
    var setup := [Open(fd, file), Attach(a, fd), Attach(b, fd), Mmap(Some(m), len, true, true, fd, junk)];
    var closes, unmap := [Fclose(Some(a)), Fclose(Some(b))], Munmap(m, len, true);
    var v := MapWithStreams(w, fd, file, a, b, m, len, junk);
    var u := TwoFcloses(v, fd, a, b, v.sys.maps[0]);
    LastMunmap(u, fd, b, u.sys.maps[0]);
    ExecAppend(v, closes, [unmap]);
    ExecAppend(w, setup, closes + [unmap]);
    assert setup + (closes + [unmap])
        == [setup[0], setup[1], setup[2], setup[3], closes[0], closes[1], unmap];
  }

  lemma {:induction false} MapWithStreams(w: World, fd: int, file: File, a: Stream, b: Stream, m: Addr, len: nat,
                                          junk: Stream) returns (v: World)
    requires Start(w) && 0 <= fd && fd !in w.sys.host.open && m !in w.sys.host.live
    requires a != b && a !in w.sys.host.streams && b !in w.sys.host.streams
    ensures var evs := [Open(fd, file), Attach(a, fd), Attach(b, fd), Mmap(Some(m), len, true, true, fd, junk)];
            LegalRun(w, evs, false) && v == Exec(w, evs, false)
    ensures v.Up? && v.sys.maps == [Entry(m, len, fd, junk, false, false)] && v.posix.maps.Keys == {m}
    ensures v.sys.host.live == w.sys.host.live[m := Mapping(len, fd, true)] && v.sys.host.open == w.sys.host.open[fd := file]
    ensures v.sys.host.streams == w.sys.host.streams[a := fd][b := fd]
    ensures a in v.posix.filenos && b in v.posix.filenos
  {
    var mmap := Mmap(Some(m), len, true, true, fd, junk);
    var w1 := Advance(w, Open(fd, file), false);
    var w2 := Advance(w1, Attach(a, fd), false);
    var w3 := Advance(w2, Attach(b, fd), false);
    v := Advance(w3, mmap, false);
    assert v.sys.maps == [Entry(m, len, fd, junk, false, false)];
    assert Exec(v, [], false) == v;
    OneStep(w3, mmap, []);
    OneStep(w2, Attach(b, fd), [mmap]);
    OneStep(w1, Attach(a, fd), [Attach(b, fd), mmap]);
    OneStep(w, Open(fd, file), [Attach(a, fd), Attach(b, fd), mmap]);
  }

  lemma LastMunmap(u: World, fd: int, b: Stream, e: Entry)
    requires u.Up? && u.sys.maps == [e] && e.fd == fd && 0 <= fd && e.wantClose && e.haveFp && e.fp == b
    requires b in u.sys.host.streams && u.sys.host.streams[b] == fd && fd in u.sys.host.open
    requires e.ptr in u.sys.host.live && u.sys.host.live[e.ptr].len == e.len
    ensures LegalRun(u, [Munmap(e.ptr, e.len, true)], false)
    ensures var v := Exec(u, [Munmap(e.ptr, e.len, true)], false);
            && v.Up? && v.sys.maps == [] && fd !in v.sys.host.open
            && v.sys.host.streams == u.sys.host.streams - {b}
            && v.posix.held == u.posix.held && v.posix.maps == u.posix.maps - {e.ptr}
  {
    var ev := Munmap(e.ptr, e.len, true);
    var v := Advance(u, ev, false);
    assert u.sys.maps[0] == e && Without(u.sys.maps, 0) == [];
    assert FindPtr(u.sys.maps, e.ptr, 0) == 0 && FindFd([], fd, 0) == 0;
    assert PostMunmapHook(Unlinked(u.sys, 0), e, e.len, false).Done?;
    assert u.posix.maps - {e.ptr} == PosixStep(u.posix, ev).0.maps;
    assert Exec(v, [], false) == v;
    OneStep(u, ev, []);
  }

  lemma {:induction false} ExecAppend(w: World, evs: seq<Event>, more: seq<Event>)
    ensures Exec(w, evs + more, false) == Exec(Exec(w, evs, false), more, false)
    ensures LegalRun(w, evs, false) && LegalRun(Exec(w, evs, false), more, false) ==> LegalRun(w, evs + more, false)
    decreases |evs|
  {
    if evs == [] {
      assert evs + more == more;
    } else {
      assert (evs + more)[0] == evs[0] && (evs + more)[1..] == evs[1..] + more;
      ExecAppend(Advance(w, evs[0], false), evs[1..], more);
    }
  }
}
