/** Whole runs of opens, handle-to-descriptor conversions and closes over the cache. */
module FdCacheRuns {
  import opened Common
  import opened OpenFlags
  import opened FdWorld

  datatype State = State(c: Cache, w: World)

  /**
   WrapOpen is a successful wrapped open, directories included. RustOpen opens a handle without a descriptor.
   Convert is as_raw_fd or into_raw_fd: None when the CRT cannot allocate a descriptor. Close closes the handle
   behind the descriptor as well; Drop closes a handle behind the CRT's back. Readlink opens a link by a route that
   neither looks up nor records, closes the handle and keeps the descriptor.
   */
  datatype Event =
    | WrapOpen(fd: nat, h: Handle, oflag: bv32, access: Option<bv32>)
    | RustOpen(rh: Handle, how: How)
    | Convert(ch: Handle, nfd: Option<nat>)
    | Close(cfd: nat)
    | Drop(dh: Handle)
    | Readlink(lfd: nat, lh: Handle)

  predicate Held(crt: map<nat, Handle>, h: Handle) {
    exists fd :: fd in crt && crt[fd] == h
  }

  predicate FreeFd(s: State, fd: nat) {
    fd !in s.w.crt && fd < |s.c.slots|
  }

  /** All that the kernel promises about a handle value it issues: it is not in use. */
  predicate NotLive(w: World, h: Handle) {
    h != INVALID_HANDLE && h !in w.kernel
  }

  /** What the system does and what its interfaces allow. */
  predicate Possible(s: State, ev: Event) {
    match ev
    case WrapOpen(fd, h, _, _) => FreeFd(s, fd) && NotLive(s.w, h)
    case RustOpen(h, _) => NotLive(s.w, h)
    case Convert(h, fd) => h in s.w.kernel && (fd.Some? ==> FreeFd(s, fd.value))
    case Close(fd) => fd in s.w.crt
    case Drop(_) => true
    case Readlink(fd, h) => FreeFd(s, fd) && NotLive(s.w, h)
  }

  /** No cached descriptor below `bound` still holds `h`. */
  predicate Uncached(s: State, h: Handle, bound: nat) {
    forall fd :: 0 <= fd < bound && fd < |s.c.slots| ==> !Hit(s.c, s.w.crt, h, fd)
  }

  /**
   The one hypothesis of the lookup theorem, about handle values that are issued again while descriptors still
   hold them: no cached descriptor does, or, for a wrapped open, none below the one it returns.
   */
  predicate Legal(s: State, ev: Event) {
    && Possible(s, ev)
    && (ev.WrapOpen? ==> Uncached(s, ev.h, ev.fd))
    && (ev.RustOpen? ==> Uncached(s, ev.rh, |s.c.slots|))
  }

  function Step(s: State, ev: Event): State
    requires Possible(s, ev)
  {
    match ev
    case WrapOpen(fd, h, oflag, access) =>
      var obj := Object(oflag & O_APPEND, access);
      State(WithFlag(s.c, fd, oflag),
            World(s.w.kernel[h := obj], s.w.crt[fd := h], s.w.flags[fd := oflag | O_BINARY]))
    case RustOpen(h, how) =>
      s.(w := s.w.(kernel := s.w.kernel[h := Made(how)]))
    case Convert(h, fd) =>
      var flags := Naive(s.c, s.w, h) | O_BINARY;
      var c := Swept(s.c, s.w.crt, h);
      if fd.None? then State(c, s.w)
      else State(c, s.w.(crt := s.w.crt[fd.value := h], flags := s.w.flags[fd.value := flags]))
    case Close(fd) =>
      s.(w := World(s.w.kernel - {s.w.crt[fd]}, s.w.crt - {fd}, s.w.flags - {fd}))
    case Drop(h) =>
      s.(w := s.w.(kernel := s.w.kernel - {h}))
    case Readlink(fd, h) =>
      s.(w := s.w.(crt := s.w.crt[fd := h], flags := s.w.flags[fd := 0]))
  }

  /** The lookup is right for the live handle `h`. */
  predicate Right(s: State, h: Handle)
    requires h in s.w.kernel
  {
    h != INVALID_HANDLE && Naive(s.c, s.w, h) == s.w.kernel[h].append
  }

  ghost predicate Inv(s: State) {
    && Bounded(s.c)
    && (forall h :: h in s.w.kernel ==> Right(s, h))
    && (forall h :: h in s.w.kernel ==> s.w.kernel[h].append in {0, O_APPEND})
    && (forall fd :: fd in s.w.crt ==> s.w.crt[fd] != INVALID_HANDLE)
  }

  /** Lookups with the same hits and the same flags at them give the same answer. */
  lemma SameHits(s: State, t: State, h: Handle)
    requires |s.c.slots| == |t.c.slots|
    requires forall fd :: 0 <= fd < |s.c.slots| ==> (Hit(s.c, s.w.crt, h, fd) <==> Hit(t.c, t.w.crt, h, fd))
    requires forall fd :: 0 <= fd < |s.c.slots| && Hit(s.c, s.w.crt, h, fd) ==> s.c.slots[fd] == t.c.slots[fd]
    requires Fallback(s.w.kernel, h) == Fallback(t.w.kernel, h)
    ensures Naive(s.c, s.w, h) == Naive(t.c, t.w, h)
  {
    var k, m := Lowest(s.c, s.w.crt, h, 0), Lowest(t.c, t.w.crt, h, 0);
    assert k < |s.c.slots| ==> Hit(t.c, t.w.crt, h, k);
    assert m < |s.c.slots| ==> Hit(s.c, s.w.crt, h, m);
  }

  lemma WrapOpenKeeps(s: State, ev: Event)
    requires ev.WrapOpen? && Inv(s) && Legal(s, ev)
    ensures Inv(Step(s, ev))
  {
    var t := Step(s, ev);
    forall h | h in t.w.kernel
      ensures Right(t, h)
    {
      if h == ev.h {
        assert Hit(t.c, t.w.crt, h, ev.fd);
        assert forall fd :: 0 <= fd < ev.fd ==> Hit(t.c, t.w.crt, h, fd) == Hit(s.c, s.w.crt, h, fd);
      } else {
        assert Right(s, h);
        SameHits(s, t, h);
      }
    }
    assert ev.oflag & O_APPEND in {0, O_APPEND};
  }

  lemma RustOpenKeeps(s: State, ev: Event)
    requires ev.RustOpen? && Inv(s) && Legal(s, ev)
    ensures Inv(Step(s, ev))
  {
    var t := Step(s, ev);
    forall h | h in t.w.kernel
      ensures Right(t, h)
    {
      if h == ev.rh {
        FallbackIsRight(t.w.kernel, h, ev.how);
        assert forall fd :: 0 <= fd < |s.c.slots| ==> Hit(t.c, t.w.crt, h, fd) == Hit(s.c, s.w.crt, h, fd);
      } else {
        assert Right(s, h);
        SameHits(s, t, h);
      }
    }
  }

  /** The lookup itself changes no answer: what it empties is dead. */
  lemma SweepKeeps(s: State, h: Handle)
    requires Inv(s)
    ensures Inv(State(Swept(s.c, s.w.crt, h), s.w))
  {
    var t := State(Swept(s.c, s.w.crt, h), s.w);
    forall g | g in s.w.kernel
      ensures Right(t, g)
    {
      assert Right(s, g);
      SameHits(s, t, g);
    }
  }

  /**
   A flag left over from the previous life of a descriptor is harmless: when `fd` is free while `h` is looked
   up, its slot is emptied by the lookup, or a lower live descriptor of the same handle answers for it.
   */
  lemma StaleIsMasked(c: Cache, crt: map<nat, Handle>, h: Handle, fd: nat)
    requires Bounded(c) && h != INVALID_HANDLE && fd !in crt && fd < |c.slots|
    ensures Swept(c, crt, h).slots[fd].Some? ==> exists k :: 0 <= k < fd && Hit(Swept(c, crt, h), crt, h, k)
  {
    var k := Lowest(c, crt, h, 0);
    if k < |c.slots| {
      assert Hit(Swept(c, crt, h), crt, h, k);
    }
  }

  lemma ConvertKeeps(s: State, ev: Event)
    requires ev.Convert? && Inv(s) && Legal(s, ev)
    ensures Inv(Step(s, ev))
  {
    SweepKeeps(s, ev.ch);
    assert Right(s, ev.ch);
    if ev.nfd.Some? {
      var m, t := State(Swept(s.c, s.w.crt, ev.ch), s.w), Step(s, ev);
      var fd := ev.nfd.value;
      StaleIsMasked(s.c, s.w.crt, ev.ch, fd);
      forall g | g in t.w.kernel
        ensures Right(t, g)
      {
        assert Right(m, g);
        assert forall j :: j != fd ==> (Hit(m.c, m.w.crt, g, j) <==> Hit(t.c, t.w.crt, g, j));
        SameLowest(m, t, g, fd);
      }
    }
  }

  /** Adding a descriptor that is empty or masked changes no answer. */
  lemma SameLowest(s: State, t: State, h: Handle, fd: nat)
    requires s.c == t.c && s.w.kernel == t.w.kernel && fd < |s.c.slots| && fd !in s.w.crt
    requires forall j :: j != fd ==> (Hit(s.c, s.w.crt, h, j) <==> Hit(t.c, t.w.crt, h, j))
    requires Hit(t.c, t.w.crt, h, fd) ==> exists k :: 0 <= k < fd && Hit(s.c, s.w.crt, h, k)
    ensures Naive(s.c, s.w, h) == Naive(t.c, t.w, h)
  {
    var k, m := Lowest(s.c, s.w.crt, h, 0), Lowest(t.c, t.w.crt, h, 0);
    assert k < |s.c.slots| ==> k != fd && Hit(t.c, t.w.crt, h, k);
    assert m < |s.c.slots| && m != fd ==> Hit(s.c, s.w.crt, h, m);
  }

  lemma CloseKeeps(s: State, ev: Event)
    requires (ev.Close? || ev.Drop? || ev.Readlink?) && Inv(s) && Legal(s, ev)
    ensures Inv(Step(s, ev))
  {
    var t := Step(s, ev);
    forall h | h in t.w.kernel
      ensures Right(t, h)
    {
      assert Right(s, h);
      SameHits(s, t, h);
    }
  }

  // ----- The lookup, on every run

  lemma StepKeeps(s: State, ev: Event)
    requires Inv(s) && Legal(s, ev)
    ensures Inv(Step(s, ev))
  {
    match ev
    case WrapOpen(_, _, _, _) => WrapOpenKeeps(s, ev);
    case RustOpen(_, _) => RustOpenKeeps(s, ev);
    case Convert(_, _) => ConvertKeeps(s, ev);
    case Close(_) => CloseKeeps(s, ev);
    case Drop(_) => CloseKeeps(s, ev);
    case Readlink(_, _) => CloseKeeps(s, ev);
  }

  predicate PossibleRun(s: State, evs: seq<Event>)
    decreases |evs|
  {
    evs == [] || (Possible(s, evs[0]) && PossibleRun(Step(s, evs[0]), evs[1..]))
  }

  predicate LegalRun(s: State, evs: seq<Event>)
    ensures LegalRun(s, evs) ==> PossibleRun(s, evs)
    decreases |evs|
  {
    evs == [] || (Legal(s, evs[0]) && LegalRun(Step(s, evs[0]), evs[1..]))
  }

  function Exec(s: State, evs: seq<Event>): State
    requires PossibleRun(s, evs)
    decreases |evs|
  {
    if evs == [] then s else Exec(Step(s, evs[0]), evs[1..])
  }

  /** Program start: nothing cached, and the inherited handles are like ones opened without the wrapper. */
  ghost predicate Start(s: State) {
    && s.c == Empty(|s.c.slots|)
    && (forall h :: h in s.w.kernel ==>
          h != INVALID_HANDLE && (exists how :: s.w.kernel[h] == Made(how)))
    && (forall fd :: fd in s.w.crt ==> s.w.crt[fd] != INVALID_HANDLE)
  }

  lemma StartIsGood(s: State)
    requires Start(s)
    ensures Inv(s)
  {
    forall h | h in s.w.kernel
      ensures Right(s, h) && s.w.kernel[h].append in {0, O_APPEND}
    {
      var how :| s.w.kernel[h] == Made(how);
      FallbackIsRight(s.w.kernel, h, how);
    }
  }

  lemma {:induction false} RunKeeps(s: State, evs: seq<Event>)
    requires Inv(s) && LegalRun(s, evs)
    ensures Inv(Exec(s, evs))
    decreases |evs|
  {
    if evs == [] {
    } else {
      StepKeeps(s, evs[0]);
      RunKeeps(Step(s, evs[0]), evs[1..]);
    }
  }

  /** Every run: a lookup of a live handle, at any moment, answers the append flag the handle was opened with. */
  lemma {:induction false} EveryLookupIsRight(s: State, evs: seq<Event>)
    requires Start(s) && LegalRun(s, evs)
    ensures var t := Exec(s, evs); forall h :: h in t.w.kernel ==> Naive(t.c, t.w, h) == t.w.kernel[h].append
  {
    StartIsGood(s);
    RunKeeps(s, evs);
    var t := Exec(s, evs);
    assert forall h :: h in t.w.kernel ==> Right(t, h);
  }

  // ----- The append mode of the descriptors, on every run

  /** A descriptor of a live handle appends exactly when the handle does. */
  predicate RightMode(w: World, fd: nat)
    requires fd in w.crt
  {
    fd in w.flags && (w.crt[fd] in w.kernel ==> w.flags[fd] & O_APPEND == w.kernel[w.crt[fd]].append)
  }

  ghost predicate RightModes(w: World) {
    forall fd :: fd in w.crt ==> RightMode(w, fd)
  }

  /** No descriptor, cached or not, holds a handle value that is issued. */
  predicate Careful(s: State, ev: Event) {
    && Possible(s, ev)
    && (ev.WrapOpen? ==> !Held(s.w.crt, ev.h))
    && (ev.RustOpen? ==> !Held(s.w.crt, ev.rh))
  }

  predicate CarefulRun(s: State, evs: seq<Event>)
    ensures CarefulRun(s, evs) ==> LegalRun(s, evs)
    decreases |evs|
  {
    evs == [] || (Careful(s, evs[0]) && CarefulRun(Step(s, evs[0]), evs[1..]))
  }

  lemma FlagBits(flags: bv32)
    ensures (flags | O_BINARY) & O_APPEND == flags & O_APPEND
    ensures flags in {0, O_APPEND} ==> flags & O_APPEND == flags
    ensures (flags | O_BINARY) & 0x8000 != 0
  {
  }

  lemma OpenedMode(s: State, ev: Event)
    requires ev.WrapOpen? && Possible(s, ev)
    ensures RightMode(Step(s, ev).w, ev.fd)
  {
    FlagBits(ev.oflag);
  }

  lemma ConvertedMode(s: State, h: Handle, fd: nat)
    requires Inv(s) && Possible(s, Convert(h, Some(fd)))
    ensures RightMode(Step(s, Convert(h, Some(fd))).w, fd)
  {
    assert Right(s, h);
    FlagBits(Naive(s.c, s.w, h));
  }

  /** A descriptor that stays open keeps its mode, and its handle value is not issued again. */
  lemma OtherModes(s: State, ev: Event, fd: nat)
    requires Careful(s, ev) && fd in s.w.crt && RightMode(s.w, fd) && fd in Step(s, ev).w.crt
    ensures RightMode(Step(s, ev).w, fd)
  {
    var t := Step(s, ev);
    assert t.w.crt[fd] == s.w.crt[fd] && t.w.flags[fd] == s.w.flags[fd];
    assert t.w.crt[fd] in t.w.kernel ==> s.w.crt[fd] in s.w.kernel && t.w.kernel[t.w.crt[fd]] == s.w.kernel[s.w.crt[fd]];
  }

  lemma ModesKept(s: State, ev: Event)
    requires Inv(s) && RightModes(s.w) && Careful(s, ev)
    ensures RightModes(Step(s, ev).w)
  {
    var t := Step(s, ev);
    forall fd | fd in t.w.crt
      ensures RightMode(t.w, fd)
    {
      if fd in s.w.crt { OtherModes(s, ev, fd); }
      else if ev.WrapOpen? { OpenedMode(s, ev); }
      else if ev.Convert? { ConvertedMode(s, ev.ch, fd); }
    }
  }

  lemma {:induction false} ModesRunKeeps(s: State, evs: seq<Event>)
    requires Inv(s) && RightModes(s.w) && CarefulRun(s, evs)
    ensures RightModes(Exec(s, evs).w)
    decreases |evs|
  {
    if evs == [] {
    } else {
      ModesKept(s, evs[0]);
      StepKeeps(s, evs[0]);
      ModesRunKeeps(Step(s, evs[0]), evs[1..]);
    }
  }

  /** Every run that issues no held handle value: every descriptor of a live handle appends exactly when it does. */
  lemma {:induction false} EveryModeIsRight(s: State, evs: seq<Event>)
    requires Start(s) && RightModes(s.w) && CarefulRun(s, evs)
    ensures var t := Exec(s, evs);
            forall fd :: fd in t.w.crt && t.w.crt[fd] in t.w.kernel ==>
              fd in t.w.flags && t.w.flags[fd] & O_APPEND == t.w.kernel[t.w.crt[fd]].append
  {
    StartIsGood(s);
    ModesRunKeeps(s, evs);
    var t := Exec(s, evs);
    assert forall fd :: fd in t.w.crt ==> RightMode(t.w, fd);
  }

  ghost predicate AllBinary(w: World) {
    forall fd :: fd in w.crt ==> fd in w.flags && w.flags[fd] & 0x8000 != 0
  }

  lemma StaysBinary(s: State, ev: Event)
    requires Possible(s, ev) && !ev.Readlink? && AllBinary(s.w)
    ensures AllBinary(Step(s, ev).w)
  {
    if ev.WrapOpen? { FlagBits(ev.oflag); }
    if ev.Convert? { FlagBits(Naive(s.c, s.w, ev.ch)); }
  }

  /** A descriptor opened by the wrapper or converted from a handle is binary until it is closed; readlink's is not. */
  lemma {:induction false} EveryDescriptorIsBinary(s: State, evs: seq<Event>)
    requires PossibleRun(s, evs) && forall i :: 0 <= i < |evs| ==> !evs[i].Readlink?
    requires AllBinary(s.w)
    ensures AllBinary(Exec(s, evs).w)
    decreases |evs|
  {
    if evs == [] {
    } else {
      StaysBinary(s, evs[0]);
      EveryDescriptorIsBinary(Step(s, evs[0]), evs[1..]);
    }
  }

  // ----- From the open to the lookup

  /** The event closes `h`, through a descriptor or directly. */
  predicate Closes(s: State, ev: Event, h: Handle) {
    (ev.Close? && ev.cfd in s.w.crt && s.w.crt[ev.cfd] == h) || (ev.Drop? && ev.dh == h)
  }

  predicate Spared(s: State, evs: seq<Event>, h: Handle)
    requires PossibleRun(s, evs)
    decreases |evs|
  {
    evs == [] || (!Closes(s, evs[0], h) && Spared(Step(s, evs[0]), evs[1..], h))
  }

  lemma {:induction false} ObjectStays(s: State, evs: seq<Event>, h: Handle)
    requires PossibleRun(s, evs) && h in s.w.kernel && Spared(s, evs, h)
    ensures var t := Exec(s, evs); h in t.w.kernel && t.w.kernel[h] == s.w.kernel[h]
    decreases |evs|
  {
    if evs == [] {
    } else {
      ObjectStays(Step(s, evs[0]), evs[1..], h);
    }
  }

  /**
   From the open of a File to the lookup of its handle, whatever happens in between short of its close: the answer
   is the append flag exactly when the File was opened for appending.
   */
  lemma {:induction false} FromOpenToLookup(s: State, h: Handle, how: How, evs: seq<Event>)
    requires Inv(s) && how.ByOptions? && Legal(s, RustOpen(h, how))
    requires LegalRun(Step(s, RustOpen(h, how)), evs) && Spared(Step(s, RustOpen(h, how)), evs, h)
    ensures var t := Exec(Step(s, RustOpen(h, how)), evs); Naive(t.c, t.w, h) == if how.append then 0x8 else 0
  {
    var u := Step(s, RustOpen(h, how));
    StepKeeps(s, RustOpen(h, how));
    RunKeeps(u, evs);
    ObjectStays(u, evs, h);
    assert Right(Exec(u, evs), h);
  }

  // ----- Runs with a kernel that promises only that issued values are not live

  /**
   The discipline that lookups need: a handle is closed, through a descriptor or directly, only while no other
   cached descriptor holds it, and readlink gets a number whose slot is empty. Uncached descriptors do not matter.
   */
  predicate Tidy(s: State, ev: Event) {
    && Possible(s, ev)
    && (ev.Close? ==> forall fd :: 0 <= fd < |s.c.slots| && fd != ev.cfd ==> !Hit(s.c, s.w.crt, s.w.crt[ev.cfd], fd))
    && (ev.Drop? ==> Uncached(s, ev.dh, |s.c.slots|))
    && (ev.Readlink? ==> s.c.slots[ev.lfd].None?)
  }

  predicate TidyRun(s: State, evs: seq<Event>)
    ensures TidyRun(s, evs) ==> PossibleRun(s, evs)
    decreases |evs|
  {
    evs == [] || (Tidy(s, evs[0]) && TidyRun(Step(s, evs[0]), evs[1..]))
  }

  predicate CachedAreLive(s: State) {
    forall fd :: 0 <= fd < |s.c.slots| && s.c.slots[fd].Some? && fd in s.w.crt ==> s.w.crt[fd] in s.w.kernel
  }

  lemma TidyIsLegal(s: State, ev: Event)
    requires CachedAreLive(s) && Tidy(s, ev)
    ensures Legal(s, ev) && CachedAreLive(Step(s, ev))
  {
    var t := Step(s, ev);
    forall fd | 0 <= fd < |t.c.slots| && t.c.slots[fd].Some? && fd in t.w.crt
      ensures t.w.crt[fd] in t.w.kernel
    {
      if ev.Close? { assert !Hit(s.c, s.w.crt, s.w.crt[ev.cfd], fd); }
      if ev.Drop? { assert !Hit(s.c, s.w.crt, ev.dh, fd); }
    }
  }

  lemma {:induction false} TidyRunIsLegal(s: State, evs: seq<Event>)
    requires CachedAreLive(s) && TidyRun(s, evs)
    ensures LegalRun(s, evs)
    decreases |evs|
  {
    if evs == [] {
    } else {
      TidyIsLegal(s, evs[0]);
      TidyRunIsLegal(Step(s, evs[0]), evs[1..]);
    }
  }

  /** Every tidy run: lookups are right, with no assumption on reused handle values. */
  lemma {:induction false} TidyLookupsAreRight(s: State, evs: seq<Event>)
    requires Start(s) && TidyRun(s, evs)
    ensures var t := Exec(s, evs); forall h :: h in t.w.kernel ==> Naive(t.c, t.w, h) == t.w.kernel[h].append
  {
    TidyRunIsLegal(s, evs);
    EveryLookupIsRight(s, evs);
  }

  /**
   The discipline that descriptor modes need: a handle is closed only through its only descriptor, or directly while
   no descriptor, cached or not, holds it. Readlink leaves a descriptor of a closed handle and is ruled out.
   */
  predicate Disciplined(s: State, ev: Event) {
    && Possible(s, ev)
    && (ev.Close? ==> forall fd :: fd in s.w.crt && s.w.crt[fd] == s.w.crt[ev.cfd] ==> fd == ev.cfd)
    && (ev.Drop? ==> !Held(s.w.crt, ev.dh))
    && !ev.Readlink?
  }

  predicate DisciplinedRun(s: State, evs: seq<Event>)
    ensures DisciplinedRun(s, evs) ==> PossibleRun(s, evs)
    decreases |evs|
  {
    evs == [] || (Disciplined(s, evs[0]) && DisciplinedRun(Step(s, evs[0]), evs[1..]))
  }

  predicate HeldAreLive(w: World) {
    forall fd :: fd in w.crt ==> w.crt[fd] in w.kernel
  }

  lemma {:induction false} DisciplineIsCareful(s: State, evs: seq<Event>)
    requires HeldAreLive(s.w) && DisciplinedRun(s, evs)
    ensures CarefulRun(s, evs) && HeldAreLive(Exec(s, evs).w)
    decreases |evs|
  {
    if evs == [] {
    } else {
      DisciplineIsCareful(Step(s, evs[0]), evs[1..]);
    }
  }

  /** Every disciplined run: descriptor modes are right as well, with no assumption on reused handle values. */
  lemma {:induction false} DisciplinedRunsAreRight(s: State, evs: seq<Event>)
    requires Start(s) && RightModes(s.w) && HeldAreLive(s.w) && DisciplinedRun(s, evs)
    ensures var t := Exec(s, evs);
            && (forall h :: h in t.w.kernel ==> Naive(t.c, t.w, h) == t.w.kernel[h].append)
            && (forall fd :: fd in t.w.crt ==>
                  && t.w.crt[fd] in t.w.kernel
                  && fd in t.w.flags && t.w.flags[fd] & O_APPEND == t.w.kernel[t.w.crt[fd]].append)
  {
    DisciplineIsCareful(s, evs);
    EveryLookupIsRight(s, evs);
    EveryModeIsRight(s, evs);
  }

  // ----- Descriptors that outlive their handle

  /** as_raw_fd on a handle that no cached descriptor holds makes an uncached descriptor. */
  lemma ConvertedIsUncached(s: State, h: Handle, fd: nat)
    requires Inv(s) && Possible(s, Convert(h, Some(fd))) && Uncached(s, h, |s.c.slots|)
    ensures var t := Step(s, Convert(h, Some(fd)));
            fd in t.w.crt && t.w.crt[fd] == h && t.c.slots[fd].None? && Uncached(t, h, |t.c.slots|)
  {
    var t := Step(s, Convert(h, Some(fd)));
    assert Right(s, h);
    assert forall j :: 0 <= j < |t.c.slots| && j != fd && Hit(t.c, t.w.crt, h, j) ==> Hit(s.c, s.w.crt, h, j);
    assert t.c.slots[fd].None? by {
      assert Lowest(s.c, s.w.crt, h, 0) == |s.c.slots|;
      assert s.c.slots[fd].Some? ==> Dead(s.c, s.w.crt, fd);
    }
  }

  /**
   An uncached descriptor stays what it is until it is closed, whatever becomes of its handle: it keeps the handle
   value, and it never gets into the cache, so it can never mislead a lookup.
   */
  lemma {:induction false} UncachedStaysUncached(s: State, evs: seq<Event>, fd: nat)
    requires PossibleRun(s, evs) && fd in s.w.crt && fd < |s.c.slots| && s.c.slots[fd].None?
    requires forall i :: 0 <= i < |evs| ==> evs[i] != Close(fd)
    ensures var t := Exec(s, evs);
            |t.c.slots| == |s.c.slots| && fd in t.w.crt && t.w.crt[fd] == s.w.crt[fd] && t.c.slots[fd].None?
    decreases |evs|
  {
    if evs == [] {
    } else {
      assert evs[0] != Close(fd);
      UncachedStaysUncached(Step(s, evs[0]), evs[1..], fd);
    }
  }

  // ----- The hypotheses are exact

  /** A way to open an object whose append flag is not `flag`. */
  function Other(flag: bv32): (how: How)
    ensures Made(how).append != flag
  {
    ByOptions(flag != 0, false, flag == 0)
  }

  function Reissued(w: World, h: Handle, obj: Object): World {
    w.(kernel := w.kernel[h := obj])
  }

  /**
   The lookup answers right for every object a handle value could be reissued to if and only if no cached
   descriptor still holds that value.
   */
  lemma ReissueIsSafeIffNotCached(s: State, h: Handle)
    requires h != INVALID_HANDLE
    ensures (forall how :: Naive(s.c, Reissued(s.w, h, Made(how)), h) == Made(how).append) <==> Uncached(s, h, |s.c.slots|)
  {
    forall how
      ensures Fallback(Reissued(s.w, h, Made(how)).kernel, h) == Made(how).append
    {
      FallbackIsRight(Reissued(s.w, h, Made(how)).kernel, h, how);
    }
    var k := Lowest(s.c, s.w.crt, h, 0);
    if k < |s.c.slots| {
      var other := Other(s.c.slots[k].value);
      assert Naive(s.c, Reissued(s.w, h, Made(other)), h) == s.c.slots[k].value != Made(other).append;
    }
  }

  lemma OpenHits(s: State, ev: Event)
    requires ev.WrapOpen? && Possible(s, ev)
    ensures var t := Step(s, ev);
            && Hit(t.c, t.w.crt, ev.h, ev.fd)
            && forall j :: 0 <= j < ev.fd ==>
                 Hit(t.c, t.w.crt, ev.h, j) == Hit(s.c, s.w.crt, ev.h, j) && t.c.slots[j] == s.c.slots[j]
  {
  }

  /** A wrapped open on `fd` leaves the lookup right, whatever its flags, iff no lower cached descriptor holds the value. */
  lemma OpenIsSafeIffNotCachedBelow(s: State, fd: nat, h: Handle)
    requires FreeFd(s, fd) && NotLive(s.w, h)
    ensures (forall oflag, access ::
               var t := Step(s, WrapOpen(fd, h, oflag, access)); Naive(t.c, t.w, h) == oflag & O_APPEND)
            <==> Uncached(s, h, fd)
  {
    forall oflag, access
      ensures Uncached(s, h, fd) ==>
                var t := Step(s, WrapOpen(fd, h, oflag, access)); Naive(t.c, t.w, h) == oflag & O_APPEND
    {
      OpenHits(s, WrapOpen(fd, h, oflag, access));
    }
    var k := Lowest(s.c, s.w.crt, h, 0);
    if k < fd {
      var oflag := Made(Other(s.c.slots[k].value)).append;
      var t := Step(s, WrapOpen(fd, h, oflag, None));
      OpenHits(s, WrapOpen(fd, h, oflag, None));
      assert Lowest(t.c, t.w.crt, h, 0) == k;
      assert Naive(t.c, t.w, h) == s.c.slots[k].value != oflag & O_APPEND;
    }
  }

  /** The modes of all descriptors stay right for every object a value could be reissued to iff no descriptor holds it. */
  lemma ModesSurviveReissueIffNotHeld(w: World, h: Handle)
    requires RightModes(w) && NotLive(w, h)
    ensures (forall how :: RightModes(Reissued(w, h, Made(how)))) <==> !Held(w.crt, h)
  {
    if Held(w.crt, h) {
      var fd :| fd in w.crt && w.crt[fd] == h;
      assert RightMode(w, fd);
      var other := Other(w.flags[fd] & O_APPEND);
      assert !RightMode(Reissued(w, h, Made(other)), fd);
    } else {
      forall how, fd | fd in w.crt
        ensures RightMode(Reissued(w, h, Made(how)), fd)
      {
        assert RightMode(w, fd);
      }
    }
  }

  /** The answer for an uncached `h` opened on `fd` by a route that neither looks up nor records. */
  function AfterForeignOpen(s: State, fd: nat, h: Handle, obj: Object): bv32 {
    Naive(s.c, Reissued(s.w, h, obj).(crt := s.w.crt[fd := h]), h)
  }

  /** Such an open is safe, whatever it opens, if and only if the slot of its descriptor is empty. */
  lemma ForeignOpenIsSafeIffSlotEmpty(s: State, fd: nat, h: Handle)
    requires FreeFd(s, fd) && NotLive(s.w, h) && Uncached(s, h, |s.c.slots|)
    ensures (forall how :: AfterForeignOpen(s, fd, h, Made(how)) == Made(how).append)
            <==> s.c.slots[fd].None?
  {
    var crt := s.w.crt[fd := h];
    assert forall j :: 0 <= j < |s.c.slots| && j != fd ==> Hit(s.c, crt, h, j) == Hit(s.c, s.w.crt, h, j);
    var k := Lowest(s.c, crt, h, 0);
    if s.c.slots[fd].Some? {
      assert Hit(s.c, crt, h, fd);
      var other := Other(s.c.slots[fd].value);
      assert AfterForeignOpen(s, fd, h, Made(other)) == s.c.slots[fd].value;
    }
  }

  /**
   After readlink the value of its handle may be reissued to any object if and only if no cached descriptor held it
   before and the slot of the number that readlink got was empty.
   */
  lemma ReissueAfterReadlinkIff(s: State, fd: nat, h: Handle)
    requires Possible(s, Readlink(fd, h))
    ensures var t := Step(s, Readlink(fd, h));
            (forall how :: Naive(t.c, Reissued(t.w, h, Made(how)), h) == Made(how).append)
            <==> Uncached(s, h, |s.c.slots|) && s.c.slots[fd].None?
  {
    var t := Step(s, Readlink(fd, h));
    ReissueIsSafeIffNotCached(t, h);
    assert forall j :: 0 <= j < |s.c.slots| && j != fd ==> Hit(t.c, t.w.crt, h, j) == Hit(s.c, s.w.crt, h, j);
    assert Hit(t.c, t.w.crt, h, fd) <==> s.c.slots[fd].Some?;
  }

  const APPENDER: How := ByOptions(false, false, true)

  /** The answer for `h` is not the flag it was opened with. */
  predicate Misled(s: State, h: Handle) {
    h in s.w.kernel && Naive(s.c, s.w, h) != s.w.kernel[h].append
  }

  /** Two descriptors of one handle, one closed, the value reissued: a possible run whose last lookup is wrong. */
  lemma {:induction false} AliasedCloseMisleads(s: State, h: Handle)
    requires s.c == Empty(2) && s.w == World(map[], map[], map[]) && h != INVALID_HANDLE
    ensures var evs := [WrapOpen(0, h, 0, None), Convert(h, Some(1)), Close(1), RustOpen(h, APPENDER)];
            Start(s) && PossibleRun(s, evs) && Misled(Exec(s, evs), h)
  {
    var a := Step(s, WrapOpen(0, h, 0, None));
    assert Hit(a.c, a.w.crt, h, 0);
    var b := Step(a, Convert(h, Some(1)));
    var c := Step(b, Close(1));
    var d := Step(c, RustOpen(h, APPENDER));
    assert Hit(d.c, d.w.crt, h, 0);
    OneMore(c, RustOpen(h, APPENDER), []);
    OneMore(b, Close(1), [RustOpen(h, APPENDER)]);
    OneMore(a, Convert(h, Some(1)), [Close(1), RustOpen(h, APPENDER)]);
    OneMore(s, WrapOpen(0, h, 0, None), [Convert(h, Some(1)), Close(1), RustOpen(h, APPENDER)]);
  }

  /** from_raw_fd gives the handle of a cached descriptor to a File, which closes it; the descriptor stays. */
  lemma {:induction false} DroppedRawFdMisleads(s: State, h: Handle)
    requires s.c == Empty(1) && s.w == World(map[], map[], map[]) && h != INVALID_HANDLE
    ensures var evs := [WrapOpen(0, h, 0, None), Drop(h), RustOpen(h, APPENDER)];
            Start(s) && PossibleRun(s, evs) && Misled(Exec(s, evs), h)
  {
    var a := Step(s, WrapOpen(0, h, 0, None));
    var b := Step(a, Drop(h));
    var c := Step(b, RustOpen(h, APPENDER));
    assert Hit(c.c, c.w.crt, h, 0);
    OneMore(b, RustOpen(h, APPENDER), []);
    OneMore(a, Drop(h), [RustOpen(h, APPENDER)]);
    OneMore(s, WrapOpen(0, h, 0, None), [Drop(h), RustOpen(h, APPENDER)]);
  }

  /** The client breaks no rule here: readlink keeps a descriptor on a number with a stale slot. */
  lemma {:induction false} ReadlinkMisleads(s: State, g: Handle, h: Handle)
    requires s.c == Empty(1) && s.w == World(map[], map[], map[]) && g != INVALID_HANDLE && h != INVALID_HANDLE
    ensures var evs := [WrapOpen(0, g, 0, None), Close(0), Readlink(0, h), RustOpen(h, APPENDER)];
            Start(s) && PossibleRun(s, evs) && Misled(Exec(s, evs), h)
  {
    var a := Step(s, WrapOpen(0, g, 0, None));
    var b := Step(a, Close(0));
    var c := Step(b, Readlink(0, h));
    var d := Step(c, RustOpen(h, APPENDER));
    assert Hit(d.c, d.w.crt, h, 0);
    OneMore(c, RustOpen(h, APPENDER), []);
    OneMore(b, Readlink(0, h), [RustOpen(h, APPENDER)]);
    OneMore(a, Close(0), [Readlink(0, h), RustOpen(h, APPENDER)]);
    OneMore(s, WrapOpen(0, g, 0, None), [Close(0), Readlink(0, h), RustOpen(h, APPENDER)]);
  }

  lemma OneMore(s: State, ev: Event, evs: seq<Event>)
    requires Possible(s, ev) && PossibleRun(Step(s, ev), evs)
    ensures forall all :: all == [ev] + evs ==> PossibleRun(s, all) && Exec(s, all) == Exec(Step(s, ev), evs)
  {
    assert ([ev] + evs)[1..] == evs;
  }
}
