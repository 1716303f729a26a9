/** The Windows handle and descriptor world around the O_APPEND cache, and the cache itself as a value. */
module FdWorld {
  import opened Common
  import opened OpenFlags

  type Handle = int
  const INVALID_HANDLE: Handle := -1
  const FILE_WRITE_DATA: bv32 := 0x2
  const FILE_APPEND_DATA: bv32 := 0x4

  /** A live kernel object: the append flag it was really opened with, and what NtQueryObject reports. */
  datatype Object = Object(append: bv32, access: Option<bv32>)

  /** How a handle is opened without the wrapper: by Rust's open options, or with an access of the caller's own. */
  datatype How =
    | ByOptions(read: bool, write: bool, append: bool)
    | ByAccess(access: bv32)
    | Unqueried

  /** What the kernel grants for those options: the generic rights spelled out, and reading attributes. */
  function Granted(read: bool, write: bool, append: bool): bv32 {
    (if read then 0x120089 else 0) | (if append then 0x120114 else if write then 0x120116 else 0) | 0x80
  }

  /**
   The object of such a handle. It appends when it may append but not write data; one that cannot be queried is
   taken not to append.
   */
  function Made(how: How): Object {
    match how
    case ByOptions(read, write, append) => Object(if append then O_APPEND else 0, Some(Granted(read, write, append)))
    case ByAccess(access) => Object(if access & 0x6 == 0x4 then O_APPEND else 0, Some(access))
    case Unqueried => Object(0, None)
  }

  /** `crt` is the CRT's table of open descriptors, with the flags each was opened with in `flags`. */
  datatype World = World(kernel: map<Handle, Object>, crt: map<nat, Handle>, flags: map<nat, bv32>)

  function GetOsHandle(crt: map<nat, Handle>, fd: nat): Handle {
    if fd in crt then crt[fd] else INVALID_HANDLE
  }

  function Fallback(kernel: map<Handle, Object>, h: Handle): bv32 {
    if h !in kernel || kernel[h].access.None? then 0
    else if kernel[h].access.value & FILE_WRITE_DATA != 0 then 0
    else if kernel[h].access.value & FILE_APPEND_DATA != 0 then O_APPEND
    else 0
  }

  /** The fallback is right for every handle opened without the wrapper, whatever the options and the access. */
  lemma FallbackIsRight(kernel: map<Handle, Object>, h: Handle, how: How)
    requires h in kernel && kernel[h] == Made(how)
    ensures Fallback(kernel, h) == Made(how).append
    ensures how.ByOptions? ==> Fallback(kernel, h) == if how.append then 0x8 else 0
  {
    if how.ByOptions? {
      GrantedBits(how.read, how.write, how.append);
    } else if how.ByAccess? {
      AccessBits(how.access);
    }
  }

  lemma GrantedBits(read: bool, write: bool, append: bool)
    ensures Granted(read, write, append) & 0x2 != 0 <==> write && !append
    ensures Granted(read, write, append) & 0x4 != 0 <==> write || append
  {
  }

  lemma AccessBits(access: bv32)
    ensures access & 0x6 == 0x4 <==> access & 0x2 == 0 && access & 0x4 != 0
  {
  }

  /** One slot of the cache: None is the C code's -1. */
  type Slot = Option<bv32>

  /** The slots of the static array and its high-water mark. */
  datatype Cache = Cache(slots: seq<Slot>, max: nat)

  function Empty(openMax: nat): Cache {
    Cache(seq(openMax, _ => None), 0)
  }

  predicate Hit(c: Cache, crt: map<nat, Handle>, h: Handle, fd: nat) {
    fd < |c.slots| && c.slots[fd].Some? && fd in crt && crt[fd] == h
  }

  predicate Dead(c: Cache, crt: map<nat, Handle>, fd: nat) {
    fd < |c.slots| && c.slots[fd].Some? && GetOsHandle(crt, fd) == INVALID_HANDLE
  }

  /** The naive lookup: the lowest live cached descriptor with that handle; `|slots|` if there is none. */
  function Lowest(c: Cache, crt: map<nat, Handle>, h: Handle, from: nat): (k: nat)
    requires from <= |c.slots|
    ensures from <= k <= |c.slots|
    ensures k < |c.slots| ==> Hit(c, crt, h, k)
    ensures forall fd :: from <= fd < k ==> !Hit(c, crt, h, fd)
    decreases |c.slots| - from
  {
    if from == |c.slots| || Hit(c, crt, h, from) then from else Lowest(c, crt, h, from + 1)
  }

  /** What the lookup should answer, read off without changing anything. */
  function Naive(c: Cache, w: World, h: Handle): bv32 {
    if h == INVALID_HANDLE then 0
    else
      var k := Lowest(c, w.crt, h, 0);
      if k < |c.slots| then c.slots[k].value else Fallback(w.kernel, h)
  }

  /** What it leaves: the dead slots below the hit are emptied, and the mark drops if its own slot was one. */
  function Swept(c: Cache, crt: map<nat, Handle>, h: Handle): Cache {
    if h == INVALID_HANDLE then c
    else
      var k := Lowest(c, crt, h, 0);
      Cache(seq(|c.slots|, fd requires 0 <= fd < |c.slots| => if fd < k && Dead(c, crt, fd) then None else c.slots[fd]),
            if k == |c.slots| && c.max > 0 && Dead(c, crt, c.max - 1) then c.max - 1 else c.max)
  }

  /** Every slot at or above the mark is empty. */
  ghost predicate Bounded(c: Cache) {
    && c.max <= |c.slots|
    && (forall fd :: c.max <= fd < |c.slots| ==> c.slots[fd].None?)
  }

  function WithFlag(c: Cache, fd: nat, oflag: bv32): Cache
    requires fd < |c.slots|
  {
    Cache(c.slots[fd := Some(oflag & O_APPEND)], if c.max <= fd then fd + 1 else c.max)
  }
}

/** internal/fd.c: the static array, filled by open and swept by the lookup. */
module FdCache {
  import opened Common
  import opened OpenFlags
  import opened FdWorld

  class OflagCache {
    const slots: array<Slot>
    var max: nat

    ghost function View(): Cache
      reads this, slots
    {
      Cache(slots[..], max)
    }

    constructor (openMax: nat)
      ensures fresh(slots) && slots.Length == openMax
      ensures View() == Empty(openMax)
    {
      slots := new Slot[openMax];
      max := 0;
      new;
      for fd := 0 to openMax
        invariant max == 0 && forall j :: 0 <= j < fd ==> slots[j] == None
      {
        slots[fd] := None;
      }
      assert slots[..] == Empty(openMax).slots;
    }

    method CacheOflag(fd: nat, oflag: bv32)
      requires fd < slots.Length
      modifies this`max, slots
      ensures View() == WithFlag(old(View()), fd, oflag)
    {
      slots[fd] := Some(oflag & O_APPEND);
      if max <= fd {
        max := fd + 1;
      }
    }

    /**
     The mark is read afresh on every round and shrinks inside the loop, by one at most: only a lookup that goes
     through to the end lowers it, and only if the topmost recorded descriptor is closed.
     */
    method GetOsHandleOflag(w: World, h: Handle) returns (oflag: bv32)
      requires Bounded(View())
      modifies this`max, slots
      ensures oflag == Naive(old(View()), w, h) && (h == INVALID_HANDLE ==> oflag == 0)
      ensures View() == Swept(old(View()), w.crt, h) && Bounded(View())
      ensures max < old(max) <==>
              && h != INVALID_HANDLE && old(max) > 0 && old(slots[max - 1]).Some?
              && GetOsHandle(w.crt, old(max) - 1) == INVALID_HANDLE
              && forall fd :: 0 <= fd < slots.Length ==> !Hit(old(View()), w.crt, h, fd)
      ensures max >= old(max) - 1
    {
      if h == INVALID_HANDLE {
        return 0;
      }
      ghost var was := View();
      var fd := 0;
      while fd < max
        invariant max <= was.max && fd <= max + 1 && fd <= was.max
        invariant max == if fd > 0 && fd == was.max && Dead(was, w.crt, fd - 1) then was.max - 1 else was.max
        invariant forall j :: 0 <= j < fd ==> !Hit(was, w.crt, h, j)
        invariant forall j :: 0 <= j < slots.Length ==>
                    slots[j] == if j < fd && Dead(was, w.crt, j) then None else was.slots[j]
        decreases was.max - fd
      {
        if slots[fd].None? {
          fd := fd + 1;
          continue;
        }
        var other := GetOsHandle(w.crt, fd);
        if other == INVALID_HANDLE {
          slots[fd] := None;
          if fd == max - 1 {
            max := max - 1;
          }
          fd := fd + 1;
          continue;
        }
        if h == other {
          assert was.slots[fd] == slots[fd];
          assert Hit(was, w.crt, h, fd);
          assert Lowest(was, w.crt, h, 0) == fd;
          return slots[fd].value;
        }
        fd := fd + 1;
      }
      assert forall j :: 0 <= j < slots.Length ==> !Hit(was, w.crt, h, j);
      return Fallback(w.kernel, h);
    }
  }
}
