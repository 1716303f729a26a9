/** The shim as the C code has it: a heap-allocated singly linked list, walked, marked and unlinked in place. */
module MapShim {
  import opened Common
  import opened Host
  import opened MapTable
  import opened PosixReference
  import opened MapRuns

  /** struct map_entry. */
  class Node {
    var ptr: Addr
    var len: nat
    var fd: int
    var fp: Stream
    var haveFp: bool
    var wantClose: bool
    var next: Node?

    /** malloc leaves `fp` with whatever was there: `junk`. */
    constructor (ptr: Addr, len: nat, fd: int, junk: Stream, next: Node?)
      ensures Value() == Entry(ptr, len, fd, junk, false, false) && this.next == next
    {
      this.ptr, this.len, this.fd, this.fp, this.next := ptr, len, fd, junk, next;
      haveFp, wantClose := false, false;
    }

    ghost function Value(): Entry
      reads this
    {
      Entry(ptr, len, fd, fp, haveFp, wantClose)
    }

    /** The body of the two marking loops: close leaves the stream alone, fclose records it. */
    method MarkFor(stream: Option<Stream>)
      modifies this`wantClose, this`fp, this`haveFp
      ensures Value() == MarkEntry(old(Value()), fd, stream)
    {
      wantClose := true;
      if stream.Some? {
        fp := stream.value;
        haveFp := true;
      }
    }
  }

  ghost function Values(nodes: seq<Node>): (r: seq<Entry>)
    reads nodes
    ensures |r| == |nodes| && forall i :: 0 <= i < |nodes| ==> r[i] == nodes[i].Value()
  {
    seq(|nodes|, i requires 0 <= i < |nodes| reads nodes => nodes[i].Value())
  }

  /** The values when the marking loop has reached position `k`, and whether it has met the descriptor. */
  function MarkUpTo(was: seq<Entry>, fd: int, stream: Option<Stream>, k: nat): seq<Entry> {
    seq(|was|, i requires 0 <= i < |was| => if i < k then MarkEntry(was[i], fd, stream) else was[i])
  }

  predicate Met(was: seq<Entry>, fd: int, k: nat) {
    exists i :: 0 <= i < k && i < |was| && was[i].fd == fd
  }

  lemma MarkNext(was: seq<Entry>, fd: int, stream: Option<Stream>, k: nat)
    requires k < |was|
    ensures MarkUpTo(was, fd, stream, k)[k] == was[k]
    ensures MarkUpTo(was, fd, stream, k)[k := MarkEntry(was[k], fd, stream)] == MarkUpTo(was, fd, stream, k + 1)
    ensures Met(was, fd, k + 1) <==> Met(was, fd, k) || was[k].fd == fd
  {
  }

  lemma MarkEnds(was: seq<Entry>, fd: int, stream: Option<Stream>)
    ensures MarkUpTo(was, fd, stream, 0) == was && MarkUpTo(was, fd, stream, |was|) == Mark(was, fd, stream)
    ensures !Met(was, fd, 0) && (Met(was, fd, |was|) <==> Mapped(was, fd))
  {
  }

  /** The loop of munmap, once the host has unmapped the address. */
  function Taken(s: Sys, addr: Addr, len: nat, nested: bool): Outcome {
    var k := FindPtr(s.maps, addr, 0);
    if k == |s.maps| then Done(s, 0)
    else
      var rest := s.(maps := Without(s.maps, k));
      if s.maps[k].wantClose then MapTable.PostMunmapHook(rest, s.maps[k], len, nested) else Done(rest, 0)
  }

  lemma MunmapAt(s: Sys, addr: Addr, len: nat, nested: bool)
    ensures MunmapStub(s, addr, len, true, nested) == Taken(s.(host := Unmap(s.host, addr)), addr, len, nested)
  {
  }

  class Shim {
    var maps: Node?
    var host: Host
    /** Whether libc's fclose closes its descriptor through the wrapped close. */
    const nested: bool
    ghost var nodes: seq<Node>

    constructor (host: Host, nested: bool)
      ensures Valid() && nodes == [] && View() == Sys([], host) && this.nested == nested
    {
      maps, nodes := null, [];
      this.host, this.nested := host, nested;
    }

    ghost function At(i: nat): Node?
      reads this
    {
      if i < |nodes| then nodes[i] else null
    }

    /** The list is acyclic and consists of `nodes`. */
    ghost predicate Valid()
      reads this, nodes
    {
      && (forall i, j :: 0 <= i < j < |nodes| ==> nodes[i] != nodes[j])
      && maps == At(0)
      && (forall i {:trigger nodes[i].next} :: 0 <= i < |nodes| ==> nodes[i].next == At(i + 1))
    }

    ghost function View(): Sys
      reads this, nodes
    {
      Sys(Values(nodes), host)
    }

    method Push(addr: Addr, len: nat, fildes: int, junk: Stream)
      requires Valid()
      modifies this`maps, this`nodes
      ensures Valid() && |nodes| > 0 && fresh(nodes[0]) && nodes[1..] == old(nodes)
      ensures Values(nodes) == [Entry(addr, len, fildes, junk, false, false)] + old(Values(nodes))
    {
      var node := new Node(addr, len, fildes, junk, maps);
      maps := node;
      nodes := [node] + nodes;
      assert forall j {:trigger nodes[j].next} :: 0 < j < |nodes| ==> nodes[j].next == At(j + 1);
    }

    /** `result` is the host's answer: a fresh address, or None for MAP_FAILED. */
    method Mmap(result: Option<Addr>, len: nat, write: bool, shared: bool, fildes: int, junk: Stream)
      returns (code: int)
      requires Valid()
      modifies this
      ensures Valid() && Done(View(), code) == MmapStub(old(View()), result, len, write, shared, fildes, junk)
      ensures nodes == old(nodes) || (|nodes| > 0 && fresh(nodes[0]) && nodes[1..] == old(nodes))
    {
      if result.None? {
        return -1;
      }
      var addr := result.value;
      var tracked := !(fildes < 0) && write && shared;
      host := host.(live := host.live[addr := Mapping(len, fildes, tracked)]);
      if tracked {
        Push(addr, len, fildes, junk);
      }
      return addr;
    }

    method MarkOne(ghost k: nat, i: Node, fildes: int, stream: Option<Stream>) returns (hit: bool)
      requires Valid() && k < |nodes| && i == nodes[k]
      modifies nodes`wantClose, nodes`fp, nodes`haveFp
      ensures Valid() && hit == (old(Values(nodes))[k].fd == fildes)
      ensures Values(nodes) == old(Values(nodes))[k := MarkEntry(old(Values(nodes))[k], fildes, stream)]
    {
      hit := i.fd == fildes;
      if hit {
        i.MarkFor(stream);
      }
    }

    /** The marking loop of close and fclose: every entry of `fildes`, and nothing else. */
    method MarkAll(fildes: int, stream: Option<Stream>) returns (flag: bool)
      requires Valid()
      modifies nodes`wantClose, nodes`fp, nodes`haveFp
      ensures Valid() && flag == Mapped(old(Values(nodes)), fildes)
      ensures Values(nodes) == Mark(old(Values(nodes)), fildes, stream)
    {
      flag := false;
      var i := maps;
      ghost var k := 0;
      ghost var was := Values(nodes);
      MarkEnds(was, fildes, stream);
      while i != null
        invariant k <= |nodes| && i == At(k)
        invariant flag == Met(was, fildes, k)
        invariant Valid() && Values(nodes) == MarkUpTo(was, fildes, stream, k)
        decreases |nodes| - k
      {
        MarkNext(was, fildes, stream, k);
        var hit := MarkOne(k, i, fildes, stream);
        flag := flag || hit;
        i := i.next;
        k := k + 1;
      }
    }

    method WrapClose(fildes: int) returns (code: int)
      requires Valid()
      modifies this`host, nodes`wantClose, nodes`fp, nodes`haveFp
      ensures Valid() && (View(), code) == MapTable.WrapClose(old(View()), fildes)
    {
      if fildes !in host.open {
        return -1;
      }
      var flag := MarkAll(fildes, None);
      if !flag {
        assert Values(nodes) == old(Values(nodes));
        var (h, c) := RealClose(host, fildes);
        host := h;
        return c;
      }
      return 0;
    }

    /** libc's fclose, which may come back into the wrapped close. */
    method RealFclose(stream: Stream) returns (code: int)
      requires Valid()
      modifies this`host, nodes`wantClose, nodes`fp, nodes`haveFp
      ensures Valid() && (View(), code) == MapTable.RealFclose(old(View()), stream, nested)
    {
      if stream !in host.streams {
        return -1;
      }
      var fildes := host.streams[stream];
      host := host.(streams := host.streams - {stream});
      if fildes < 0 {
        return 0;
      }
      if nested {
        code := WrapClose(fildes);
      } else {
        var (h, c) := RealClose(host, fildes);
        host := h;
        return c;
      }
    }

    method WrapFclose(stream: Option<Stream>) returns (code: int)
      requires Valid()
      modifies this`host, nodes`wantClose, nodes`fp, nodes`haveFp
      ensures Valid() && (View(), code) == MapTable.WrapFclose(old(View()), stream, nested)
    {
      if stream.None? || stream.value !in host.streams {
        return -1;
      }
      var fildes := host.streams[stream.value];
      if fildes < 0 {
        code := RealFclose(stream.value);
        return;
      }
      var flag := MarkAll(fildes, stream);
      if !flag {
        assert Values(nodes) == old(Values(nodes));
        code := RealFclose(stream.value);
        return;
      }
      return 0;
    }

    /** `node` is no longer in the list. The abort of a failed assertion is the out-parameter `aborted`. */
    method PostMunmapHook(node: Node, len: nat) returns (aborted: bool)
      requires Valid() && node !in nodes
      modifies this`host, nodes`wantClose, nodes`fp, nodes`haveFp
      ensures Valid()
      ensures var r := MapTable.PostMunmapHook(old(View()), old(node.Value()), len, nested);
              if aborted then r == Aborted else r == Done(View(), 0)
    {
      if node.len != len {
        return true;
      }
      var flag := false;
      var i := maps;
      ghost var k := 0;
      while i != null
        invariant k <= |nodes| && i == At(k) && !flag
        invariant forall j :: 0 <= j < k ==> nodes[j].fd != node.fd
        decreases |nodes| - k
      {
        if i.fd == node.fd {
          flag := true;
          if !i.wantClose {
            return true;
          }
          break;
        }
        i := i.next;
        k := k + 1;
      }
      if !flag {
        var code;
        if node.haveFp {
          code := RealFclose(node.fp);
        } else {
          var (h, c) := RealClose(host, node.fd);
          host, code := h, c;
        }
        return code != 0;
      }
      return false;
    }

    /** Unlinking node `k` through its predecessor, or through the head. */
    method Unlink(ghost k: nat, prev: Node?, i: Node)
      requires Valid() && k < |nodes| && i == nodes[k] && prev == if k == 0 then null else nodes[k - 1]
      modifies this`maps, this`nodes, nodes`next
      ensures Valid() && nodes == old(nodes)[..k] + old(nodes)[k + 1..] && i !in nodes
      ensures Values(nodes) == Without(old(Values(nodes)), k) && i.Value() == old(i.Value())
    {
      if prev != null {
        prev.next := i.next;
      } else {
        maps := i.next;
      }
      nodes := nodes[..k] + nodes[k + 1..];
      assert forall j :: 0 <= j < |nodes| ==> nodes[j] == old(nodes)[if j < k then j else j + 1];
    }

    /** The body of the munmap loop at the matching node `k`. */
    method Remove(ghost k: nat, prev: Node?, i: Node, len: nat) returns (aborted: bool)
      requires Valid() && k < |nodes| && i == nodes[k] && prev == if k == 0 then null else nodes[k - 1]
      modifies this`host, this`maps, this`nodes, nodes
      ensures Valid() && nodes == old(nodes)[..k] + old(nodes)[k + 1..]
      ensures var e, rest := old(i.Value()), Sys(Without(old(Values(nodes)), k), old(host));
              var r := if e.wantClose then MapTable.PostMunmapHook(rest, e, len, nested) else Done(rest, 0);
              if aborted then r == Aborted else r == Done(View(), 0)
    {
      Unlink(k, prev, i);
      aborted := false;
      if i.wantClose {
        aborted := PostMunmapHook(i, len);
      }
    }

    /** The search of the munmap loop: the first node at `addr`, and the one before it. */
    method Find(addr: Addr) returns (i: Node?, prev: Node?, ghost k: nat)
      requires Valid()
      ensures k == FindPtr(Values(nodes), addr, 0) && i == At(k)
      ensures prev == if k == 0 then null else nodes[k - 1]
    {
      i, prev, k := maps, null, 0;
      while i != null && i.ptr != addr
        invariant k <= |nodes| && i == At(k) && prev == if k == 0 then null else nodes[k - 1]
        invariant forall j :: 0 <= j < k ==> nodes[j].ptr != addr
        decreases |nodes| - k
      {
        prev := i;
        i := i.next;
        k := k + 1;
      }
    }

    method FindAndRemove(addr: Addr, len: nat) returns (aborted: bool)
      requires Valid()
      modifies this`host, this`maps, this`nodes, nodes
      ensures Valid()
      ensures var r := Taken(old(View()), addr, len, nested);
              if aborted then r == Aborted else r == Done(View(), 0)
      ensures nodes == var k := FindPtr(old(Values(nodes)), addr, 0);
                       if k < |old(nodes)| then old(nodes)[..k] + old(nodes)[k + 1..] else old(nodes)
    {
      var i, prev, k := Find(addr);
      aborted := false;
      if i != null {
        aborted := Remove(k, prev, i, len);
      }
    }

    /**
     `ok` is whether the host's munmap succeeded. A tracked address loses exactly its own node, which is then
     unreachable and can be freed; the others stay in order, and only a nested close could touch their marks.
     */
    method Munmap(addr: Addr, len: nat, ok: bool) returns (code: int, aborted: bool)
      requires Valid()
      modifies this`host, this`maps, this`nodes, nodes
      ensures Valid()
      ensures var r := MunmapStub(old(View()), addr, len, ok, nested);
              if aborted then r == Aborted else r == Done(View(), code)
      ensures nodes == var k := FindPtr(old(Values(nodes)), addr, 0);
                       if ok && k < |old(nodes)| then old(nodes)[..k] + old(nodes)[k + 1..] else old(nodes)
    {
      if !ok {
        return -1, false;
      }
      host := Unmap(host, addr);
      assert Values(nodes) == old(Values(nodes));
      MunmapAt(old(View()), addr, len, nested);
      aborted := FindAndRemove(addr, len);
      return 0, aborted;
    }

    /** A call of the client or a step of the host, on the heap list. */
    method Apply(ev: Event) returns (code: int, aborted: bool)
      requires Valid()
      modifies this, nodes
      ensures Valid() && fresh(set n | n in nodes && n !in old(nodes))
      ensures Step(old(View()), ev, nested) == if aborted then Aborted else Done(View(), code)
    {
      aborted := false;
      match ev
      case Open(fd, file) =>
        host := host.(open := host.open[fd := file]);
        code := fd;
      case Attach(st, fd) =>
        host := host.(streams := host.streams[st := fd]);
        code := 0;
      case Mmap(result, len, write, shared, fd, junk) =>
        code := Mmap(result, len, write, shared, fd, junk);
      case Close(fd) =>
        code := WrapClose(fd);
      case Fclose(fp) =>
        code := WrapFclose(fp);
      case Munmap(addr, len, ok) =>
        code, aborted := Munmap(addr, len, ok);
    }

    /** A whole run on the heap list is the run of the theorems, and a legal one from the start never aborts. */
    method Run(evs: seq<Event>, ghost p: Posix) returns (aborted: bool)
      requires Valid()
      modifies this, nodes
      ensures Valid()
      ensures var u := Exec(Up(old(View()), p), evs, nested);
              if aborted then u.Down? else u.Up? && u.sys == View()
      ensures Start(Up(old(View()), p)) && LegalRun(Up(old(View()), p), evs, nested) ==> !aborted
    {
      ghost var w0 := Up(View(), p);
      ghost var w := w0;
      aborted := false;
      var i := 0;
      while i < |evs| && !aborted
        invariant Valid() && i <= |evs| && fresh(set n | n in nodes && n !in old(nodes))
        invariant if aborted then w.Down? else w.Up? && w.sys == View()
        invariant Exec(w, evs[i..], nested) == Exec(w0, evs, nested)
      {
        var code;
        w := Advance(w, evs[i], nested);
        assert evs[i..][0] == evs[i] && evs[i..][1..] == evs[i + 1..];
        code, aborted := Apply(evs[i]);
        i := i + 1;
      }
      if aborted {
        DownStaysDown(evs[i..], nested);
      }
      if Start(w0) && LegalRun(w0, evs, nested) {
        EveryRunRefinesPosix(w0, evs, nested);
      }
    }
  }

  lemma {:induction false} DownStaysDown(evs: seq<Event>, nested: bool)
    ensures Exec(Down, evs, nested) == Down
    decreases |evs|
  {
    if evs != [] { DownStaysDown(evs[1..], nested); }
  }
}
