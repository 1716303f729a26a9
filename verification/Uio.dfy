/** The transfer loop of readv and writev over an adversarial schedule of system calls, as a function of lengths. */
module UioSpec {
  import opened Common

  /**
   What one system call does: transfer at most `n` bytes (0 is end of file or a refused transfer), get
   interrupted, or fail. Past the end of a schedule every call transfers all it can.
   */
  datatype Outcome = Upto(n: nat) | Interrupted | Failing

  type Schedule = seq<Outcome>

  /** Why the loop ended: past the last segment, on a transfer of 0 bytes, or on an error. */
  datatype Stop = Finished | NothingMoved | Failed

  datatype Result = Result(ret: int, moved: nat, rest: Schedule, stop: Stop)

  /** Bytes in the segments from `i` on. */
  function Total(lens: seq<nat>, i: nat): nat
    requires i <= |lens|
    decreases |lens| - i
  {
    if i == |lens| then 0 else lens[i] + Total(lens, i + 1)
  }

  /** The size of one transfer of at most `want` bytes when the stream has `avail` left. */
  function Count(want: nat, avail: nat, sched: Schedule): nat
    requires sched != [] ==> sched[0].Upto?
  {
    Min(want, Min(avail, if sched == [] then want else sched[0].n))
  }

  function Tail(sched: Schedule): Schedule { if sched == [] then [] else sched[1..] }

  /** Where the loop is: at segment `i`, offset `off`, `moved` bytes into the transfer, with `avail` left in the stream. */
  datatype Position = Position(i: nat, off: nat, moved: nat, avail: nat, sched: Schedule)

  datatype Round = Halt(result: Result) | Go(pos: Position)

  predicate InRange(lens: seq<nat>, p: Position) {
    p.i <= |lens| && (if p.i == |lens| then p.off == 0 else p.off <= lens[p.i])
  }

  function Left(lens: seq<nat>, p: Position): nat
    requires InRange(lens, p)
  {
    Total(lens, p.i) - p.off
  }

  /** One round of the loop: it leaves fewer bytes, or as many bytes and one interruption less. */
  function OneRound(lens: seq<nat>, p: Position): (r: Round)
    requires InRange(lens, p)
    ensures r.Go? ==> InRange(lens, r.pos) && r.pos.sched == Tail(p.sched)
    ensures r.Go? ==> r.pos.moved + Left(lens, r.pos) == p.moved + Left(lens, p)
    ensures r.Go? ==> r.pos.moved + r.pos.avail == p.moved + p.avail
    ensures r.Go? ==> r.pos.moved > p.moved || (r.pos == p.(sched := Tail(p.sched)) && p.sched != [])
  {
    if p.i == |lens| then Halt(Result(p.moved, p.moved, p.sched, Finished))
    else if p.sched != [] && p.sched[0].Interrupted? then Go(p.(sched := p.sched[1..]))
    else if p.sched != [] && p.sched[0].Failing? then
      Halt(Result(if p.moved == 0 then -1 else p.moved, p.moved, p.sched[1..], Failed))
    else
      var n := Count(lens[p.i] - p.off, p.avail, p.sched);
      if n == 0 then Halt(Result(p.moved, p.moved, Tail(p.sched), NothingMoved))
      else if p.off + n < lens[p.i] then Go(Position(p.i, p.off + n, p.moved + n, p.avail - n, Tail(p.sched)))
      else Go(Position(p.i + 1, 0, p.moved + n, p.avail - n, Tail(p.sched)))
  }

  function Drive(lens: seq<nat>, p: Position): (r: Result)
    requires InRange(lens, p)
    ensures p.moved <= r.moved <= p.moved + Left(lens, p) && r.moved <= p.moved + p.avail
    ensures r.ret == if r.stop.Failed? && r.moved == 0 then -1 else r.moved
    ensures r.stop.Finished? ==> r.moved == p.moved + Left(lens, p)
    decreases Left(lens, p), |p.sched|
  {
    match OneRound(lens, p)
    case Halt(r) => r
    case Go(q) => Drive(lens, q)
  }

  function Whole(lens: seq<nat>, avail: nat, sched: Schedule): Result {
    Drive(lens, Position(0, 0, 0, avail, sched))
  }

  // ----- The schedule

  /** No call fails and none is refused: short and interrupted transfers only. */
  predicate Clean(sched: Schedule) {
    forall k :: 0 <= k < |sched| ==> sched[k] != Failing && sched[k] != Upto(0)
  }

  function Uninterrupted(sched: Schedule): Schedule {
    if sched == [] then []
    else (if sched[0].Interrupted? then [] else [sched[0]]) + Uninterrupted(sched[1..])
  }

  /** Interruptions cannot be observed: the transfer is the one without them. */
  lemma {:induction false} InterruptionsAreInvisible(lens: seq<nat>, p: Position)
    requires InRange(lens, p)
    ensures var r, q := Drive(lens, p), Drive(lens, p.(sched := Uninterrupted(p.sched)));
            r.(rest := Uninterrupted(r.rest)) == q
    decreases Left(lens, p), |p.sched|
  {
    var p' := p.(sched := Uninterrupted(p.sched));
    if p.i == |lens| {
    } else if p.sched != [] && p.sched[0].Interrupted? {
      assert Uninterrupted(p.sched) == Uninterrupted(p.sched[1..]);
      InterruptionsAreInvisible(lens, p.(sched := p.sched[1..]));
    } else {
      UninterruptedTail(p.sched);
      match OneRound(lens, p)
      case Halt(_) =>
      case Go(q) =>
        assert OneRound(lens, p') == Go(q.(sched := Uninterrupted(q.sched)));
        InterruptionsAreInvisible(lens, q);
    }
  }

  lemma UninterruptedTail(sched: Schedule)
    requires sched != [] ==> !sched[0].Interrupted?
    ensures Tail(Uninterrupted(sched)) == Uninterrupted(Tail(sched))
    ensures sched != [] ==> Uninterrupted(sched) != [] && Uninterrupted(sched)[0] == sched[0]
  {
    if sched != [] { assert Uninterrupted(sched) == [sched[0]] + Uninterrupted(sched[1..]); }
  }

  /** The loop stops early only on a transfer of 0 bytes or on an error, and the error is the last call made. */
  lemma {:induction false} WhyItStops(lens: seq<nat>, p: Position)
    requires InRange(lens, p)
    ensures var r := Drive(lens, p); var used := |p.sched| - |r.rest|;
            && used >= 0 && p.sched[used..] == r.rest
            && (r.stop.Failed? <==> used > 0 && p.sched[used - 1].Failing?)
            && (forall k :: 0 <= k < used - 1 ==> !p.sched[k].Failing?)
    decreases Left(lens, p), |p.sched|
  {
    match OneRound(lens, p)
    case Halt(_) =>
    case Go(q) => WhyItStops(lens, q);
  }

  /** A transfer returns -1 exactly when nothing was moved and the last call made failed, and else what was moved. */
  lemma MinusOneIff(lens: seq<nat>, avail: nat, sched: Schedule)
    ensures var r := Whole(lens, avail, sched); var used := |sched| - |r.rest|;
            && used >= 0
            && (r.ret == -1 <==> r.moved == 0 && used > 0 && sched[used - 1].Failing?)
            && (r.ret != -1 ==> r.ret == r.moved)
  {
    WhyItStops(lens, Position(0, 0, 0, avail, sched));
  }

  // ----- How much is transferred

  /** Bytes in the segments from `i` up to the first empty one. */
  function UntilEmpty(lens: seq<nat>, i: nat): (n: nat)
    requires i <= |lens|
    ensures n <= Total(lens, i)
    decreases |lens| - i
  {
    if i == |lens| || lens[i] == 0 then 0 else lens[i] + UntilEmpty(lens, i + 1)
  }

  /** The current segment is not done yet, or is an empty one just reached. */
  predicate InSegment(lens: seq<nat>, p: Position) {
    InRange(lens, p) && (p.i < |lens| ==> p.off < lens[p.i] || p.off == lens[p.i] == 0)
  }

  /** The bytes from `p` up to the next empty segment. */
  function Reachable(lens: seq<nat>, p: Position): nat
    requires InSegment(lens, p)
  {
    UntilEmpty(lens, p.i) - p.off
  }

  /**
   The loop stops on an empty transfer only because the call was refused, the stream is at its end, or an empty
   segment is reached.
   */
  lemma {:induction false} WhyNothingMoved(lens: seq<nat>, p: Position)
    requires InSegment(lens, p)
    ensures var r := Drive(lens, p); var used := |p.sched| - |r.rest|;
            used >= 0 && (r.stop.NothingMoved? ==>
                            || (used > 0 && p.sched[used - 1] == Upto(0))
                            || r.moved == p.moved + p.avail
                            || r.moved == p.moved + Reachable(lens, p))
    decreases Left(lens, p), |p.sched|
  {
    match OneRound(lens, p)
    case Halt(_) =>
    case Go(q) => WhyNothingMoved(lens, q);
  }

  /** It gets past the last segment only if none on the way is empty. */
  lemma {:induction false} FinishedMeansNoneEmpty(lens: seq<nat>, p: Position)
    requires InSegment(lens, p) && Drive(lens, p).stop.Finished?
    ensures forall k :: p.i <= k < |lens| ==> lens[k] > 0
    decreases Left(lens, p), |p.sched|
  {
    match OneRound(lens, p)
    case Halt(_) =>
    case Go(q) => FinishedMeansNoneEmpty(lens, q);
  }

  /** Without errors or refusals the loop moves everything before the first empty segment, or all the stream has. */
  lemma {:induction false} StopsAtEmpty(lens: seq<nat>, p: Position)
    requires InSegment(lens, p) && Clean(p.sched)
    ensures Drive(lens, p).moved == Drive(lens, p).ret == p.moved + Min(Reachable(lens, p), p.avail)
    decreases Left(lens, p), |p.sched|
  {
    assert p.sched != [] ==> p.sched[0] != Failing && p.sched[0] != Upto(0);
    match OneRound(lens, p)
    case Halt(_) =>
    case Go(q) => StopsAtEmpty(lens, q);
  }

  /** No byte lies behind an empty segment. */
  predicate NothingBehindEmpty(lens: seq<nat>) {
    forall j, k :: 0 <= j < k < |lens| && lens[j] == 0 ==> lens[k] == 0
  }

  lemma {:induction false} UntilEmptyIsTotal(lens: seq<nat>, i: nat)
    requires i <= |lens|
    ensures UntilEmpty(lens, i) == Total(lens, i)
            <==> forall j, k :: i <= j < k < |lens| && lens[j] == 0 ==> lens[k] == 0
    ensures Total(lens, i) == 0 <==> forall k :: i <= k < |lens| ==> lens[k] == 0
    decreases |lens| - i
  {
    if i < |lens| { UntilEmptyIsTotal(lens, i + 1); }
  }

  /**
   POSIX skips empty segments, and the loop does not. Without errors or refusals it transfers the full total
   exactly when the stream has that much and no non-empty segment comes after an empty one.
   */
  lemma FullTransferIff(lens: seq<nat>, avail: nat, sched: Schedule)
    requires Clean(sched)
    ensures Whole(lens, avail, sched).ret == Total(lens, 0) <==> NothingBehindEmpty(lens) && Total(lens, 0) <= avail
  {
    StopsAtEmpty(lens, Position(0, 0, 0, avail, sched));
    UntilEmptyIsTotal(lens, 0);
  }
}

/** The loop itself, over caller buffers and a descriptor. */
module Uio {
  import opened Common
  import opened UioSpec

  /** The `n` elements of `s` at `off`. */
  function Slice(s: seq<byte>, off: nat, n: nat): seq<byte>
    requires off + n <= |s|
  {
    seq(n, k requires 0 <= k < n => s[off + k])
  }

  /** `s` with `data` stored at `off`. */
  function Put(s: seq<byte>, off: nat, data: seq<byte>): seq<byte>
    requires off + |data| <= |s|
  {
    seq(|s|, k requires 0 <= k < |s| => if off <= k < off + |data| then data[k - off] else s[k])
  }

  /** An open descriptor: what is left to read, what has been written, and how its system calls will go. */
  class Channel {
    var stream: seq<byte>
    var sink: seq<byte>
    var sched: Schedule

    constructor (stream: seq<byte>, sched: Schedule)
      ensures this.stream == stream && this.sink == [] && this.sched == sched
    {
      this.stream, this.sink, this.sched := stream, [], sched;
    }

    /** The bytes moved, or why none were: -1 with `eintr` saying which error. */
    method Write(buf: array<byte>, off: nat, len: nat) returns (r: int, eintr: bool)
      requires off + len <= buf.Length
      modifies this`sink, this`sched
      ensures sched == Tail(old(sched))
      ensures eintr <==> old(sched) != [] && old(sched)[0].Interrupted?
      ensures r < 0 <==> old(sched) != [] && !old(sched)[0].Upto?
      ensures r >= 0 ==> r == Count(len, len, old(sched)) && sink == old(sink) + Slice(buf[..], off, r)
      ensures r < 0 ==> sink == old(sink)
    {
      var head := sched;
      sched := Tail(sched);
      if head != [] && !head[0].Upto? {
        return -1, head[0].Interrupted?;
      }
      var n := Count(len, len, head);
      sink := sink + buf[off..off + n];
      assert buf[off..off + n] == Slice(buf[..], off, n);
      return n, false;
    }

    method Read(buf: array<byte>, off: nat, len: nat) returns (r: int, eintr: bool)
      requires off + len <= buf.Length
      modifies this`stream, this`sched, buf
      ensures sched == Tail(old(sched))
      ensures eintr <==> old(sched) != [] && old(sched)[0].Interrupted?
      ensures r < 0 <==> old(sched) != [] && !old(sched)[0].Upto?
      ensures r >= 0 ==> r == Count(len, |old(stream)|, old(sched)) && stream == old(stream)[r..]
                         && buf[..] == Put(old(buf[..]), off, old(stream)[..r])
      ensures r < 0 ==> stream == old(stream) && buf[..] == old(buf[..])
    {
      var head := sched;
      sched := Tail(sched);
      if head != [] && !head[0].Upto? {
        return -1, head[0].Interrupted?;
      }
      var n := Count(len, |stream|, head);
      forall k | 0 <= k < n {
        buf[off + k] := stream[k];
      }
      stream := stream[n..];
      return n, false;
    }
  }

  ghost function Contents(iov: seq<array<byte>>): (r: seq<seq<byte>>)
    reads iov
    ensures |r| == |iov| && forall i :: 0 <= i < |iov| ==> r[i] == iov[i][..]
  {
    seq(|iov|, i requires 0 <= i < |iov| reads iov => iov[i][..])
  }

  function Lens(iov: seq<array<byte>>): (r: seq<nat>)
    ensures |r| == |iov| && forall i :: 0 <= i < |iov| ==> r[i] == iov[i].Length
  {
    seq(|iov|, i requires 0 <= i < |iov| => iov[i].Length)
  }

  function LensOf(parts: seq<seq<byte>>): (r: seq<nat>)
    ensures |r| == |parts| && forall i :: 0 <= i < |parts| ==> r[i] == |parts[i]|
  {
    seq(|parts|, i requires 0 <= i < |parts| => |parts[i]|)
  }

  /** The segments from `i` on, one after the other. */
  function FlatFrom(parts: seq<seq<byte>>, i: nat): (r: seq<byte>)
    requires i <= |parts|
    ensures |r| == Total(LensOf(parts), i)
    decreases |parts| - i
  {
    if i == |parts| then [] else parts[i] + FlatFrom(parts, i + 1)
  }

  function Flat(parts: seq<seq<byte>>): seq<byte> { FlatFrom(parts, 0) }

  lemma {:induction false} TotalFalls(lens: seq<nat>, i: nat, j: nat)
    requires i <= j <= |lens|
    ensures Total(lens, j) <= Total(lens, i)
    decreases j - i
  {
    if i < j { TotalFalls(lens, i + 1, j); }
  }

  /** Where segment `i` starts in the concatenation. */
  function Offset(lens: seq<nat>, i: nat): (r: nat)
    requires i <= |lens|
    ensures r + Total(lens, i) == Total(lens, 0)
  {
    TotalFalls(lens, 0, i);
    Total(lens, 0) - Total(lens, i)
  }

  /** Byte `k` of segment `j`, in the concatenation from segment `i` on. */
  lemma {:induction false} ByteFrom(parts: seq<seq<byte>>, i: nat, j: nat, k: nat)
    requires i <= j < |parts| && k < |parts[j]|
    ensures var at := Total(LensOf(parts), i) - Total(LensOf(parts), j) + k;
            0 <= at < |FlatFrom(parts, i)| && FlatFrom(parts, i)[at] == parts[j][k]
    decreases j - i
  {
    if i < j {
      ByteFrom(parts, i + 1, j, k);
      assert FlatFrom(parts, i) == parts[i] + FlatFrom(parts, i + 1);
    }
  }

  lemma ByteOfFlat(parts: seq<seq<byte>>, j: nat, k: nat)
    requires j < |parts| && k < |parts[j]|
    ensures var at := Offset(LensOf(parts), j) + k; at < |Flat(parts)| && Flat(parts)[at] == parts[j][k]
  {
    ByteFrom(parts, 0, j, k);
  }

  lemma FlatSlice(parts: seq<seq<byte>>, i: nat, off: nat, r: nat)
    requires i < |parts| && off + r <= |parts[i]|
    ensures var at := Offset(LensOf(parts), i) + off;
            at + r <= |Flat(parts)| && Slice(Flat(parts), at, r) == Slice(parts[i], off, r)
  {
    SliceFits(parts, i, off, r);
    forall k | 0 <= k < r
      ensures Slice(Flat(parts), Offset(LensOf(parts), i) + off, r)[k] == Slice(parts[i], off, r)[k]
    {
      ByteOfFlat(parts, i, off + k);
    }
  }

  lemma SliceFits(parts: seq<seq<byte>>, i: nat, off: nat, r: nat)
    requires i < |parts| && off + r <= |parts[i]|
    ensures Offset(LensOf(parts), i) + off + r <= |Flat(parts)|
  {
  }

  lemma PutLeft(part: seq<byte>, rest: seq<byte>, off: nat, data: seq<byte>)
    requires off + |data| <= |part|
    ensures Put(part, off, data) + rest == Put(part + rest, off, data)
  {
  }

  lemma PutRight(part: seq<byte>, rest: seq<byte>, at: nat, data: seq<byte>)
    requires at + |data| <= |rest|
    ensures part + Put(rest, at, data) == Put(part + rest, |part| + at, data)
  {
  }

  lemma {:induction false} SameTail(parts: seq<seq<byte>>, changed: seq<seq<byte>>, i: nat)
    requires |parts| == |changed| && i <= |parts|
    requires forall j :: i <= j < |parts| ==> parts[j] == changed[j]
    ensures FlatFrom(parts, i) == FlatFrom(changed, i)
    decreases |parts| - i
  {
    if i < |parts| { SameTail(parts, changed, i + 1); }
  }

  lemma {:induction false} PutFrom(parts: seq<seq<byte>>, i: nat, j: nat, off: nat, data: seq<byte>)
    requires i <= j < |parts| && off + |data| <= |parts[j]|
    ensures var at := Total(LensOf(parts), i) - Total(LensOf(parts), j) + off;
            && 0 <= at && at + |data| <= |FlatFrom(parts, i)|
            && FlatFrom(parts[j := Put(parts[j], off, data)], i) == Put(FlatFrom(parts, i), at, data)
    decreases j - i
  {
    var changed := parts[j := Put(parts[j], off, data)];
    var lens := LensOf(parts);
    if i == j {
      SameTail(parts, changed, i + 1);
      PutLeft(parts[i], FlatFrom(parts, i + 1), off, data);
    } else {
      PutFrom(parts, i + 1, j, off, data);
      PutRight(parts[i], FlatFrom(parts, i + 1), Total(lens, i + 1) - Total(lens, j) + off, data);
    }
  }

  /** Storing `data` at offset `off` of segment `i` stores it at its place in the concatenation. */
  lemma FlatPut(parts: seq<seq<byte>>, i: nat, off: nat, data: seq<byte>)
    requires i < |parts| && off + |data| <= |parts[i]|
    ensures Offset(LensOf(parts), i) + off + |data| <= |Flat(parts)|
    ensures Flat(parts[i := Put(parts[i], off, data)]) == Put(Flat(parts), Offset(LensOf(parts), i) + off, data)
  {
    PutFrom(parts, 0, i, off, data);
  }

  /** All that a transfer touches: the segments as one stretch of memory, what was written, what is left to read. */
  datatype Io = Io(memory: seq<byte>, sink: seq<byte>, stream: seq<byte>)

  ghost function View(ch: Channel, iov: seq<array<byte>>): Io
    reads ch, iov
  {
    Io(Flat(Contents(iov)), ch.sink, ch.stream)
  }

  /** `r` bytes moved at offset `at` of the memory: out to the sink, or in from the stream. */
  function CallMoves(doWrite: bool, io: Io, at: nat, r: nat): Io
    requires at + r <= |io.memory| && (doWrite || r <= |io.stream|)
  {
    if doWrite then io.(sink := io.sink + Slice(io.memory, at, r))
    else Io(Put(io.memory, at, io.stream[..r]), io.sink, io.stream[r..])
  }

  /** Where the bytes of a transfer come from. */
  function Source(doWrite: bool, io: Io): seq<byte> { if doWrite then io.memory else io.stream }

  /** A whole transfer of `n` bytes: exactly the first `n`, in order, and nothing else. */
  function Moved(doWrite: bool, io: Io, n: nat): Io
    requires n <= |io.memory| && n <= |Source(doWrite, io)|
  {
    if doWrite then io.(sink := io.sink + io.memory[..n])
    else Io(Put(io.memory, 0, io.stream[..n]), io.sink, io.stream[n..])
  }

  lemma WriteGrows(sink: seq<byte>, memory: seq<byte>, n: nat, r: nat)
    requires n + r <= |memory|
    ensures sink + memory[..n] + Slice(memory, n, r) == sink + memory[..n + r]
  {
    assert memory[..n + r] == memory[..n] + Slice(memory, n, r);
  }

  lemma ReadGrows(memory: seq<byte>, stream: seq<byte>, n: nat, r: nat)
    requires n + r <= |memory| && n + r <= |stream|
    ensures Put(Put(memory, 0, stream[..n]), n, stream[n..][..r]) == Put(memory, 0, stream[..n + r])
    ensures stream[n..][r..] == stream[n + r..]
  {
  }

  lemma MovedMore(doWrite: bool, io: Io, n: nat, r: nat)
    requires n + r <= |io.memory| && n + r <= |Source(doWrite, io)|
    ensures CallMoves(doWrite, Moved(doWrite, io, n), n, r) == Moved(doWrite, io, n + r)
  {
    if doWrite { WriteGrows(io.sink, io.memory, n, r); } else { ReadGrows(io.memory, io.stream, n, r); }
  }

  /** What a call can move, seen from the call and from the whole transfer: the memory never caps a write. */
  lemma CountSame(doWrite: bool, io: Io, n: nat, want: nat, sched: Schedule)
    requires (sched != [] ==> sched[0].Upto?) && n + want <= |io.memory| && n <= |Source(doWrite, io)|
    ensures Count(want, |Source(doWrite, io)| - n, sched)
            == Count(want, if doWrite then want else |Moved(doWrite, io, n).stream|, sched)
  {
  }

  lemma RoomInView(ch: Channel, iov: seq<array<byte>>, i: nat)
    requires i < |iov|
    ensures Offset(Lens(iov), i) + iov[i].Length <= |View(ch, iov).memory|
  {
    assert LensOf(Contents(iov)) == Lens(iov);
    TotalFalls(Lens(iov), 0, i);
  }

  /** Both directions of one call. */
  method Call(ch: Channel, buf: array<byte>, off: nat, len: nat, doWrite: bool) returns (r: int, eintr: bool)
    requires off + len <= buf.Length
    modifies ch, buf
    ensures ch.sched == Tail(old(ch.sched))
    ensures eintr <==> old(ch.sched) != [] && old(ch.sched)[0].Interrupted?
    ensures r < 0 <==> old(ch.sched) != [] && !old(ch.sched)[0].Upto?
    ensures r >= 0 ==> r == Count(len, if doWrite then len else |old(ch.stream)|, old(ch.sched))
    ensures var n := if r < 0 then 0 else r;
            if doWrite then
              ch.sink == old(ch.sink) + Slice(old(buf[..]), off, n) && ch.stream == old(ch.stream) && buf[..] == old(buf[..])
            else
              && ch.sink == old(ch.sink) && n <= |old(ch.stream)| && ch.stream == old(ch.stream)[n..]
              && buf[..] == Put(old(buf[..]), off, old(ch.stream)[..n])
  {
    if doWrite {
      r, eintr := ch.Write(buf, off, len);
    } else {
      r, eintr := ch.Read(buf, off, len);
      assert r < 0 ==> buf[..] == Put(old(buf[..]), off, []);
    }
  }

  lemma CallEffect(doWrite: bool, parts: seq<seq<byte>>, sink: seq<byte>, stream: seq<byte>, i: nat, off: nat, r: nat)
    requires i < |parts| && off + r <= |parts[i]| && (doWrite || r <= |stream|)
    ensures var at := Offset(LensOf(parts), i) + off; var io := Io(Flat(parts), sink, stream);
            && at + r <= |Flat(parts)|
            && (doWrite ==> CallMoves(doWrite, io, at, r) == io.(sink := sink + Slice(parts[i], off, r)))
            && (!doWrite ==> CallMoves(doWrite, io, at, r)
                             == Io(Flat(parts[i := Put(parts[i], off, stream[..r])]), sink, stream[r..]))
  {
    if doWrite {
      FlatSlice(parts, i, off, r);
    } else {
      FlatPut(parts, i, off, stream[..r]);
    }
  }

  /** The call of the loop at offset `off` of segment `i`. */
  method CallAt(ch: Channel, iov: seq<array<byte>>, i: nat, off: nat, doWrite: bool) returns (r: int, eintr: bool)
    requires i < |iov| && off <= iov[i].Length
    requires !doWrite ==> forall j, k :: 0 <= j < k < |iov| ==> iov[j] != iov[k]
    modifies ch, iov[i]
    ensures ch.sched == Tail(old(ch.sched))
    ensures eintr <==> old(ch.sched) != [] && old(ch.sched)[0].Interrupted?
    ensures r < 0 <==> old(ch.sched) != [] && !old(ch.sched)[0].Upto?
    ensures var len, at := iov[i].Length - off, Offset(Lens(iov), i) + off;
            r >= 0 ==> r == Count(len, if doWrite then len else |old(ch.stream)|, old(ch.sched))
                       && at + r <= |old(View(ch, iov)).memory|
                       && View(ch, iov) == CallMoves(doWrite, old(View(ch, iov)), at, r)
    ensures r < 0 ==> View(ch, iov) == old(View(ch, iov))
  {
    ghost var was, sink, stream := Contents(iov), ch.sink, ch.stream;
    assert Lens(iov) == LensOf(was);
    r, eintr := Call(ch, iov[i], off, iov[i].Length - off, doWrite);
    ghost var part := if doWrite || r < 0 then was[i] else Put(was[i], off, stream[..r]);
    assert iov[i][..] == part;
    assert Contents(iov) == was[i := part];
    assert doWrite || r < 0 ==> was[i := part] == was;
    if r >= 0 { CallEffect(doWrite, was, sink, stream, i, off, r); }
  }

  /** The same call, seen from a transfer of the memory `was` that stands at `n` bytes. */
  method Transfer(ch: Channel, iov: seq<array<byte>>, i: nat, off: nat, doWrite: bool, ghost was: Io, ghost n: nat)
    returns (r: int, eintr: bool)
    requires i < |iov| && off <= iov[i].Length && n == Offset(Lens(iov), i) + off
    requires !doWrite ==> forall j, k :: 0 <= j < k < |iov| ==> iov[j] != iov[k]
    requires n <= |was.memory| && n <= |Source(doWrite, was)| && View(ch, iov) == Moved(doWrite, was, n)
    modifies ch, iov[i]
    ensures ch.sched == Tail(old(ch.sched))
    ensures eintr <==> old(ch.sched) != [] && old(ch.sched)[0].Interrupted?
    ensures r < 0 <==> old(ch.sched) != [] && !old(ch.sched)[0].Upto?
    ensures r >= 0 ==> r == Count(iov[i].Length - off, |Source(doWrite, was)| - n, old(ch.sched))
    ensures var m := if r < 0 then n else n + r;
            m <= |was.memory| && m <= |Source(doWrite, was)| && View(ch, iov) == Moved(doWrite, was, m)
  {
    ghost var sched, room := ch.sched, iov[i].Length - off;
    RoomInView(ch, iov, i);
    assert n + room <= |was.memory|;
    r, eintr := CallAt(ch, iov, i, off, doWrite);
    if r >= 0 {
      CountSame(doWrite, was, n, room, sched);
      MovedMore(doWrite, was, n, r);
    }
  }

  /** Where the loop goes after a call that moved `r > 0` bytes. */
  function Onward(lens: seq<nat>, p: Position, r: nat): Position
    requires p.i < |lens| && r <= p.avail
  {
    if p.off + r < lens[p.i] then Position(p.i, p.off + r, p.moved + r, p.avail - r, Tail(p.sched))
    else Position(p.i + 1, 0, p.moved + r, p.avail - r, Tail(p.sched))
  }

  /** The transfer stands at `pos`, and what is still to come completes it to `whole`. */
  ghost predicate Placed(lens: seq<nat>, whole: Result, pos: Position) {
    && InRange(lens, pos)
    && whole == Drive(lens, pos)
    && pos.moved == Offset(lens, pos.i) + pos.off
  }

  /** What the rest of the transfer is after a round, by the outcome of its call. */
  lemma PlaceAfter(lens: seq<nat>, whole: Result, p: Position, r: int, eintr: bool)
    requires Placed(lens, whole, p) && p.i < |lens|
    requires eintr <==> p.sched != [] && p.sched[0].Interrupted?
    requires r < 0 <==> p.sched != [] && !p.sched[0].Upto?
    requires r >= 0 ==> r == Count(lens[p.i] - p.off, p.avail, p.sched)
    ensures r > 0 ==> Placed(lens, whole, Onward(lens, p, r)) && Left(lens, Onward(lens, p, r)) == Left(lens, p) - r
    ensures eintr ==> Placed(lens, whole, p.(sched := Tail(p.sched)))
    ensures r == 0 ==> whole == Result(p.moved, p.moved, Tail(p.sched), NothingMoved)
    ensures r < 0 && !eintr ==> whole == Result(if p.moved == 0 then -1 else p.moved, p.moved, Tail(p.sched), Failed)
  {
    if r > 0 { assert OneRound(lens, p) == Go(Onward(lens, p, r)); }
    if eintr { assert OneRound(lens, p) == Go(p.(sched := Tail(p.sched))); }
  }

  /** The loop invariant, at `pos`: the right bytes have moved, and what is still to come completes `whole`. */
  ghost predicate Standing(ch: Channel, iov: seq<array<byte>>, doWrite: bool, was: Io, whole: Result, pos: Position)
    reads ch, iov
  {
    && Placed(Lens(iov), whole, pos) && pos.sched == ch.sched
    && pos.moved + Left(Lens(iov), pos) == |was.memory| && pos.moved + pos.avail == |Source(doWrite, was)|
    && View(ch, iov) == Moved(doWrite, was, pos.moved)
  }

  /** The transfer is over, with what `whole` says. */
  ghost predicate Complete(ch: Channel, iov: seq<array<byte>>, doWrite: bool, was: Io, whole: Result, ret: int)
    reads ch, iov
  {
    && ret == whole.ret && ch.sched == whole.rest
    && whole.moved <= |was.memory| && whole.moved <= |Source(doWrite, was)|
    && View(ch, iov) == Moved(doWrite, was, whole.moved)
  }

  /** The system call of one round, and where it takes the transfer. */
  method CallOnce(ch: Channel, iov: seq<array<byte>>, i: nat, off: nat, doWrite: bool,
                  ghost was: Io, ghost whole: Result, ghost pos: Position)
    returns (r: int, eintr: bool, ghost next: Position)
    requires Standing(ch, iov, doWrite, was, whole, pos) && pos.i == i < |iov| && pos.off == off
    requires !doWrite ==> forall j, k :: 0 <= j < k < |iov| ==> iov[j] != iov[k]
    modifies ch, iov
    ensures eintr ==> r < 0
    ensures r > 0 || eintr ==> Standing(ch, iov, doWrite, was, whole, next)
                               && (next.moved > pos.moved || (next.moved == pos.moved && |next.sched| < |pos.sched|))
    ensures r > 0 ==> next.moved == pos.moved + r
                      && (if off + r < iov[i].Length then next.i == i && next.off == off + r
                          else next.i == i + 1 && next.off == 0)
    ensures eintr ==> next.moved == pos.moved && next.i == i && next.off == off
    ensures r <= 0 && !eintr ==>
              Complete(ch, iov, doWrite, was, whole, if r < 0 && pos.moved == 0 then -1 else pos.moved)
  {
    r, eintr := Transfer(ch, iov, i, off, doWrite, was, pos.moved);
    PlaceAfter(Lens(iov), whole, pos, r, eintr);
    next := if r > 0 then Onward(Lens(iov), pos, r) else pos.(sched := Tail(pos.sched));
    assert r > 0 || eintr ==> next.moved == if r < 0 then pos.moved else pos.moved + r;
  }

  method UioImpl(ch: Channel, iov: seq<array<byte>>, doWrite: bool) returns (ret: int)
    requires !doWrite ==> forall i, j :: 0 <= i < j < |iov| ==> iov[i] != iov[j]
    modifies ch, iov
    ensures var was := old(View(ch, iov));
            var whole := Whole(Lens(iov), |Source(doWrite, was)|, old(ch.sched));
            Complete(ch, iov, doWrite, was, whole, ret)
  {
    var i, off := 0, 0;
    ret := 0;
    ghost var was := View(ch, iov);
    LensAdd(Contents(iov), iov);
    ghost var pos := Position(0, 0, 0, |Source(doWrite, was)|, ch.sched);
    ghost var whole := Drive(Lens(iov), pos);
    while i < |iov|
      invariant Standing(ch, iov, doWrite, was, whole, pos) && pos.i == i && pos.off == off && pos.moved == ret
      decreases |was.memory| - pos.moved, |pos.sched|
    {
      var r, eintr;
      r, eintr, pos := CallOnce(ch, iov, i, off, doWrite, was, whole, pos);
      if r > 0 {
        ret := ret + r;
        off := off + r;
        if off < iov[i].Length {
          continue;
        }
      } else if r == 0 {
        return;
      } else if eintr {
        continue;
      } else {
        if ret == 0 {
          ret := -1;
        }
        return;
      }
      off := 0;
      i := i + 1;
    }
  }

  lemma LensAdd(parts: seq<seq<byte>>, iov: seq<array<byte>>)
    requires LensOf(parts) == Lens(iov)
    ensures Total(Lens(iov), 0) == |Flat(parts)|
  {
  }

  lemma SameLensSameLength(parts: seq<seq<byte>>, other: seq<seq<byte>>)
    requires LensOf(parts) == LensOf(other)
    ensures |parts| == |other| && |Flat(parts)| == |Flat(other)|
  {
    assert |LensOf(parts)| == |parts| && |LensOf(other)| == |other|;
  }

  /** Equal concatenations of equally long segments are equal segment by segment. */
  lemma FlatDetermines(one: seq<seq<byte>>, two: seq<seq<byte>>)
    requires LensOf(one) == LensOf(two) && Flat(one) == Flat(two)
    ensures one == two
  {
    SameLensSameLength(one, two);
    forall i | 0 <= i < |one|
      ensures one[i] == two[i]
    {
      assert LensOf(one)[i] == LensOf(two)[i];
      forall k | 0 <= k < |one[i]|
        ensures one[i][k] == two[i][k]
      {
        ByteOfFlat(one, i, k);
        ByteOfFlat(two, i, k);
      }
    }
  }

  /** Byte `k` of segment `j` is the byte of the stream at its place, if `n` bytes got there; else as before. */
  ghost predicate ReadInto(before: seq<seq<byte>>, now: seq<seq<byte>>, stream: seq<byte>, n: nat) {
    && LensOf(now) == LensOf(before) && n <= |stream|
    && forall j, k :: 0 <= j < |now| && 0 <= k < |now[j]| ==> now[j][k] == ByteAfterRead(before, stream, n, j, k)
  }

  function ByteAfterRead(before: seq<seq<byte>>, stream: seq<byte>, n: nat, j: nat, k: nat): byte
    requires n <= |stream| && j < |before| && k < |before[j]|
  {
    var at := Offset(LensOf(before), j) + k;
    if at < n then stream[at] else before[j][k]
  }

  lemma BytesOfRead(before: seq<seq<byte>>, now: seq<seq<byte>>, stream: seq<byte>, n: nat)
    requires LensOf(now) == LensOf(before) && n <= |stream| && n <= |Flat(before)|
    requires Flat(now) == stream[..n] + Flat(before)[n..]
    ensures ReadInto(before, now, stream, n)
  {
    SameLensSameLength(before, now);
    forall j, k | 0 <= j < |now| && 0 <= k < |now[j]|
      ensures k < |before[j]| && now[j][k] == ByteAfterRead(before, stream, n, j, k)
    {
      assert LensOf(before)[j] == LensOf(now)[j];
      ByteOfFlat(before, j, k);
      ByteOfFlat(now, j, k);
    }
  }

  /** The bytes delivered are exactly the first `ret` of the concatenation, and no segment changes. */
  method Writev(ch: Channel, iov: seq<array<byte>>) returns (ret: int)
    modifies ch, iov
    ensures var r := Whole(Lens(iov), Total(Lens(iov), 0), old(ch.sched));
            && ret == r.ret && ch.sched == r.rest && r.moved <= |Flat(old(Contents(iov)))|
            && ch.sink == old(ch.sink) + Flat(old(Contents(iov)))[..r.moved]
    ensures Contents(iov) == old(Contents(iov)) && ch.stream == old(ch.stream)
  {
    ghost var before := Contents(iov);
    LensAdd(before, iov);
    ret := UioImpl(ch, iov, true);
    assert LensOf(Contents(iov)) == LensOf(before) == Lens(iov);
    FlatDetermines(Contents(iov), before);
  }

  /** The first `ret` bytes of the stream go, in order, across the segments; every later byte stays as it was. */
  method Readv(ch: Channel, iov: seq<array<byte>>) returns (ret: int)
    requires forall i, j :: 0 <= i < j < |iov| ==> iov[i] != iov[j]
    modifies ch, iov
    ensures var r := Whole(Lens(iov), |old(ch.stream)|, old(ch.sched));
            && ret == r.ret && ch.sched == r.rest && r.moved <= |old(ch.stream)|
            && ch.stream == old(ch.stream)[r.moved..] && ch.sink == old(ch.sink)
            && ReadInto(old(Contents(iov)), Contents(iov), old(ch.stream), r.moved)
  {
    ghost var before, stream := Contents(iov), ch.stream;
    ghost var n := Whole(Lens(iov), |stream|, ch.sched).moved;
    ret := UioImpl(ch, iov, false);
    assert LensOf(Contents(iov)) == LensOf(before) == Lens(iov);
    BytesOfRead(before, Contents(iov), stream, n);
  }

  method WriteAll(from: seq<array<byte>>, sched: Schedule) returns (sent: seq<byte>)
    requires NothingBehindEmpty(Lens(from)) && Clean(sched)
    modifies from
    ensures sent == Flat(old(Contents(from))) && Contents(from) == old(Contents(from))
  {
    ghost var source := Contents(from);
    LensAdd(source, from);
    FullTransferIff(Lens(from), Total(Lens(from), 0), sched);
    var ch := new Channel([], sched);
    var n := Writev(ch, from);
    sent := ch.sink;
  }

  method ReadAll(stream: seq<byte>, to: seq<array<byte>>, sched: Schedule)
    requires forall i, j :: 0 <= i < j < |to| ==> to[i] != to[j]
    requires NothingBehindEmpty(Lens(to)) && Clean(sched) && Total(Lens(to), 0) == |stream|
    modifies to
    ensures Flat(Contents(to)) == stream
  {
    LensAdd(Contents(to), to);
    FullTransferIff(Lens(to), |stream|, sched);
    var ch := new Channel(stream, sched);
    var n := UioImpl(ch, to, false);
  }

  /**
   What one side writes the other reads, whatever the two segmentations and however either transfer is chopped
   up or interrupted.
   */
  method WriteThenRead(from: seq<array<byte>>, to: seq<array<byte>>, ws: Schedule, rs: Schedule)
    requires forall i, j :: 0 <= i < j < |to| ==> to[i] != to[j]
    requires NothingBehindEmpty(Lens(from)) && NothingBehindEmpty(Lens(to))
    requires Total(Lens(from), 0) == Total(Lens(to), 0) && Clean(ws) && Clean(rs)
    modifies from, to
    ensures Flat(Contents(to)) == Flat(old(Contents(from)))
  {
    LensAdd(Contents(from), from);
    var sent := WriteAll(from, ws);
    ReadAll(sent, to, rs);
  }
}
