// The single-producer/single-consumer rings of lib_csd/circular_buffer.cpp.
// Head and tail are plain fields (the atomics and their memory orders are
// left out); `uhd::time_spec_t` is a real number of seconds.
module CircularBuffers {
  import opened Common

  type Packet = seq<Complex>

  /** A ring of packets with their start times; one slot is always left
      free, so `head == tail` means empty. */
  class CircularBuffer {
    var packetBuffer: seq<Packet>
    var timeBuffer: seq<real>
    var capacity: nat
    var head: nat
    var tail: nat

    predicate Valid()
      reads this
    {
      0 < capacity && |packetBuffer| == capacity && |timeBuffer| == capacity
      && head < capacity && tail < capacity
    }

    /** The number of packets held: never more than capacity - 1. */
    function Count(): (n: nat)
      reads this
      requires Valid()
      ensures n < capacity
    {
      Wrap(head + capacity - tail, capacity)
    }

    /** The packets held, oldest first. */
    function Contents(): seq<(Packet, real)>
      reads this
      requires Valid()
    {
      Zip(Window(packetBuffer, tail, Count()), Window(timeBuffer, tail, Count()))
    }

    constructor (cap: nat)
      requires 0 < cap
      ensures Valid() && capacity == cap && Contents() == []
    {
      capacity := cap;
      packetBuffer := seq(cap, _ => []);
      timeBuffer := seq(cap, _ => 0.0);
      head, tail := 0, 0;
    }

    /** push: refused, changing nothing, exactly when the ring is full;
        otherwise the packet is stored at the old head and head advances. */
    method Push(packet: Packet, startTime: real) returns (ok: bool)
      requires Valid()
      modifies this
      ensures Valid() && capacity == old(capacity) && tail == old(tail)
      ensures ok <==> (old(head) + 1) % capacity != tail
      ensures ok <==> old(Count()) < capacity - 1
      ensures ok ==> Contents() == old(Contents()) + [(packet, startTime)]
                     && head == (old(head) + 1) % capacity
                     && packetBuffer[old(head)] == packet && timeBuffer[old(head)] == startTime
      ensures !ok ==> head == old(head) && packetBuffer == old(packetBuffer) && timeBuffer == old(timeBuffer)
    {
      var currentHead := head;
      ModWrap(currentHead + 1, capacity);
      var nextHead := (currentHead + 1) % capacity;
      if nextHead == tail {
        return false;
      }
      ghost var n := Count();
      ghost var pb, tb := packetBuffer, timeBuffer;
      packetBuffer := packetBuffer[currentHead := packet];
      timeBuffer := timeBuffer[currentHead := startTime];
      head := nextHead;
      assert Count() == n + 1;
      AppendWindow(pb, packetBuffer, tail, currentHead, n, [packet]);
      AppendWindow(tb, timeBuffer, tail, currentHead, n, [startTime]);
      ZipAppend(Window(pb, tail, n), Window(tb, tail, n), packet, startTime);
      return true;
    }

    /** pop: refused exactly when the ring is empty; otherwise yields the
        oldest packet and advances tail. */
    method Pop() returns (r: Option<(Packet, real)>)
      requires Valid()
      modifies this`tail
      ensures Valid()
      ensures r.None? <==> old(head) == old(tail)
      ensures r.None? <==> old(Contents()) == []
      ensures r.None? ==> tail == old(tail)
      ensures r.Some? ==> r.value == old(Contents())[0] && Contents() == old(Contents())[1..]
                          && tail == (old(tail) + 1) % capacity
    {
      var currentTail := tail;
      if currentTail == head {
        return None;
      }
      ghost var n := Count();
      r := Some((packetBuffer[currentTail], timeBuffer[currentTail]));
      ModWrap(currentTail + 1, capacity);
      tail := (currentTail + 1) % capacity;
      assert Count() == n - 1;
      DropWindow(packetBuffer, currentTail, n);
      DropWindow(timeBuffer, currentTail, n);
      ZipDrop(Window(packetBuffer, currentTail, n), Window(timeBuffer, currentTail, n));
    }

    /** reset: empty, with the storage kept. */
    method Reset()
      requires Valid()
      modifies this`head, this`tail
      ensures Valid() && head == 0 && tail == 0 && Contents() == []
    {
      head, tail := 0, 0;
    }

    /** clear as written: the storage vectors are emptied while the
        capacity stays, so the slot the next push writes no longer exists. */
    method ClearAsWritten()
      requires Valid()
      modifies this
      ensures head == 0 && tail == 0 && capacity == old(capacity)
      ensures packetBuffer == [] && timeBuffer == []
      ensures !Valid() && head >= |packetBuffer|
    {
      packetBuffer := [];
      timeBuffer := [];
      head, tail := 0, 0;
    }

    /** clear as intended: every slot emptied, `capacity` slots kept. */
    method Clear()
      requires Valid()
      modifies this
      ensures Valid() && capacity == old(capacity) && Contents() == []
      ensures forall i :: 0 <= i < capacity ==> packetBuffer[i] == [] && timeBuffer[i] == 0.0
    {
      packetBuffer := seq(capacity, _ => []);
      timeBuffer := seq(capacity, _ => 0.0);
      head, tail := 0, 0;
    }
  }

  /** The n slots of a ring from `start` on, going round. */
  function Window<T>(buf: seq<T>, start: nat, n: nat): (r: seq<T>)
    requires start < |buf| && n <= |buf|
    ensures |r| == n && forall i :: 0 <= i < n ==> r[i] == buf[Wrap(start + i, |buf|)]
  {
    seq(n, i requires 0 <= i < n => buf[Wrap(start + i, |buf|)])
  }

  function Zip<A, B>(a: seq<A>, b: seq<B>): (r: seq<(A, B)>)
    requires |a| == |b|
    ensures |r| == |a| && forall i :: 0 <= i < |a| ==> r[i] == (a[i], b[i])
  {
    seq(|a|, i requires 0 <= i < |a| => (a[i], b[i]))
  }

  lemma ZipAppend<A, B>(a: seq<A>, b: seq<B>, x: A, y: B)
    requires |a| == |b|
    ensures Zip(a + [x], b + [y]) == Zip(a, b) + [(x, y)]
  {
  }

  lemma ZipDrop<A, B>(a: seq<A>, b: seq<B>)
    requires |a| == |b| && a != []
    ensures Zip(a[1..], b[1..]) == Zip(a, b)[1..]
  {
  }

  /** Writing `vec` into the slots after the window, with room to spare,
      extends the window by `vec`. */
  lemma AppendWindow<T>(before: seq<T>, after: seq<T>, tail: nat, h0: nat, n: nat, vec: seq<T>)
    requires 0 < |before| == |after| && tail < |before| && h0 < |before|
    requires n + |vec| <= |before| - 1 && h0 == Wrap(tail + n, |before|)
    requires forall j :: 0 <= j < |after| ==>
               after[j] == (if Offset(j, h0, |after|) < |vec| then vec[Offset(j, h0, |after|)] else before[j])
    ensures Window(after, tail, n + |vec|) == Window(before, tail, n) + vec
  {
    var cap := |before|;
    forall i | 0 <= i < n + |vec|
      ensures Window(after, tail, n + |vec|)[i] == (Window(before, tail, n) + vec)[i]
    {
      var j := Wrap(tail + i, cap);
      if i < n {
        assert Offset(j, h0, cap) >= |vec|;
      } else {
        assert Offset(j, h0, cap) == i - n;
      }
    }
  }

  /** Advancing the start by one drops the oldest slot of the window. */
  lemma DropWindow<T>(buf: seq<T>, start: nat, n: nat)
    requires start < |buf| && 0 < n <= |buf|
    ensures Window(buf, Wrap(start + 1, |buf|), n - 1) == Window(buf, start, n)[1..]
  {
    var a := Window(buf, Wrap(start + 1, |buf|), n - 1);
    var b := Window(buf, start, n);
    forall i | 0 <= i < n - 1 ensures a[i] == b[1..][i] {
      assert Wrap(Wrap(start + 1, |buf|) + i, |buf|) == Wrap(start + i + 1, |buf|);
    }
  }

  /** The ring `buf` is `orig` with src[..k] written from slot h0 on. */
  ghost predicate WrittenFrom<T>(buf: seq<T>, orig: seq<T>, h0: nat, src: seq<T>, k: nat)
    requires |buf| == |orig| && h0 < |buf| && k <= |src|
  {
    forall j :: 0 <= j < |buf| ==>
      buf[j] == (if Offset(j, h0, |buf|) < k then src[Offset(j, h0, |buf|)] else orig[j])
  }

  /** Writing src[k] at the next slot extends the written prefix by one. */
  lemma WrittenStep<T>(buf: seq<T>, orig: seq<T>, h0: nat, src: seq<T>, k: nat)
    requires |buf| == |orig| && h0 < |buf| && k < |src| && k < |buf|
    requires WrittenFrom(buf, orig, h0, src, k)
    ensures WrittenFrom(buf[Wrap(h0 + k, |buf|) := src[k]], orig, h0, src, k + 1)
  {
    var cap := |buf|;
    var h := Wrap(h0 + k, cap);
    assert Offset(h, h0, cap) == k;
    forall j | 0 <= j < cap && j != h
      ensures Offset(j, h0, cap) != k
    {
    }
  }

  /** How far slot j lies after slot `start`, going round the ring. */
  function Offset(j: nat, start: nat, cap: nat): (r: nat)
    requires j < cap && start < cap
    ensures r < cap
  {
    Wrap(j + cap - start, cap)
  }

  /** A ring of correlation samples that marks the first sample of each
      pushed vector and queues its start time. */
  class CrossCorrBuffer {
    var corrBuffer: seq<Complex>
    var timerBoolBuffer: seq<bool>
    var timerStorage: seq<real>
    var capacity: nat
    var head: nat
    var tail: nat

    predicate Valid()
      reads this
    {
      0 < capacity && |corrBuffer| == capacity && |timerBoolBuffer| == capacity
      && head < capacity && tail < capacity
    }

    function Used(): (n: nat)
      reads this
      requires Valid()
      ensures n < capacity
    {
      Wrap(head + capacity - tail, capacity)
    }

    /** The samples held, oldest first. */
    function Data(): seq<Complex>
      reads this
      requires Valid()
    {
      Window(corrBuffer, tail, Used())
    }

    /** The constructor: `timer_storage(storage_size)` starts with that
        many default (zero) times. */
    constructor (cap: nat, storageSize: nat)
      requires 0 < cap
      ensures Valid() && capacity == cap && head == 0 && tail == 0
      ensures timerStorage == seq(storageSize, _ => 0.0)
    {
      capacity := cap;
      corrBuffer := seq(cap, _ => Zero);
      timerBoolBuffer := seq(cap, _ => false);
      timerStorage := seq(storageSize, _ => 0.0);
      head, tail := 0, 0;
    }

    /** not_enough_space as written: `(tail + capacity - head) % capacity`
        is the free space it assumes, which is 0 on an empty ring. */
    function NotEnoughSpace(size: nat): bool
      reads this
      requires Valid()
    {
      (tail + capacity - head) % capacity < size
    }

    function NotEnoughData(size: nat): (r: bool)
      reads this
      requires Valid()
      ensures r <==> Used() < size
    {
      ModWrap(head + capacity - tail, capacity);
      (head + capacity - tail) % capacity < size
    }

    /** not_enough_space with the free space a ring that keeps one slot
        open has: capacity - 1 - Used(). */
    function NotEnoughSpaceFixed(size: nat): (r: bool)
      reads this
      requires Valid()
      ensures r <==> Used() + size > capacity - 1
    {
      ModWrap(tail + capacity - head - 1, capacity);
      ModWrap(head + capacity - tail, capacity);
      (tail + capacity - head - 1) % capacity < size
    }

    /** The writes of push once space is granted: every sample goes in from
        head on, only the first is flagged as a timer sample, and the other
        slots keep their contents. */
    method WriteSamples(vec: seq<Complex>)
      requires Valid() && |vec| < capacity
      modifies this`corrBuffer, this`timerBoolBuffer, this`head
      ensures Valid() && head == (old(head) + |vec|) % capacity
      ensures forall j :: 0 <= j < capacity ==>
                corrBuffer[j] == (if Offset(j, old(head), capacity) < |vec| then vec[Offset(j, old(head), capacity)]
                                  else old(corrBuffer[j]))
      ensures forall j :: 0 <= j < capacity ==>
                timerBoolBuffer[j] == (if Offset(j, old(head), capacity) < |vec| then Offset(j, old(head), capacity) == 0
                                       else old(timerBoolBuffer[j]))
    {
      var h0 := head;
      ghost var flags := seq(|vec|, i requires 0 <= i < |vec| => i == 0);
      var firstSamp := true;
      var k := 0;
      while k < |vec|
        invariant 0 <= k <= |vec| && Valid()
        invariant head == Wrap(h0 + k, capacity)
        invariant firstSamp <==> k == 0
        invariant WrittenFrom(corrBuffer, old(corrBuffer), h0, vec, k)
        invariant WrittenFrom(timerBoolBuffer, old(timerBoolBuffer), h0, flags, k)
      {
        var currentHead := head;
        WrittenStep(corrBuffer, old(corrBuffer), h0, vec, k);
        WrittenStep(timerBoolBuffer, old(timerBoolBuffer), h0, flags, k);
        corrBuffer := corrBuffer[currentHead := vec[k]];
        timerBoolBuffer := timerBoolBuffer[currentHead := firstSamp];
        firstSamp := false;
        ModWrap(currentHead + 1, capacity);
        head := (currentHead + 1) % capacity;
        k := k + 1;
      }
      ModWrap(h0 + |vec|, capacity);
    }

    /** push as written: refused when `not_enough_space` says so; otherwise
        the start time is queued and the samples written. */
    method PushAsWritten(vec: seq<Complex>, startTime: real) returns (ok: bool)
      requires Valid()
      modifies this
      ensures Valid() && capacity == old(capacity) && tail == old(tail)
      ensures ok <==> !old(NotEnoughSpace(|vec|))
      ensures !ok ==> head == old(head) && corrBuffer == old(corrBuffer) && timerStorage == old(timerStorage)
      ensures ok ==> timerStorage == old(timerStorage) + [startTime] && head == (old(head) + |vec|) % capacity
    {
      if NotEnoughSpace(|vec|) {
        return false;
      }
      ModWrap(tail + capacity - head, capacity);
      timerStorage := timerStorage + [startTime];
      WriteSamples(vec);
      return true;
    }

    /** push with the corrected space test: granted exactly when the samples
        fit in the free slots, and then they are appended to the data. */
    method Push(vec: seq<Complex>, startTime: real) returns (ok: bool)
      requires Valid()
      modifies this
      ensures Valid() && capacity == old(capacity) && tail == old(tail)
      ensures ok <==> old(Used()) + |vec| <= capacity - 1
      ensures !ok ==> head == old(head) && corrBuffer == old(corrBuffer) && timerStorage == old(timerStorage)
      ensures ok ==> Data() == old(Data()) + vec && timerStorage == old(timerStorage) + [startTime]
                     && (vec != [] ==> timerBoolBuffer[old(head)])
    {
      if NotEnoughSpaceFixed(|vec|) {
        return false;
      }
      ghost var n := Used();
      ghost var h0 := head;
      ghost var cb := corrBuffer;
      timerStorage := timerStorage + [startTime];
      WriteSamples(vec);
      ModWrap(h0 + |vec|, capacity);
      assert Used() == n + |vec|;
      AppendWindow(cb, corrBuffer, tail, h0, n, vec);
      return true;
    }
  }

  /** As written, an empty ring refuses every non-empty vector: the free
      space it computes for head == tail is 0. Since only a push moves
      head, a ring fresh from the constructor never stores a sample. */
  lemma EmptyRingRefusesPush(b: CrossCorrBuffer, n: nat)
    requires b.Valid() && b.head == b.tail && n >= 1
    ensures b.NotEnoughSpace(n)
    ensures !b.NotEnoughSpaceFixed(n) || n > b.capacity - 1
  {
  }
}
