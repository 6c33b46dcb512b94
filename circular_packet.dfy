// The packet ring of lib_csd/circular_packet.cpp: like `CircularBuffer`,
// but indices advance with the mask `(i + 1) & (capacity - 1)`, which is
// the increment modulo capacity only for a power-of-two capacity.
module CircularPackets {
  import opened Common
  import opened CircularBuffers

  /** Bitwise AND on naturals. */
  function BitAnd(a: nat, b: nat): nat
  {
    if a == 0 || b == 0 then 0
    else 2 * BitAnd(a / 2, b / 2) + (if a % 2 == 1 && b % 2 == 1 then 1 else 0)
  }

  function Pow2(k: nat): (r: nat)
    ensures r >= 1
  {
    if k == 0 then 1 else 2 * Pow2(k - 1)
  }

  ghost predicate IsPow2(n: nat)
  {
    exists k: nat :: Pow2(k) == n
  }

  /** A masked index never exceeds the mask. */
  lemma {:induction false} BitAndAtMost(a: nat, b: nat)
    ensures BitAnd(a, b) <= b
  {
    if a != 0 && b != 0 {
      BitAndAtMost(a / 2, b / 2);
    }
  }

  /** Masking with 2^k - 1 keeps every index below 2^k and sends 2^k to
      0: on ring indices, the mask is the increment modulo 2^k. */
  lemma {:induction false} MaskBelow(x: nat, k: nat)
    requires x <= Pow2(k)
    ensures BitAnd(x, Pow2(k) - 1) == if x == Pow2(k) then 0 else x
  {
    if k > 0 && x > 0 {
      var h := Pow2(k - 1);
      assert (Pow2(k) - 1) / 2 == h - 1 && (Pow2(k) - 1) % 2 == 1;
      MaskBelow(x / 2, k - 1);
    }
  }

  /** The masked successor stays in range, and for a power of two it is
      the successor modulo the capacity. */
  lemma MaskedSuccessor(i: nat, cap: nat)
    requires i < cap
    ensures BitAnd(i + 1, cap - 1) < cap
    ensures IsPow2(cap) ==> BitAnd(i + 1, cap - 1) == Wrap(i + 1, cap)
  {
    BitAndAtMost(i + 1, cap - 1);
    if IsPow2(cap) {
      var k: nat :| Pow2(k) == cap;
      MaskBelow(i + 1, k);
    }
  }

  /** With a capacity of 3 the mask is 2, and the slot after 0 comes out as
      0 again: an empty ring of capacity 3 refuses its first push. */
  lemma MaskOfThree()
    ensures BitAnd(0 + 1, 3 - 1) == 0
    ensures (0 + 1) % 3 == 1
  {
  }

  /** get_sample_time: the time of the sample at `index` in a packet whose
      first sample was taken at `first`. */
  function SampleTime(first: real, index: int, duration: real): (t: real)
    ensures index == 0 ==> t == first
  {
    first + index as real * duration
  }

  /** Successive samples lie one sample duration apart. */
  lemma SampleTimeStep(first: real, index: int, duration: real)
    ensures SampleTime(first, index + 1, duration) == SampleTime(first, index, duration) + duration
    ensures duration > 0.0 ==> SampleTime(first, index, duration) < SampleTime(first, index + 1, duration)
  {
  }

  class CircularPacket {
    var packetBuffer: seq<Packet>
    var timeSpecs: seq<real>
    var capacity: nat
    var head: nat
    var tail: nat

    predicate Valid()
      reads this
    {
      0 < capacity && |packetBuffer| == capacity && |timeSpecs| == capacity
      && head < capacity && tail < capacity
    }

    /** The masked successor of an index. */
    function Next(i: nat): (r: nat)
      reads this
      requires Valid() && i < capacity
      ensures r < capacity
      ensures IsPow2(capacity) ==> r == Wrap(i + 1, capacity)
    {
      MaskedSuccessor(i, capacity);
      BitAnd(i + 1, capacity - 1)
    }

    function Count(): (n: nat)
      reads this
      requires Valid()
      ensures n < capacity
    {
      Wrap(head + capacity - tail, capacity)
    }

    /** The packets held, oldest first (a FIFO reading that is meaningful for
        a power-of-two capacity). */
    function Contents(): seq<(Packet, real)>
      reads this
      requires Valid()
    {
      Zip(Window(packetBuffer, tail, Count()), Window(timeSpecs, tail, Count()))
    }

    /** is_empty. */
    function IsEmpty(): (r: bool)
      reads this
      requires Valid()
      ensures r <==> head == tail
      ensures r <==> Contents() == []
    {
      head == tail
    }

    constructor (cap: nat)
      requires 0 < cap
      ensures Valid() && capacity == cap && head == 0 && tail == 0 && Contents() == []
    {
      capacity := cap;
      packetBuffer := seq(cap, _ => []);
      timeSpecs := seq(cap, _ => 0.0);
      head, tail := 0, 0;
    }

    /** push: refused, with nothing written, when the masked next head is
        tail; otherwise the packet goes to the old head and head moves to
        the masked next slot. For a power-of-two capacity this is the FIFO
        append of `CircularBuffer`. */
    method Push(packet: Packet, timeFirstSample: real) returns (ok: bool)
      requires Valid()
      modifies this
      ensures Valid() && capacity == old(capacity) && tail == old(tail)
      ensures ok <==> old(Next(head)) != tail
      ensures !ok ==> head == old(head) && packetBuffer == old(packetBuffer) && timeSpecs == old(timeSpecs)
      ensures ok ==> head == old(Next(head))
                     && packetBuffer == old(packetBuffer)[old(head) := packet]
                     && timeSpecs == old(timeSpecs)[old(head) := timeFirstSample]
      ensures ok && IsPow2(capacity) ==> Contents() == old(Contents()) + [(packet, timeFirstSample)]
      ensures IsPow2(capacity) ==> (ok <==> old(Count()) < capacity - 1)
    {
      var currentHead := head;
      var nextHead := Next(currentHead);
      if nextHead == tail {
        return false;
      }
      ghost var n := Count();
      ghost var pb, ts := packetBuffer, timeSpecs;
      packetBuffer := packetBuffer[currentHead := packet];
      timeSpecs := timeSpecs[currentHead := timeFirstSample];
      head := nextHead;
      if IsPow2(capacity) {
        assert Count() == n + 1;
        AppendWindow(pb, packetBuffer, tail, currentHead, n, [packet]);
        AppendWindow(ts, timeSpecs, tail, currentHead, n, [timeFirstSample]);
        ZipAppend(Window(pb, tail, n), Window(ts, tail, n), packet, timeFirstSample);
      }
      return true;
    }

    /** pop: refused exactly when head == tail; otherwise yields the slot at
        tail and moves tail to the masked next slot. */
    method Pop() returns (r: Option<(Packet, real)>)
      requires Valid()
      modifies this`tail
      ensures Valid()
      ensures r.None? <==> old(head) == old(tail)
      ensures r.None? ==> tail == old(tail)
      ensures r.Some? ==> r.value == (packetBuffer[old(tail)], timeSpecs[old(tail)]) && tail == old(Next(tail))
      ensures r.Some? && IsPow2(capacity) ==> r.value == old(Contents())[0] && Contents() == old(Contents())[1..]
    {
      var currentTail := tail;
      if currentTail == head {
        return None;
      }
      ghost var n := Count();
      r := Some((packetBuffer[currentTail], timeSpecs[currentTail]));
      tail := Next(currentTail);
      if IsPow2(capacity) {
        assert Count() == n - 1;
        DropWindow(packetBuffer, currentTail, n);
        DropWindow(timeSpecs, currentTail, n);
        ZipDrop(Window(packetBuffer, currentTail, n), Window(timeSpecs, currentTail, n));
      }
    }

    /** reset: empty, storage kept. */
    method Reset()
      requires Valid()
      modifies this`head, this`tail
      ensures Valid() && head == 0 && tail == 0 && IsEmpty() && Contents() == []
    {
      head, tail := 0, 0;
    }

    /** clear: head and tail back to 0 and both storage vectors emptied,
        with the capacity kept — the same state `CircularBuffer.ClearAsWritten`
        leaves, in which the next push would write past the storage. */
    method Clear()
      requires Valid()
      modifies this
      ensures head == 0 && tail == 0 && capacity == old(capacity)
      ensures packetBuffer == [] && timeSpecs == [] && !Valid()
    {
      packetBuffer := [];
      timeSpecs := [];
      head, tail := 0, 0;
    }
  }

  /** The refusal of `MaskOfThree`, on the ring itself. */
  lemma FreshRingOfThreeIsFull(r: CircularPacket)
    requires r.Valid() && r.capacity == 3 && r.head == 0 && r.tail == 0
    ensures r.Next(r.head) == r.tail
  {
  }
}
