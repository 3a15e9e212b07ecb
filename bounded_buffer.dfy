/** The fixed-capacity ring buffer of news_broadcasting.c (BoundedBuffer). Each producer owns
    one, and the three co-editors share one with the screen manager. The semaphores `empty`
    and `full` only make a caller wait until there is room or there is a message; in this
    sequential model that waiting is the precondition `count < size` or `count > 0`. */
module BoundedBuffers {
  import opened Messages

  /** Slot k of a ring of n slots, for 0 <= k < 2 * n: the value of k % n without division. */
  function Wrap(k: int, n: int): int
  {
    if k < n then k else k - n
  }

  lemma WrapIsMod(k: int, n: int)
    requires 0 <= k < 2 * n
    ensures k % n == Wrap(k, n)
  {
    if k >= n {
      assert k - n < n;
      assert (k - n) % n == k - n;
    }
  }

  class BoundedBuffer {
    const buffer: array<Msg>
    const size: int
    var count: int
    var out: int
    /** The source's field `in` (a keyword in Dafny): the slot written last. */
    var inn: int
    /** The messages in the buffer, oldest first. */
    ghost var Contents: seq<Msg>

    /** `count` messages sit in the slots out, out + 1, ... (modulo size), and `in` is the slot
        just before the next free one: (in + 1) % size == (out + count) % size. */
    ghost predicate Valid()
      reads this, buffer
    {
      buffer.Length == size && 0 <= count <= size && |Contents| == count &&
      (size == 0 ==> out == 0 && inn == -1) &&
      (size > 0 ==>
        0 <= out < size && -1 <= inn < size &&
        Wrap(inn + 1, size) == Wrap(out + count, size) &&
        forall j :: 0 <= j < count ==> Contents[j] == buffer[Wrap(out + j, size)])
    }

    /** createBoundedBuffer: `size` slots, empty, with out = 0 and in = -1. */
    constructor (size: int)
      requires size >= 0
      ensures Valid() && fresh(buffer)
      ensures this.size == size && count == 0 && out == 0 && inn == -1
      ensures Contents == []
    {
      buffer := new Msg[size];
      this.size := size;
      count := 0;
      out := 0;
      inn := -1;
      Contents := [];
    }

    /** insertBounded: writes the message into slot (in + 1) % size, which becomes `in`, and
        counts it; no other slot changes. The caller waits (here: must ensure) until a slot is free. */
    method Insert(message: Msg)
      requires Valid() && count < size
      modifies this, buffer
      ensures Valid()
      ensures Contents == old(Contents) + [message]
      ensures inn == (old(inn) + 1) % size && buffer[inn] == message
      ensures count == old(count) + 1 && out == old(out)
      ensures forall k :: 0 <= k < size && k != inn ==> buffer[k] == old(buffer[k])
    {
      WrapIsMod(inn + 1, size);
      inn := (inn + 1) % size;
      buffer[inn] := message;
      count := count + 1;
      Contents := Contents + [message];
    }

    /** removeBounded: returns the message in slot `out`, moves `out` to (out + 1) % size and
        uncounts it; the slots are not touched. The caller waits (here: must ensure) until a
        message is there. */
    method Remove() returns (message: Msg)
      requires Valid() && count > 0
      modifies this
      ensures Valid()
      ensures message == buffer[old(out)] && message == old(Contents)[0]
      ensures Contents == old(Contents)[1..]
      ensures out == (old(out) + 1) % size && count == old(count) - 1 && inn == old(inn)
      ensures unchanged(buffer)
    {
      message := buffer[out];
      WrapIsMod(out + 1, size);
      out := (out + 1) % size;
      count := count - 1;
      Contents := Contents[1..];
      forall j | 0 <= j < count
        ensures Contents[j] == buffer[Wrap(out + j, size)]
      {
        assert Contents[j] == old(Contents)[j + 1];
      }
    }
  }

  /** First in, first out: after inserting a and b into an empty buffer with two free slots,
      the buffer hands them back as a, then b. */
  method FifoExample(a: Msg, b: Msg) returns (first: Msg, second: Msg)
    ensures first == a && second == b
  {
    var q := new BoundedBuffer(2);
    q.Insert(a);
    q.Insert(b);
    first := q.Remove();
    second := q.Remove();
  }
}
