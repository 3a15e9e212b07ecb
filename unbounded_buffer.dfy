/** The growable queue of news_broadcasting.c (UnboundedBuffer) between the dispatcher and the
    three co-editors. Its storage is re-allocated to in + 1 slots on every insert and read from
    `out` upward; nothing wraps around and no consumed slot is ever reclaimed. The semaphore
    `full` only makes a remover wait until a message is there: here the precondition count > 0. */
module UnboundedBuffers {
  import opened Messages

  /** realloc(s, n): n slots, of which the first min(|s|, n) keep their messages; slots added at
      the end hold an arbitrary value (Done) that is overwritten before it is ever read. */
  function Realloc(s: seq<Msg>, n: nat): (r: seq<Msg>)
    ensures |r| == n
    ensures forall k :: 0 <= k < n && k < |s| ==> r[k] == s[k]
  {
    if n <= |s| then s[..n] else s + seq(n - |s|, _ => Done)
  }

  class UnboundedBuffer {
    /** The realloc'd array of message pointers. */
    var slots: seq<Msg>
    var count: int
    var out: int
    /** The source's field `in` (a keyword in Dafny): the slot written last. */
    var inn: int
    /** The messages in the buffer, oldest first. */
    ghost var Contents: seq<Msg>

    /** The messages waiting are the slots out .. in, so in + 1 == out + count; the storage has
        in + 1 slots, or the single slot allocated at creation while nothing has been inserted. */
    ghost predicate Valid()
      reads this
    {
      0 <= out && 0 <= count && inn + 1 == out + count &&
      |slots| == (if inn == -1 then 1 else inn + 1) &&
      Contents == slots[out..inn + 1]
    }

    /** createUnboundedBuffer: one slot, empty, with out = 0 and in = -1. */
    constructor ()
      ensures Valid()
      ensures count == 0 && out == 0 && inn == -1 && |slots| == 1
      ensures Contents == []
    {
      slots := [Done];
      count := 0;
      out := 0;
      inn := -1;
      Contents := [];
    }

    /** insertUnbounded: never waits; grows the storage to in + 1 slots after advancing `in`,
        writes the message into slot `in` and counts it. Slots before it are left as they were. */
    method Insert(message: Msg)
      requires Valid()
      modifies this
      ensures Valid()
      ensures Contents == old(Contents) + [message]
      ensures inn == old(inn) + 1 && count == old(count) + 1 && out == old(out)
      ensures |slots| == inn + 1 && slots[inn] == message
      ensures slots[..inn] == old(slots)[..inn]
    {
      inn := inn + 1;
      slots := Realloc(slots, inn + 1);
      slots := slots[inn := message];
      count := count + 1;
      Contents := Contents + [message];
      assert slots[out..inn + 1] == old(slots)[out..inn] + [message];
    }

    /** removeUnbounded: returns the message in slot `out`, advances `out` and uncounts it; the
        slot is not reclaimed. The caller waits (here: must ensure) until a message is there. */
    method Remove() returns (message: Msg)
      requires Valid() && count > 0
      modifies this
      ensures Valid()
      ensures out == old(out) + 1 && count == old(count) - 1 && inn == old(inn)
      ensures slots == old(slots)
      ensures message == slots[old(out)] && message == old(Contents)[0]
      ensures Contents == old(Contents)[1..]
    {
      message := slots[out];
      out := out + 1;
      count := count - 1;
      Contents := Contents[1..];
    }
  }

  /** First in, first out, with no capacity limit: three messages in, the same three out in order. */
  method FifoExample(a: Msg, b: Msg, c: Msg) returns (first: Msg, second: Msg, third: Msg)
    ensures first == a && second == b && third == c
  {
    var q := new UnboundedBuffer();
    q.Insert(a);
    q.Insert(b);
    first := q.Remove();
    q.Insert(c);
    second := q.Remove();
    third := q.Remove();
  }
}
