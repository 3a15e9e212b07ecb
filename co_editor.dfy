/** runCoEditorThread: a co-editor takes the messages of one category from its dispatcher
    queue and passes each one on, unchanged and in order, to the queue shared with the screen
    manager; it passes on the first "DONE" as well and then stops. The editing delay
    (sleep(0.1), truncated to sleep(0)) has no effect on what is forwarded. */
module CoEditor {
  import opened Messages
  import opened BoundedBuffers
  import opened UnboundedBuffers

  /** What a co-editor forwards from a queue holding q: every message up to and including the
      first "DONE", or all of q if it holds none. */
  function Edited(q: seq<Msg>): (r: seq<Msg>)
    ensures |r| <= |q| && r == q[..|r|]
  {
    if q == [] then []
    else if q[0] == Done then [Done]
    else [q[0]] + Edited(q[1..])
  }

  /** If q holds a "DONE", the co-editor forwards a finished stream: real items, then the
      first "DONE" of q, and nothing after it. */
  lemma {:induction false} EditedIsStream(q: seq<Msg>)
    requires Done in q
    ensures IsStream(Edited(q))
  {
    if q[0] != Done {
      assert Done in q[1..] by {
        var k :| 0 <= k < |q| && q[k] == Done;
        assert q[1..][k - 1] == Done;
      }
      EditedIsStream(q[1..]);
      var r := Edited(q[1..]);
      assert Edited(q) == [q[0]] + r;
    }
  }

  /** A queue without "DONE" is forwarded whole. */
  lemma {:induction false} EditedWithoutDone(q: seq<Msg>)
    requires Done !in q
    ensures Edited(q) == q
  {
    if q != [] {
      assert Done !in q[1..] by {
        forall k | 0 <= k < |q| - 1
          ensures q[1..][k] != Done
        {
          assert q[1..][k] == q[k + 1];
        }
      }
      EditedWithoutDone(q[1..]);
    }
  }

  /** A dispatcher queue that holds one category's items followed by the "DONE" is forwarded
      up to that "DONE": the items, unchanged and in order, then the "DONE". Whatever follows
      is left in the queue. */
  lemma {:induction false} EditedStream(items: seq<Msg>, rest: seq<Msg>)
    requires forall k :: 0 <= k < |items| ==> items[k].Item?
    ensures Edited(items + [Done] + rest) == items + [Done]
  {
    if items != [] {
      var q := items + [Done] + rest;
      assert q[0] == items[0];
      assert q[1..] == items[1..] + [Done] + rest;
      EditedStream(items[1..], rest);
      assert items == [items[0]] + items[1..];
    } else {
      assert items + [Done] + rest == [Done] + rest;
    }
  }

  /** One turn of the co-editor loop on a queue holding w, after `sent` has been forwarded
      from q: the head is forwarded, and unless it is the "DONE" the rest of the queue still
      holds one and the loop goes on with the head added to what was sent. */
  lemma ForwardStep(q: seq<Msg>, sent: seq<Msg>, w: seq<Msg>)
    requires Done in w && q == sent + w && Edited(q) == sent + Edited(w)
    ensures w[0] == Done ==> Edited(q) == sent + [Done] && q == Edited(q) + w[1..]
    ensures w[0] != Done ==> Done in w[1..] && q == (sent + [w[0]]) + w[1..]
    ensures w[0] != Done ==> Edited(q) == (sent + [w[0]]) + Edited(w[1..])
  {
    if w[0] != Done {
      var k :| 0 <= k < |w| && w[k] == Done;
      assert w[1..][k - 1] == Done;
      assert w == [w[0]] + w[1..];
    } else {
      assert w == [Done] + w[1..];
    }
  }

  lemma AppendOne(a: seq<Msg>, b: seq<Msg>, m: Msg)
    ensures a + (b + [m]) == (a + b) + [m]
  {
  }

  /** Remove the head of the dispatcher queue and insert it into the co-editor queue. */
  method Forward(dispatcherQueue: UnboundedBuffer, coEditorQueue: BoundedBuffer) returns (message: Msg)
    requires dispatcherQueue.Valid() && coEditorQueue.Valid()
    requires dispatcherQueue.count > 0 && coEditorQueue.count < coEditorQueue.size
    modifies dispatcherQueue, coEditorQueue, coEditorQueue.buffer
    ensures dispatcherQueue.Valid() && coEditorQueue.Valid()
    ensures message == old(dispatcherQueue.Contents)[0]
    ensures dispatcherQueue.Contents == old(dispatcherQueue.Contents)[1..]
    ensures coEditorQueue.Contents == old(coEditorQueue.Contents) + [message]
    ensures coEditorQueue.count == old(coEditorQueue.count) + 1
  {
    message := dispatcherQueue.Remove();
    coEditorQueue.Insert(message);
  }

  /** The co-editor loop: remove a message; a "DONE" is forwarded and ends the loop, any other
      message is forwarded after the editing delay. Each remove would wait for a message and
      each insert for a free slot; the sequential model requires a "DONE" to be queued already
      and room for everything forwarded. */
  method RunCoEditor(dispatcherQueue: UnboundedBuffer, coEditorQueue: BoundedBuffer)
    requires dispatcherQueue.Valid() && coEditorQueue.Valid()
    requires Done in dispatcherQueue.Contents
    requires coEditorQueue.count + |Edited(dispatcherQueue.Contents)| <= coEditorQueue.size
    modifies dispatcherQueue, coEditorQueue, coEditorQueue.buffer
    ensures dispatcherQueue.Valid() && coEditorQueue.Valid()
    ensures coEditorQueue.Contents == old(coEditorQueue.Contents) + Edited(old(dispatcherQueue.Contents))
    ensures old(dispatcherQueue.Contents) == Edited(old(dispatcherQueue.Contents)) + dispatcherQueue.Contents
  {
    ghost var q := dispatcherQueue.Contents;
    ghost var before := coEditorQueue.Contents;
    ghost var sent: seq<Msg> := [];
    while true
      invariant dispatcherQueue.Valid() && coEditorQueue.Valid()
      invariant q == sent + dispatcherQueue.Contents
      invariant Edited(q) == sent + Edited(dispatcherQueue.Contents)
      invariant Done in dispatcherQueue.Contents
      invariant coEditorQueue.Contents == before + sent
      invariant coEditorQueue.count + |Edited(dispatcherQueue.Contents)| <= coEditorQueue.size
      decreases |dispatcherQueue.Contents|
    {
      ghost var waiting := dispatcherQueue.Contents;
      ForwardStep(q, sent, waiting);
      var message := Forward(dispatcherQueue, coEditorQueue);
      AppendOne(before, sent, message);
      if message == Done {
        break;
      }
      sent := sent + [message];
    }
  }
}
