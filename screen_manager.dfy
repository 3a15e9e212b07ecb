/** runScreenManagerThread: the screen manager removes messages from the queue the three
    co-editors share, prints every one that is not "DONE" on a line of its own, stops after the
    third "DONE", and prints a final "DONE". The printed lines are collected in a sequence of
    strings, one per printf call, without the newline. */
module ScreenManager {
  import opened Messages
  import opened Text
  import opened BoundedBuffers

  /** The number of co-editors, each of which sends one "DONE" to the screen manager. */
  const CoEditors: nat := 3

  /** The messages the screen manager removes from a queue holding q while it still waits for
      `need` more "DONE"s: everything up to and including the need-th "DONE" of q. */
  function Drained(q: seq<Msg>, need: nat): (r: seq<Msg>)
    ensures |r| <= |q| && r == q[..|r|]
  {
    if need == 0 || q == [] then []
    else [q[0]] + Drained(q[1..], if q[0] == Done then need - 1 else need)
  }

  /** The messages of s that are printed, in order: every real item; "DONE" is not printed. */
  function Shown(s: seq<Msg>): (r: seq<Msg>)
    ensures |r| <= |s|
  {
    if s == [] then []
    else Shown(s[..|s| - 1]) + (if s[|s| - 1].Done? then [] else [s[|s| - 1]])
  }

  /** The screen lines for a run of messages: each message's own text, one per line. */
  function Lines(items: seq<Msg>): (r: seq<string>)
    ensures |r| == |items|
  {
    seq(|items|, k requires 0 <= k < |items| => Render(items[k]))
  }

  lemma LinesSnoc(items: seq<Msg>, m: Msg)
    ensures Lines(items + [m]) == Lines(items) + [Render(m)]
  {
    assert forall k :: 0 <= k < |items| ==> (items + [m])[k] == items[k];
  }

  /** Everything shown is a real item. */
  lemma {:induction false} ShownAreItems(s: seq<Msg>)
    ensures forall k :: 0 <= k < |Shown(s)| ==> Shown(s)[k].Item?
  {
    if s != [] {
      ShownAreItems(s[..|s| - 1]);
    }
  }

  /** No item's line reads "DONE": the only "DONE" on the screen is the final one. */
  lemma NoDoneLine(s: seq<Msg>)
    ensures forall k :: 0 <= k < |Lines(Shown(s))| ==> Lines(Shown(s))[k] != "DONE"
  {
    ShownAreItems(s);
    forall k | 0 <= k < |Shown(s)|
      ensures Lines(Shown(s))[k] != "DONE"
    {
      assert Render(Shown(s)[k]) != "DONE";
    }
  }

  /** If q holds at least `need` "DONE"s, the screen manager removes exactly `need` of them and
      stops right after the last one. */
  lemma {:induction false} DrainedDones(q: seq<Msg>, need: nat)
    requires Count(q, true) >= need
    ensures Count(Drained(q, need), true) == need
    ensures need > 0 ==> |Drained(q, need)| > 0 && Drained(q, need)[|Drained(q, need)| - 1] == Done
  {
    if need > 0 {
      assert q == [q[0]] + q[1..];
      CountCons(q[0], q[1..], true);
      var k: nat := if q[0] == Done then need - 1 else need;
      DrainedDones(q[1..], k);
      var r := Drained(q[1..], k);
      assert Drained(q, need) == [q[0]] + r;
      CountCons(q[0], r, true);
    }
  }

  lemma {:induction false} ShownAppend(a: seq<Msg>, b: seq<Msg>)
    ensures Shown(a + b) == Shown(a) + Shown(b)
    decreases |b|
  {
    if b == [] {
      assert a + b == a;
    } else {
      var b' := b[..|b| - 1];
      assert (a + b)[..|a + b| - 1] == a + b';
      ShownAppend(a, b');
    }
  }

  /** A run of real items is shown whole. */
  lemma {:induction false} ShownItems(s: seq<Msg>)
    requires forall k :: 0 <= k < |s| ==> s[k].Item?
    ensures Shown(s) == s
  {
    if s != [] {
      ShownItems(s[..|s| - 1]);
    }
  }

  /** A finished stream at the head of the queue is drained whole, using up one awaited
      "DONE". */
  lemma {:induction false} DrainedStream(s: seq<Msg>, rest: seq<Msg>, need: nat)
    requires need > 0 && IsStream(s)
    ensures Drained(s + rest, need) == s + Drained(rest, need - 1)
  {
    var q := s + rest;
    assert q[0] == s[0];
    if |s| == 1 {
      assert q[1..] == rest;
    } else {
      var t := s[1..];
      assert IsStream(t) by {
        forall i | 0 <= i < |t| - 1
          ensures t[i].Item?
        {
          assert t[i] == s[i + 1];
        }
      }
      assert q[1..] == t + rest;
      DrainedStream(t, rest, need);
      assert s == [s[0]] + t;
    }
  }

  /** A finished stream shows its items: everything before its "DONE". */
  lemma ShownStream(s: seq<Msg>)
    requires IsStream(s)
    ensures Shown(s) == s[..|s| - 1]
  {
    ShownItems(s[..|s| - 1]);
  }

  /** A queue holding the co-editors' three finished streams s1, s2 and s3 one after the other,
      whatever follows them, is drained up to the "DONE" of s3. */
  lemma DrainedOfStreams(s1: seq<Msg>, s2: seq<Msg>, s3: seq<Msg>, rest: seq<Msg>)
    requires IsStream(s1) && IsStream(s2) && IsStream(s3)
    ensures Drained(s1 + s2 + s3 + rest, 3) == s1 + s2 + s3
  {
    DrainedStream(s3, rest, 1);
    assert Drained(rest, 0) == [];
    assert s3 + [] == s3;
    DrainedStream(s2, s3 + rest, 2);
    DrainedStream(s1, s2 + (s3 + rest), 3);
    assert s1 + s2 + s3 + rest == s1 + (s2 + (s3 + rest));
    assert s1 + s2 + s3 == s1 + (s2 + s3);
  }

  /** The screen for three finished streams: all of s1's items, then s2's, then s3's. */
  lemma ShownOfStreams(s1: seq<Msg>, s2: seq<Msg>, s3: seq<Msg>)
    requires IsStream(s1) && IsStream(s2) && IsStream(s3)
    ensures Shown(s1 + s2 + s3) == s1[..|s1| - 1] + s2[..|s2| - 1] + s3[..|s3| - 1]
  {
    ShownAppend(s1 + s2, s3);
    ShownAppend(s1, s2);
    ShownStream(s1);
    ShownStream(s2);
    ShownStream(s3);
  }

  /** A prefix r of the queue that holds exactly `need` "DONE"s and ends with one is what the
      screen manager drains. */
  lemma {:induction false} DrainedExact(r: seq<Msg>, rest: seq<Msg>, need: nat)
    requires need > 0 && Count(r, true) == need && |r| > 0 && r[|r| - 1] == Done
    ensures Drained(r + rest, need) == r
  {
    var q := r + rest;
    assert r == [r[0]] + r[1..];
    CountCons(r[0], r[1..], true);
    assert q[1..] == r[1..] + rest;
    if r[0] == Done && need == 1 {
      assert r[1..] == [];
    } else {
      DrainedExact(r[1..], rest, if r[0] == Done then need - 1 else need);
    }
  }

  /** One turn of the screen manager loop on a queue holding w, after `removed` has been taken
      from q, while `need` more "DONE"s are awaited: a message is there, and it is added to
      what was removed, to the "DONE"s counted and, unless it is "DONE", to the messages shown. */
  lemma ScreenStep(q: seq<Msg>, removed: seq<Msg>, w: seq<Msg>, need: nat)
    requires need > 0
    requires Count(w, true) >= need
    requires q == removed + w
    ensures w != [] && q == (removed + [w[0]]) + w[1..]
    ensures Count(w[1..], true) >= (if w[0] == Done then need - 1 else need)
    ensures Count(removed + [w[0]], true) == Count(removed, true) + (if w[0] == Done then 1 else 0)
    ensures Shown(removed + [w[0]]) == Shown(removed) + (if w[0] == Done then [] else [w[0]])
  {
    assert w == [w[0]] + w[1..];
    CountCons(w[0], w[1..], true);
    assert (removed + [w[0]])[..|removed|] == removed;
  }

  /** The screen manager loop: remove a message; count a "DONE", print anything else; after the
      third "DONE", print "DONE". Each remove would wait for a message; the sequential model
      requires the queue to hold three "DONE"s already. */
  method RunScreenManager(coEditorQueue: BoundedBuffer) returns (output: seq<string>)
    requires coEditorQueue.Valid()
    requires Count(coEditorQueue.Contents, true) >= CoEditors
    modifies coEditorQueue
    ensures coEditorQueue.Valid()
    ensures output == Lines(Shown(Drained(old(coEditorQueue.Contents), CoEditors))) + ["DONE"]
    ensures old(coEditorQueue.Contents) == Drained(old(coEditorQueue.Contents), CoEditors) + coEditorQueue.Contents
  {
    var doneCount := 0;
    output := [];
    ghost var q := coEditorQueue.Contents;
    ghost var removed: seq<Msg> := [];
    while doneCount < CoEditors
      invariant coEditorQueue.Valid() && 0 <= doneCount <= CoEditors
      invariant q == removed + coEditorQueue.Contents
      invariant doneCount == Count(removed, true)
      invariant doneCount == CoEditors ==> |removed| > 0 && removed[|removed| - 1] == Done
      invariant Count(coEditorQueue.Contents, true) >= CoEditors - doneCount
      invariant output == Lines(Shown(removed))
      decreases |coEditorQueue.Contents|
    {
      ghost var waiting := coEditorQueue.Contents;
      ScreenStep(q, removed, waiting, CoEditors - doneCount);
      var message := coEditorQueue.Remove();
      if message == Done {
        doneCount := doneCount + 1;
      } else {
        LinesSnoc(Shown(removed), message);
        output := output + [Render(message)];
      }
      removed := removed + [message];
    }
    DrainedExact(removed, coEditorQueue.Contents, CoEditors);
    output := output + ["DONE"];
  }
}
