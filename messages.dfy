/** The values that travel through the news broadcasting pipeline.
    The C program passes heap strings of the form "Producer <id> <CATEGORY> <n>" and the
    literal "DONE"; here a message is a tagged value and module Text relates the two. */
module Messages {

  datatype Category = Sports | News | Weather

  /** A news item as built by a producer, or the "DONE" end-of-stream marker. */
  datatype Msg = Item(producer: int, category: Category, sequence: int) | Done

  /** Category of the producer's i-th message: SPORTS, NEWS, WEATHER for i % 3 == 0, 1, 2. */
  function CategoryOf(i: int): Category
  {
    if i % 3 == 0 then Sports else if i % 3 == 1 then News else Weather
  }

  /** Index of the dispatcher queue, and of the co-editor, that handles a category. */
  function CategoryIndex(c: Category): (k: nat)
    ensures k < 3
  {
    match c
    case Sports => 0
    case News => 1
    case Weather => 2
  }

  /** The category of message i is the one whose index is i % 3. */
  lemma CategoryOfIndex(i: int)
    ensures CategoryIndex(CategoryOf(i)) == i % 3
  {
  }

  /** Distinct categories go to distinct queues. */
  lemma CategoryIndexInjective(a: Category, b: Category)
    ensures CategoryIndex(a) == CategoryIndex(b) ==> a == b
  {
  }

  /** Number of end markers (done == true) or of real items (done == false) in s. */
  function Count(s: seq<Msg>, done: bool): nat
  {
    if s == [] then 0
    else Count(s[..|s| - 1], done) + (if s[|s| - 1].Done? == done then 1 else 0)
  }

  /** The real items of category c in s, in their order in s. */
  function ItemsOf(s: seq<Msg>, c: Category): (r: seq<Msg>)
    ensures |r| <= |s|
  {
    if s == [] then []
    else ItemsOf(s[..|s| - 1], c) + (if s[|s| - 1] == Done || s[|s| - 1].category != c then [] else [s[|s| - 1]])
  }

  /** ItemsOf keeps exactly the real items of category c. */
  lemma {:induction false} ItemsOfAreItems(s: seq<Msg>, c: Category)
    ensures forall k :: 0 <= k < |ItemsOf(s, c)| ==> ItemsOf(s, c)[k].Item? && ItemsOf(s, c)[k].category == c
  {
    if s != [] {
      ItemsOfAreItems(s[..|s| - 1], c);
    }
  }

  /** Appending one message adds it to the items of its own category only. */
  lemma ItemsOfSnoc(s: seq<Msg>, m: Msg, c: Category)
    ensures ItemsOf(s + [m], c) == ItemsOf(s, c) + (if m.Item? && m.category == c then [m] else [])
  {
    assert (s + [m])[..|s|] == s;
  }

  /** Count, taking the first message off the front. */
  lemma CountCons(m: Msg, s: seq<Msg>, done: bool)
    ensures Count([m] + s, done) == (if m.Done? == done then 1 else 0) + Count(s, done)
  {
    CountAppend([m], s, done);
    assert [m][..0] == [];
  }

  /** A finished stream: real items followed by exactly one end marker. */
  predicate IsStream(s: seq<Msg>)
  {
    |s| >= 1 && s[|s| - 1] == Done && forall i :: 0 <= i < |s| - 1 ==> s[i].Item?
  }

  lemma {:induction false} CountAppend(a: seq<Msg>, b: seq<Msg>, done: bool)
    ensures Count(a + b, done) == Count(a, done) + Count(b, done)
    decreases |b|
  {
    if b == [] {
      assert a + b == a;
    } else {
      var b' := b[..|b| - 1];
      assert (a + b)[..|a + b| - 1] == a + b';
      CountAppend(a, b', done);
    }
  }

  lemma {:induction false} ItemsOfAppend(a: seq<Msg>, b: seq<Msg>, c: Category)
    ensures ItemsOf(a + b, c) == ItemsOf(a, c) + ItemsOf(b, c)
    decreases |b|
  {
    if b == [] {
      assert a + b == a;
    } else {
      var b' := b[..|b| - 1];
      assert (a + b)[..|a + b| - 1] == a + b';
      ItemsOfAppend(a, b', c);
    }
  }

  /** Every message is the end marker or a real item: the counts add up to the length. */
  lemma {:induction false} CountTotal(s: seq<Msg>)
    ensures Count(s, true) + Count(s, false) == |s|
  {
    if s != [] {
      CountTotal(s[..|s| - 1]);
    }
  }

  /** A stream holds exactly one end marker, and |s| - 1 real items. */
  lemma {:induction false} StreamCounts(s: seq<Msg>)
    requires IsStream(s)
    ensures Count(s, true) == 1 && Count(s, false) == |s| - 1
  {
    var items := s[..|s| - 1];
    assert s == items + [Done];
    NoDoneAmongItems(items);
    CountTotal(items);
    CountAppend(items, [Done], true);
    CountAppend(items, [Done], false);
    assert [Done][..0] == [];
  }

  lemma {:induction false} NoDoneAmongItems(s: seq<Msg>)
    requires forall i :: 0 <= i < |s| ==> s[i].Item?
    ensures Count(s, true) == 0
  {
    if s != [] {
      NoDoneAmongItems(s[..|s| - 1]);
    }
  }

  /** A proper prefix of a stream holds no end marker; the whole stream holds one. */
  lemma {:induction false} StreamPrefixDones(s: seq<Msg>, k: nat)
    requires IsStream(s) && k <= |s|
    ensures Count(s[..k], true) == if k == |s| then 1 else 0
  {
    if k == |s| {
      assert s[..k] == s;
      StreamCounts(s);
    } else {
      NoDoneAmongItems(s[..k]);
    }
  }

  /** The real items of s, of all three categories together, are as many as its non-marker messages. */
  lemma {:induction false} ItemsOfPartition(s: seq<Msg>)
    ensures |ItemsOf(s, Sports)| + |ItemsOf(s, News)| + |ItemsOf(s, Weather)| == Count(s, false)
  {
    if s != [] {
      ItemsOfPartition(s[..|s| - 1]);
    }
  }
}
