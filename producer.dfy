/** runProducerThread: a producer writes numProducts news items into its own bounded queue and
    then one "DONE". Item i has category SPORTS, NEWS, WEATHER for i % 3 == 0, 1, 2 and carries
    the number i / 3, its position among that producer's items of the same category. */
module Producer {
  import opened Messages
  import opened BoundedBuffers

  /** The producer's i-th message. */
  function Message(id: int, i: int): (m: Msg)
    ensures m.Item? && m.producer == id && m.sequence == i / 3
    ensures CategoryIndex(m.category) == i % 3
  {
    Item(id, CategoryOf(i), i / 3)
  }

  /** The items a producer with this id has written after n turns of its loop. */
  function Produced(id: int, n: int): (r: seq<Msg>)
    ensures |r| == if n <= 0 then 0 else n
  {
    if n <= 0 then [] else Produced(id, n - 1) + [Message(id, n - 1)]
  }


  /** The i-th item written has category CategoryOf(i) and number i / 3. */
  lemma {:induction false} ProducedAt(id: int, n: int, i: int)
    requires 0 <= i < n
    ensures Produced(id, n)[i] == Item(id, CategoryOf(i), i / 3)
  {
    if i < n - 1 {
      ProducedAt(id, n - 1, i);
    }
  }

  lemma ProducedAreItems(id: int, n: int)
    ensures forall i :: 0 <= i < |Produced(id, n)| ==> Produced(id, n)[i].Item?
  {
    forall i | 0 <= i < |Produced(id, n)| {
      ProducedAt(id, n, i);
    }
  }

  /** Everything the producer writes: numProducts items, then one "DONE". */
  function ProducerStream(id: int, numProducts: int): (r: seq<Msg>)
    ensures IsStream(r)
    ensures Count(r, false) == (if numProducts <= 0 then 0 else numProducts) && Count(r, true) == 1
  {
    var r := Produced(id, numProducts) + [Done];
    ProducedAreItems(id, numProducts);
    StreamCounts(r);
    r
  }

  /** The whole stream, message by message: item i for i < numProducts, then "DONE". */
  lemma StreamAt(id: int, numProducts: int, i: int)
    requires 0 <= i < |ProducerStream(id, numProducts)|
    ensures ProducerStream(id, numProducts)[i]
         == if i < numProducts then Item(id, CategoryOf(i), i / 3) else Done
  {
    if i < numProducts {
      ProducedAt(id, numProducts, i);
    }
  }

  /** The numbers 0 .. L - 1 of category c, as items of producer id. */
  function Numbered(id: int, c: Category, L: nat): (r: seq<Msg>)
    ensures |r| == L
  {
    if L == 0 then [] else Numbered(id, c, L - 1) + [Item(id, c, L - 1)]
  }

  lemma {:induction false} NumberedAt(id: int, c: Category, L: nat, k: nat)
    requires k < L
    ensures Numbered(id, c, L)[k] == Item(id, c, k)
  {
    if k < L - 1 {
      NumberedAt(id, c, L - 1, k);
    }
  }

  /** Arithmetic of one loop turn: L items of index ci among messages 0 .. i - 1 (L is
      ceil((i - ci) / 3)); message i has category index ci exactly when i % 3 == ci, and then
      it is item number L of that category. */
  lemma MessageNumber(id: int, i: int, c: Category, L: int)
    requires i >= 0
    requires i - CategoryIndex(c) <= 3 * L < i - CategoryIndex(c) + 3
    ensures Message(id, i).Item?
    ensures Message(id, i).category == c ==> Message(id, i) == Item(id, c, L) && 3 * (L + 1) < i + 1 - CategoryIndex(c) + 3
    ensures Message(id, i).category == c ==> i + 1 - CategoryIndex(c) <= 3 * (L + 1)
    ensures Message(id, i).category != c ==> i + 1 - CategoryIndex(c) <= 3 * L < i + 1 - CategoryIndex(c) + 3
  {
    CategoryOfIndex(i);
    CategoryIndexInjective(CategoryOf(i), c);
  }

  /** Appending an item that, if it has category c, carries the next number keeps the
      items of category c numbered 0, 1, 2, ... */
  lemma NumberedSnoc(s: seq<Msg>, m: Msg, id: int, c: Category, L: nat)
    requires ItemsOf(s, c) == Numbered(id, c, L)
    requires m.Item? && (m.category == c ==> m == Item(id, c, L))
    ensures |ItemsOf(s + [m], c)| == if m.category == c then L + 1 else L
    ensures ItemsOf(s + [m], c) == Numbered(id, c, |ItemsOf(s + [m], c)|)
  {
    ItemsOfSnoc(s, m, c);
    if m.category == c {
      assert Numbered(id, c, L + 1) == Numbered(id, c, L) + [Item(id, c, L)];
    }
  }

  /** One turn of the producer loop: message i joins the items of category c exactly when it
      has that category, and then it carries the next number. */
  lemma NumberingTurn(id: int, i: int, c: Category, prev: seq<Msg>, L: nat)
    requires i >= 0
    requires i - CategoryIndex(c) <= 3 * L < i - CategoryIndex(c) + 3
    requires ItemsOf(prev, c) == Numbered(id, c, L)
    ensures i + 1 - CategoryIndex(c) <= 3 * |ItemsOf(prev + [Message(id, i)], c)| < i + 1 - CategoryIndex(c) + 3
    ensures ItemsOf(prev + [Message(id, i)], c) == Numbered(id, c, |ItemsOf(prev + [Message(id, i)], c)|)
  {
    MessageNumber(id, i, c, L);
    NumberedSnoc(prev, Message(id, i), id, c, L);
  }

  /** The items of category c among the producer's first messages carry the numbers 0, 1, 2,
      ... in order, all with the producer's id. There are ceil((|s| - CategoryIndex(c)) / 3)
      of them. */
  lemma {:induction false} PrefixNumbering(id: int, s: seq<Msg>, c: Category)
    requires forall i :: 0 <= i < |s| ==> s[i] == Message(id, i)
    ensures |s| - CategoryIndex(c) <= 3 * |ItemsOf(s, c)| < |s| - CategoryIndex(c) + 3
    ensures ItemsOf(s, c) == Numbered(id, c, |ItemsOf(s, c)|)
  {
    if s != [] {
      var prev := s[..|s| - 1];
      PrefixNumbering(id, prev, c);
      assert s == prev + [Message(id, |s| - 1)];
      NumberingTurn(id, |s| - 1, c, prev, |ItemsOf(prev, c)|);
    }
  }

  lemma CategoryNumbering(id: int, n: int, c: Category)
    requires n >= 0
    ensures n - CategoryIndex(c) <= 3 * |ItemsOf(Produced(id, n), c)| < n - CategoryIndex(c) + 3
    ensures ItemsOf(Produced(id, n), c) == Numbered(id, c, |ItemsOf(Produced(id, n), c)|)
  {
    forall i | 0 <= i < n
      ensures Produced(id, n)[i] == Message(id, i)
    {
      ProducedAt(id, n, i);
    }
    PrefixNumbering(id, Produced(id, n), c);
  }

  /** The k-th item of category c in a producer's stream is numbered k: within one category a
      producer's sequence numbers are 0, 1, 2, ..., so they strictly increase. */
  lemma CategoryItemsNumbered(id: int, numProducts: int, c: Category, k: int)
    requires 0 <= k < |ItemsOf(ProducerStream(id, numProducts), c)|
    ensures ItemsOf(ProducerStream(id, numProducts), c)[k] == Item(id, c, k)
  {
    ItemsOfSnoc(Produced(id, numProducts), Done, c);
    var n := if numProducts <= 0 then 0 else numProducts;
    assert Produced(id, numProducts) == Produced(id, n);
    CategoryNumbering(id, n, c);
    NumberedAt(id, c, |ItemsOf(Produced(id, n), c)|, k);
  }

  /** A producer writes ceil((numProducts - CategoryIndex(c)) / 3) items of category c. */
  lemma CategoryItemsCount(id: int, numProducts: int, c: Category)
    requires numProducts >= 0
    ensures numProducts - CategoryIndex(c) <= 3 * |ItemsOf(ProducerStream(id, numProducts), c)|
                                            < numProducts - CategoryIndex(c) + 3
  {
    ItemsOfSnoc(Produced(id, numProducts), Done, c);
    CategoryNumbering(id, numProducts, c);
  }

  /** The producer's loop: numProducts inserts, then the "DONE" insert. Every insert would wait
      for a free slot; the sequential model requires the whole stream to fit. */
  method RunProducer(id: int, numProducts: int, producerQueue: BoundedBuffer)
    requires producerQueue.Valid()
    requires producerQueue.count + (if numProducts <= 0 then 0 else numProducts) < producerQueue.size
    modifies producerQueue, producerQueue.buffer
    ensures producerQueue.Valid()
    ensures producerQueue.Contents == old(producerQueue.Contents) + ProducerStream(id, numProducts)
  {
    var i := 0;
    while i < numProducts
      invariant 0 <= i <= (if numProducts <= 0 then 0 else numProducts)
      invariant producerQueue.Valid()
      invariant producerQueue.Contents == old(producerQueue.Contents) + Produced(id, i)
      invariant producerQueue.count - i == old(producerQueue.count)
    {
      producerQueue.Insert(Message(id, i));
      i := i + 1;
    }
    assert Produced(id, i) == Produced(id, numProducts);
    producerQueue.Insert(Done);
    assert ProducerStream(id, numProducts) == Produced(id, numProducts) + [Done];
  }
}
