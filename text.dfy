/** The messages as the C program writes them: a producer formats item i with
    "Producer %d %s %d" and the sentinel is the literal "DONE". The stages never parse these
    strings: they compare with strcmp(message, "DONE") and route with strstr on the category
    word. This module shows that both tests, applied to rendered messages, decide exactly what
    the tagged values of module Messages say, so the model may work on the tags. */
module Text {
  import opened Messages

  datatype Option<T> = None | Some(value: T)

  predicate IsDigit(ch: char)
  {
    '0' <= ch <= '9'
  }

  function Digit(d: int): (ch: char)
    requires 0 <= d < 10
    ensures IsDigit(ch) && ch as int - '0' as int == d
  {
    ('0' as int + d) as char
  }

  /** printf's %d of a non-negative number: its decimal digits, most significant first. */
  function Natural(n: nat): (r: string)
    ensures |r| >= 1
  {
    if n < 10 then [Digit(n)] else Natural(n / 10) + [Digit(n % 10)]
  }

  /** printf's %d: a minus sign before the digits of a negative number. */
  function Decimal(n: int): (r: string)
    ensures |r| >= 1
  {
    if n < 0 then "-" + Natural(-n) else Natural(n)
  }

  lemma {:induction false} NaturalDigits(n: nat)
    ensures forall k :: 0 <= k < |Natural(n)| ==> IsDigit(Natural(n)[k])
  {
    if n >= 10 {
      NaturalDigits(n / 10);
    }
  }

  /** A rendered number is digits, with a leading minus sign exactly when it is negative. */
  lemma DecimalChars(n: int)
    ensures forall k :: 0 <= k < |Decimal(n)| ==> IsDigit(Decimal(n)[k]) || Decimal(n)[k] == '-'
    ensures Decimal(n)[0] == '-' <==> n < 0
  {
    if n < 0 {
      NaturalDigits(-n);
    } else {
      NaturalDigits(n);
    }
  }

  /** The value of a string of decimal digits. */
  function DigitsValue(s: string): int
  {
    if s == [] then 0 else DigitsValue(s[..|s| - 1]) * 10 + (s[|s| - 1] as int - '0' as int)
  }

  /** Reading the digits back gives the number: %d loses nothing. */
  lemma {:induction false} NaturalValue(n: nat)
    ensures DigitsValue(Natural(n)) == n
  {
    if n >= 10 {
      NaturalValue(n / 10);
      var s := Natural(n);
      assert s[..|s| - 1] == Natural(n / 10);
    }
  }

  /** The value of a rendered number, sign included. */
  function DecimalValue(s: string): int
  {
    if s != [] && s[0] == '-' then -DigitsValue(s[1..]) else DigitsValue(s)
  }

  /** The numbers a producer prints are the item's fields, read back unchanged; with
      RenderInjective this shows that a rendered item determines its fields. */
  lemma DecimalRoundTrip(n: int)
    ensures DecimalValue(Decimal(n)) == n
  {
    if n < 0 {
      NaturalValue(-n);
      assert Decimal(n)[1..] == Natural(-n);
    } else {
      DecimalChars(n);
      NaturalValue(n);
    }
  }

  /** The category word the producer writes. */
  function CategoryName(c: Category): (r: string)
    ensures |r| >= 4 && r[0] in "SNW"
  {
    match c
    case Sports => "SPORTS"
    case News => "NEWS"
    case Weather => "WEATHER"
  }

  /** The string that travels through the buffers for a message. */
  function Render(m: Msg): (r: string)
    ensures |r| >= 4
    ensures r == "DONE" <==> m.Done?
  {
    match m
    case Item(p, c, n) => "Producer " + Decimal(p) + " " + CategoryName(c) + " " + Decimal(n)
    case Done => "DONE"
  }

  /** A rendered number holds no space, so the spaces of a rendered item delimit its fields. */
  lemma DecimalNoSpace(n: int)
    ensures ' ' !in Decimal(n)
  {
    DecimalChars(n);
  }

  lemma CategoryNameNoSpace(c: Category)
    ensures ' ' !in CategoryName(c)
  {
    assert CategoryName(c) in {"SPORTS", "NEWS", "WEATHER"};
  }

  /** In x + " " + y with no space in x, the first space is at |x|. */
  lemma FirstSpace(x: string, y: string)
    requires ' ' !in x
    ensures (x + " " + y)[|x|] == ' '
    ensures forall i :: 0 <= i < |x| ==> (x + " " + y)[i] != ' '
  {
    forall i | 0 <= i < |x|
      ensures (x + " " + y)[i] != ' '
    {
      assert (x + " " + y)[i] == x[i];
    }
  }

  /** Two texts that each start with a space-free field followed by a space split alike. */
  lemma SplitAtSpace(x: string, y: string, x2: string, y2: string)
    requires ' ' !in x && ' ' !in x2
    requires x + " " + y == x2 + " " + y2
    ensures x == x2 && y == y2
  {
    var t := x + " " + y;
    FirstSpace(x, y);
    FirstSpace(x2, y2);
    assert |x| == |x2|;
    assert x == t[..|x|] == x2;
    assert y == t[|x| + 1..] == y2;
  }

  lemma Regroup(a: string, b: string, c: string, d: string, e: string, f: string)
    ensures a + b + c + d + e + f == a + (b + c + (d + e + f))
  {
  }

  /** The fields of an item line are determined by the line. */
  lemma ItemFields(p: int, c: Category, n: int, p2: int, c2: Category, n2: int)
    requires "Producer " + Decimal(p) + " " + CategoryName(c) + " " + Decimal(n)
          == "Producer " + Decimal(p2) + " " + CategoryName(c2) + " " + Decimal(n2)
    ensures p == p2 && c == c2 && n == n2
  {
    var t := CategoryName(c) + " " + Decimal(n);
    var t2 := CategoryName(c2) + " " + Decimal(n2);
    var u := Decimal(p) + " " + t;
    var u2 := Decimal(p2) + " " + t2;
    Regroup("Producer ", Decimal(p), " ", CategoryName(c), " ", Decimal(n));
    Regroup("Producer ", Decimal(p2), " ", CategoryName(c2), " ", Decimal(n2));
    assert u == ("Producer " + u)[9..];
    assert u2 == ("Producer " + u2)[9..];
    DecimalNoSpace(p);
    DecimalNoSpace(p2);
    SplitAtSpace(Decimal(p), t, Decimal(p2), t2);
    CategoryNameNoSpace(c);
    CategoryNameNoSpace(c2);
    SplitAtSpace(CategoryName(c), Decimal(n), CategoryName(c2), Decimal(n2));
    DecimalRoundTrip(p);
    DecimalRoundTrip(p2);
    DecimalRoundTrip(n);
    DecimalRoundTrip(n2);
  }

  /** Distinct messages have distinct texts: the id, the category and the number of an item
      can all be read back from its line, and no item reads "DONE". */
  lemma RenderInjective(a: Msg, b: Msg)
    ensures Render(a) == Render(b) <==> a == b
  {
    if Render(a) == Render(b) && a.Item? && b.Item? {
      ItemFields(a.producer, a.category, a.sequence, b.producer, b.category, b.sequence);
    }
  }

  /** w occurs in s starting at position i. */
  predicate OccursAt(s: string, w: string, i: int)
  {
    0 <= i <= |s| - |w| && s[i..i + |w|] == w
  }

  /** strstr(s, w) != NULL: w occurs somewhere in s. */
  predicate Contains(s: string, w: string)
  {
    exists i :: 0 <= i <= |s| - |w| && OccursAt(s, w, i)
  }

  /** A word whose first letter occurs nowhere in `pre` or `post`, which has no space, and
      which is followed in the text by a space, occurs in pre + mid + post exactly when it
      occurs in mid. */
  lemma OccursOnlyInMiddle(pre: string, mid: string, post: string, w: string)
    requires |w| >= 1 && ' ' !in w
    requires w[0] !in pre && w[0] !in post
    requires |post| >= 1 && post[0] == ' '
    ensures Contains(pre + mid + post, w) <==> Contains(mid, w)
  {
    var t := pre + mid + post;
    if Contains(mid, w) {
      var j :| 0 <= j <= |mid| - |w| && OccursAt(mid, w, j);
      assert t[|pre| + j..|pre| + j + |w|] == mid[j..j + |w|];
      assert OccursAt(t, w, |pre| + j);
    }
    if Contains(t, w) {
      var i :| 0 <= i <= |t| - |w| && OccursAt(t, w, i);
      assert t[i] == t[i..i + |w|][0] == w[0];
      assert |pre| <= i < |pre| + |mid|;
      if i + |w| > |pre| + |mid| {
        InSlice(t, i, i + |w|, |pre| + |mid|);
      }
      var j := i - |pre|;
      assert mid[j..j + |w|] == t[i..i + |w|];
      assert OccursAt(mid, w, j);
    }
  }

  lemma InSlice(t: string, a: int, b: int, k: int)
    requires 0 <= a <= k < b <= |t|
    ensures t[k] in t[a..b]
  {
    assert t[a..b][k - a] == t[k];
  }

  /** No position of s holds the first letter of w, so w does not occur in s. */
  lemma FirstLetterAbsent(s: string, w: string)
    requires |w| >= 1
    requires forall i :: 0 <= i <= |s| - |w| ==> s[i] != w[0]
    ensures !Contains(s, w)
  {
    forall i
      ensures !OccursAt(s, w, i)
    {
      if 0 <= i <= |s| - |w| {
        assert s[i..i + |w|][0] == s[i];
      }
    }
  }

  /** Each category word occurs in its own word and in no other. */
  lemma CategoryWords(c: Category, k: Category)
    ensures Contains(CategoryName(c), CategoryName(k)) <==> c == k
  {
    var s, w := CategoryName(c), CategoryName(k);
    if c == k {
      assert s[0..|w|] == w;
      assert OccursAt(s, w, 0);
    } else {
      if |w| <= |s| {
        FirstLetterAbsent(s, w);
      }
    }
  }

  /** The characters of "Producer ", of a rendered number and of a space: none of them is the
      first letter of a category word. */
  lemma FirstLettersAbsent(id: int, n: int, k: Category)
    ensures CategoryName(k)[0] !in "Producer " + Decimal(id) + " "
    ensures CategoryName(k)[0] !in " " + Decimal(n)
  {
    DecimalChars(id);
    DecimalChars(n);
    var x := CategoryName(k)[0];
    var pre := "Producer " + Decimal(id) + " ";
    var post := " " + Decimal(n);
    forall i | 0 <= i < |pre|
      ensures pre[i] != x
    {
      if 9 <= i < |pre| - 1 {
        assert pre[i] == Decimal(id)[i - 9];
      }
    }
    forall i | 0 <= i < |post|
      ensures post[i] != x
    {
      if i >= 1 {
        assert post[i] == Decimal(n)[i - 1];
      }
    }
  }

  /** strstr(message, word) finds the category word of a rendered item exactly when the word
      is that item's own category. */
  lemma CategoryByText(m: Msg, k: Category)
    requires m.Item?
    ensures Contains(Render(m), CategoryName(k)) <==> k == m.category
  {
    var pre := "Producer " + Decimal(m.producer) + " ";
    var post := " " + Decimal(m.sequence);
    assert Render(m) == pre + CategoryName(m.category) + post;
    FirstLettersAbsent(m.producer, m.sequence, k);
    assert ' ' !in CategoryName(k) by {
      assert CategoryName(k) in {"SPORTS", "NEWS", "WEATHER"};
    }
    OccursOnlyInMiddle(pre, CategoryName(m.category), post, CategoryName(k));
    CategoryWords(m.category, k);
  }

  /** The dispatcher's routing chain: the first of "SPORTS", "NEWS", "WEATHER" found in the
      message picks dispatcher queue 0, 1 or 2; a message with none of them is dropped. */
  function RouteOf(message: string): (r: Option<nat>)
    ensures r.Some? ==> r.value < 3
  {
    if Contains(message, "SPORTS") then Some(0)
    else if Contains(message, "NEWS") then Some(1)
    else if Contains(message, "WEATHER") then Some(2)
    else None
  }

  /** Routing a rendered item by strstr sends it to the queue of its category. */
  lemma RouteByText(m: Msg)
    requires m.Item?
    ensures RouteOf(Render(m)) == Some(CategoryIndex(m.category))
  {
    CategoryByText(m, Sports);
    CategoryByText(m, News);
    CategoryByText(m, Weather);
  }
}
