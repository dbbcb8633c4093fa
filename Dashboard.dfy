/**
 * Reading the dashboard (`check_dashboard`): each card's three texts become a
 * category record, and the categories that still need work are selected for
 * the task walker (`run_full_check`).
 */
module Dashboard {
  import opened Wrappers
  import opened Text
  import opened Types

  /** The characters stripped from the remaining-items label. */
  const Parens: set<char> := {'(', ')'}

  /**
   * The remaining-items count: the label (default `"(0"` when the element is
   * absent) loses every surrounding `(` and `)` and is parsed with `int`; a
   * label that does not parse counts as 0.
   */
  function ItemsLeft(tag: Option<string>): int {
    match ParseInt(StripChars(tag.GetOr("(0"), Parens))
    case Some(n) => n
    case None => 0
  }

  function Repeat(c: char, k: nat): (s: string)
    ensures |s| == k && forall i :: 0 <= i < k ==> s[i] == c
  {
    if k == 0 then [] else [c] + Repeat(c, k - 1)
  }

  /** A label made of any number of `(`, the decimal `n`, and any number of `)` gives `n`. */
  lemma ItemsLeftOfLabel(n: int, opens: nat, closes: nat)
    ensures ItemsLeft(Some(Repeat('(', opens) + ShowInt(n) + Repeat(')', closes))) == n
  {
    StripCharsOf(Repeat('(', opens), ShowInt(n), Repeat(')', closes), Parens);
    ParseShowInt(n);
  }

  /** `"(7)"` gives 7. */
  lemma ItemsLeftClosed()
    ensures ItemsLeft(Some("(7)")) == 7
  {
    ItemsLeftOfLabel(7, 1, 1);
    assert Repeat('(', 1) + ShowInt(7) + Repeat(')', 1) == "(7)";
  }

  /** `"(0"`, the text used when the label is absent, gives 0, and so does a missing label. */
  lemma ItemsLeftDefault()
    ensures ItemsLeft(Some("(0")) == 0
    ensures ItemsLeft(None) == 0
  {
    ItemsLeftOfLabel(0, 1, 0);
    assert Repeat('(', 1) + ShowInt(0) + Repeat(')', 0) == "(0";
  }

  predicate IsLetter(c: char) {
    'a' <= c <= 'z' || 'A' <= c <= 'Z'
  }

  /** A label that is a word in parentheses, such as `"(none)"`, is not a number and gives 0. */
  lemma ItemsLeftWord(w: string)
    requires w != [] && forall i :: 0 <= i < |w| ==> IsLetter(w[i])
    ensures ItemsLeft(Some("(" + w + ")")) == 0
  {
    assert IsLetter(w[0]) && IsLetter(w[|w| - 1]);
    StripCharsOf("(", w, ")", Parens);
    StripsTo([], w, []);
    assert [] + w + [] == w;
    assert !IsDigit(w[0]);
  }

  /** A label that, once its parentheses and blanks are gone, is not an integer gives 0. */
  lemma ItemsLeftUnreadable(tag: string)
    requires !IntPattern(Strip(StripChars(tag, Parens)))
    ensures ItemsLeft(Some(tag)) == 0
  {
    ParseIntShape(StripChars(tag, Parens));
  }

  /**
   * One card as `check_dashboard` reads it, or `None` when the card is
   * skipped: the name is the stripped title (`"Unknown"` when absent), the
   * completion is `int` of the stripped percentage text (`"0"` when absent)
   * and a percentage that does not parse skips the card.
   */
  function ParseCard(card: CardView): Option<Category> {
    match card
    case BrokenCard => None
    case Card(title, percent, remaining) =>
      match ParseInt(Strip(percent.GetOr("0")))
      case None => None
      case Some(completion) => Some(Category(Strip(title.GetOr("Unknown")), completion, ItemsLeft(remaining)))
  }

  /**
   * What a card gives: nothing for a card that raised; for the others, a
   * record iff the percentage parses, completion 0 without a percentage,
   * `"Unknown"` without a title; the name is the stripped title, the
   * completion the value of the percentage text, and the items left those
   * read from the remaining-items label.
   */
  lemma ParseCardFields(card: CardView)
    ensures var r := ParseCard(card);
      && (card.BrokenCard? ==> r.None?)
      && (card.Card? ==> (r.Some? <==> ParseInt(card.percent.GetOr("0")).Some?))
      && (card.Card? && card.percent.None? ==> r.Some? && r.value.completion == 0)
      && (card.Card? && card.title.None? && r.Some? ==> r.value.name == "Unknown")
      && (r.Some? ==> Strip(r.value.name) == r.value.name)
      && (card.Card? && r.Some? ==> r.value.name == Strip(card.title.GetOr("Unknown")))
      && (card.Card? && r.Some? ==> r.value.completion == ParseInt(card.percent.GetOr("0")).value)
      && (r.Some? ==> r.value.itemsLeft == ItemsLeft(card.remaining))
  {
    if card.Card? {
      var percentText := card.percent.GetOr("0");
      var titleText := card.title.GetOr("Unknown");
      StripCharsIdempotent(percentText, Whitespace);
      StripCharsIdempotent(titleText, Whitespace);
      StripsTo([], "0", []);
      StripsTo([], "Unknown", []);
      assert [] + "0" + [] == "0" && [] + "Unknown" + [] == "Unknown";
    }
  }

  /** A card with a percentage text is kept iff that text, stripped, is an integer. */
  lemma ParseCardPercent(title: Option<string>, percent: string, remaining: Option<string>)
    ensures ParseCard(Card(title, Some(percent), remaining)).Some? <==> IntPattern(Strip(percent))
  {
    StripCharsIdempotent(percent, Whitespace);
    ParseIntShape(Strip(percent));
  }

  /** Percentages such as `"n/a"` or `"50%"` are no integers: the card is skipped. */
  lemma ParseCardNotANumber(title: Option<string>, remaining: Option<string>)
    ensures ParseCard(Card(title, Some("n/a"), remaining)) == None
    ensures ParseCard(Card(title, Some("50%"), remaining)) == None
  {
    ParseCardPercent(title, "n/a", remaining);
    ParseCardPercent(title, "50%", remaining);
    assert [] + "n/a" + [] == "n/a" && [] + "50%" + [] == "50%";
    StripsTo([], "n/a", []);
    StripsTo([], "50%", []);
    assert !IsDigit("n/a"[0]) && !IsDigit("50%"[2]);
  }

  /**
   * A card whose title is a name in blanks, whose percentage is a decimal
   * `n` and whose remaining-items label is a decimal `k` in parentheses
   * reads back as exactly that name, `n` and `k`.
   */
  lemma ParseCardOf(a: string, t: string, b: string, n: int, opens: nat, k: int, closes: nat)
    requires AllIn(a, Whitespace) && AllIn(b, Whitespace)
    requires t == [] || (t[0] !in Whitespace && t[|t| - 1] !in Whitespace)
    ensures ParseCard(Card(Some(a + t + b), Some(ShowInt(n)), Some(Repeat('(', opens) + ShowInt(k) + Repeat(')', closes))))
      == Some(Category(t, n, k))
  {
    StripCharsOf(a, t, b, Whitespace);
    StripShowInt(n);
    ParseShowInt(n);
    ItemsLeftOfLabel(k, opens, closes);
  }

  /** The categories of a list of cards, skipped cards left out. */
  function ParseCards(cards: seq<CardView>): (r: seq<Category>)
    ensures |r| <= |cards|
  {
    if cards == [] then []
    else
      var last := ParseCard(cards[|cards| - 1]);
      ParseCards(cards[..|cards| - 1]) + (if last.Some? then [last.value] else [])
  }

  /** Cards are read in document order: the categories of `a + b` are those of `a`, then those of `b`. */
  lemma {:induction false} ParseCardsAppend(a: seq<CardView>, b: seq<CardView>)
    ensures ParseCards(a + b) == ParseCards(a) + ParseCards(b)
    decreases |b|
  {
    if b == [] {
      assert a + b == a;
    } else {
      assert (a + b)[..|a + b| - 1] == a + b[..|b| - 1];
      assert (a + b)[|a + b| - 1] == b[|b| - 1];
      ParseCardsAppend(a, b[..|b| - 1]);
    }
  }

  /** A category is in the result iff some card parses to it: at most one record per card, none invented. */
  lemma ParseCardsMembers(cards: seq<CardView>, x: Category)
    ensures x in ParseCards(cards) <==> exists i :: 0 <= i < |cards| && ParseCard(cards[i]) == Some(x)
  {
    if x in ParseCards(cards) {
      ParseCardsSound(cards, x);
    }
    if exists i :: 0 <= i < |cards| && ParseCard(cards[i]) == Some(x) {
      var i :| 0 <= i < |cards| && ParseCard(cards[i]) == Some(x);
      ParseCardsComplete(cards, x, i);
    }
  }

  /** Every category returned comes from some card. */
  lemma {:induction false} ParseCardsSound(cards: seq<CardView>, x: Category)
    requires x in ParseCards(cards)
    ensures exists i :: 0 <= i < |cards| && ParseCard(cards[i]) == Some(x)
  {
    var init := cards[..|cards| - 1];
    var last := ParseCard(cards[|cards| - 1]);
    var tail: seq<Category> := if last.Some? then [last.value] else [];
    assert ParseCards(cards) == ParseCards(init) + tail;
    if x in ParseCards(init) {
      ParseCardsSound(init, x);
      var i :| 0 <= i < |init| && ParseCard(init[i]) == Some(x);
      assert cards[i] == init[i];
    } else {
      assert x in tail && last == Some(x);
    }
  }

  /** The record of every card that parses is returned. */
  lemma {:induction false} ParseCardsComplete(cards: seq<CardView>, x: Category, i: nat)
    requires i < |cards| && ParseCard(cards[i]) == Some(x)
    ensures x in ParseCards(cards)
  {
    var init := cards[..|cards| - 1];
    var last := ParseCard(cards[|cards| - 1]);
    var tail: seq<Category> := if last.Some? then [last.value] else [];
    assert ParseCards(cards) == ParseCards(init) + tail;
    if i < |init| {
      assert init[i] == cards[i];
      ParseCardsComplete(init, x, i);
    } else {
      assert last == Some(x) && tail == [x];
    }
  }

  /** When no card is skipped, there is exactly one record per card, in card order. */
  lemma {:induction false} ParseCardsAllRead(cards: seq<CardView>)
    requires forall i :: 0 <= i < |cards| ==> ParseCard(cards[i]).Some?
    ensures |ParseCards(cards)| == |cards|
    ensures forall i :: 0 <= i < |cards| ==> ParseCards(cards)[i] == ParseCard(cards[i]).value
  {
    if cards != [] {
      var init := cards[..|cards| - 1];
      var last := ParseCard(cards[|cards| - 1]);
      assert forall i :: 0 <= i < |init| ==> init[i] == cards[i];
      ParseCardsAllRead(init);
      assert last.Some?;
      var r := ParseCards(cards);
      assert r == ParseCards(init) + [last.value];
      forall i | 0 <= i < |cards|
        ensures r[i] == ParseCard(cards[i]).value
      {
        if i < |init| {
          assert r[i] == ParseCards(init)[i];
        }
      }
    }
  }

  /** What `check_dashboard` returns: the parsed cards, or nothing when the dashboard did not load. */
  function Scan(view: DashboardView): seq<Category> {
    match view
    case Cards(cards) => ParseCards(cards)
    case DashboardFailed => []
  }

  /** The task walker visits a category iff it is below 100% and has items left. */
  predicate NeedsWork(c: Category) {
    c.completion < 100 && c.itemsLeft > 0
  }

  /** The categories the walker visits, in dashboard order. */
  function Selected(cats: seq<Category>): (r: seq<Category>)
    ensures |r| <= |cats|
  {
    if cats == [] then []
    else
      var c := cats[|cats| - 1];
      Selected(cats[..|cats| - 1]) + (if NeedsWork(c) then [c] else [])
  }

  /**
   * The selection keeps dashboard order and multiplicity: the selection of
   * `a + b` is that of `a` followed by that of `b`.
   */
  lemma {:induction false} SelectedAppend(a: seq<Category>, b: seq<Category>)
    ensures Selected(a + b) == Selected(a) + Selected(b)
    decreases |b|
  {
    if b == [] {
      assert a + b == a;
    } else {
      var init := b[..|b| - 1];
      assert (a + b)[..|a + b| - 1] == a + init;
      assert (a + b)[|a + b| - 1] == b[|b| - 1];
      SelectedAppend(a, init);
    }
  }

  /** One category is selected iff it needs work. */
  lemma SelectedOne(c: Category)
    ensures Selected([c]) == if NeedsWork(c) then [c] else []
  {
    assert [c][..0] == [];
  }

  /** Exactly the categories that need work are selected. */
  lemma {:induction false} SelectedMembers(cats: seq<Category>, c: Category)
    ensures c in Selected(cats) <==> c in cats && NeedsWork(c)
  {
    if cats != [] {
      var init := cats[..|cats| - 1];
      SelectedMembers(init, c);
      assert cats == init + [cats[|cats| - 1]];
    }
  }

  /** The mix `{100%, 0 left}`, `{50%, 3 left}`, `{0%, 0 left}`: only the middle one is walked. */
  lemma SelectedExample(a: string, b: string, c: string)
    ensures Selected([Category(a, 100, 0), Category(b, 50, 3), Category(c, 0, 0)]) == [Category(b, 50, 3)]
  {
    var x, y, z := Category(a, 100, 0), Category(b, 50, 3), Category(c, 0, 0);
    var cats := [x, y, z];
    assert cats[..2] == [x, y] && [x, y][..1] == [x] && [x][..0] == [];
    assert Selected([x]) == [];
    assert Selected([x, y]) == [y];
  }
}
