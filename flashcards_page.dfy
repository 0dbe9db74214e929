/** The flashcards page: the cards shown under a filter, the position among them, and
    marking the shown card known or for review. Clock readings are passed in as `now`. */
module FlashcardsPage {
  import opened Wrappers

  datatype Card = Card(
    id: string,
    term: string,
    definition: string,
    language: string,
    topic: string,
    difficulty: string,
    known: bool,
    reviewLater: bool,
    lastReviewed: Option<int>)

  /** Whether a card is shown under the filter: "all", "unknown", "review" and "known"
      are fixed choices; any other value is a topic or a difficulty. */
  predicate Shown(filter: string, card: Card) {
    if filter == "all" then true
    else if filter == "unknown" then !card.known
    else if filter == "review" then card.reviewLater
    else if filter == "known" then card.known
    else card.topic == filter || card.difficulty == filter
  }

  /** `filteredCards`. */
  function Filtered(cards: seq<Card>, filter: string): (r: seq<Card>)
    ensures |r| <= |cards|
    ensures forall c :: c in r <==> c in cards && Shown(filter, c)
  {
    if cards == [] then []
    else (if Shown(filter, cards[0]) then [cards[0]] else []) + Filtered(cards[1..], filter)
  }

  /** `a` is `b` with some elements left out, the rest in their order. */
  predicate IsSubsequence<T(==)>(a: seq<T>, b: seq<T>)
    decreases |b|
  {
    a == [] || (b != [] && ((a[0] == b[0] && IsSubsequence(a[1..], b[1..])) || IsSubsequence(a, b[1..])))
  }

  /** Filtering keeps the cards in their order. */
  lemma {:induction false} FilteredIsSubsequence(cards: seq<Card>, filter: string)
    ensures IsSubsequence(Filtered(cards, filter), cards)
  {
    if cards != [] {
      FilteredIsSubsequence(cards[1..], filter);
      var rest := Filtered(cards[1..], filter);
      if Shown(filter, cards[0]) {
        assert Filtered(cards, filter) == [cards[0]] + rest;
        assert ([cards[0]] + rest)[1..] == rest;
      } else {
        assert Filtered(cards, filter) == rest;
      }
    }
  }

  /** Under "all" every card is shown. */
  lemma {:induction false} AllShowsEverything(cards: seq<Card>)
    ensures Filtered(cards, "all") == cards
  {
    if cards != [] {
      AllShowsEverything(cards[1..]);
      assert cards == [cards[0]] + cards[1..];
    }
  }

  /** `handleNext` on `n` shown cards. The index is never negative, so JavaScript's
      remainder and Dafny's agree. */
  function Next(i: int, n: int): (r: int)
    requires 0 <= i && n > 0
    ensures 0 <= r < n
  {
    (i + 1) % n
  }

  /** `handlePrev` on `n` shown cards. */
  function Prev(i: int, n: int): (r: int)
    requires 0 <= i && n > 0
    ensures 0 <= r < n
  {
    (i - 1 + n) % n
  }

  /** Moving on steps to the following index, and from the last back to the first. */
  lemma NextWraps(i: int, n: int)
    requires 0 <= i < n
    ensures Next(i, n) == if i + 1 < n then i + 1 else 0
  {
  }

  /** Moving back steps to the preceding index, and from the first to the last. */
  lemma PrevWraps(i: int, n: int)
    requires 0 <= i < n
    ensures Prev(i, n) == if i == 0 then n - 1 else i - 1
  {
    if i == 0 {
      assert (n - 1) % n == n - 1;
    } else {
      assert (i - 1 + n) % n == i - 1;
    }
  }

  lemma RemainderUpTo(i: int, m: int)
    requires 0 <= i <= m && m > 0
    ensures i % m == if i < m then i else 0
  {
  }

  /** Moving forward then back, or back then forward, returns to the same card. */
  lemma NextPrevInverse(i: int, n: int)
    requires 0 <= i < n
    ensures Prev(Next(i, n), n) == i
    ensures Next(Prev(i, n), n) == i
  {
    NextWraps(i, n);
    PrevWraps(i, n);
    NextWraps(Prev(i, n), n);
    PrevWraps(Next(i, n), n);
  }

  /** What a mark does to a card. */
  datatype Mark = Known | Review

  function Marked(card: Card, mark: Mark, now: int): Card {
    match mark
    case Known => card.(known := true, lastReviewed := Some(now))
    case Review => card.(reviewLater := true, lastReviewed := Some(now))
  }

  /** Every card with the id marked, the others as they were. */
  function MarkAll(cards: seq<Card>, id: string, mark: Mark, now: int): (r: seq<Card>)
    ensures |r| == |cards|
  {
    if cards == [] then []
    else [if cards[0].id == id then Marked(cards[0], mark, now) else cards[0]] + MarkAll(cards[1..], id, mark, now)
  }

  /** The cards with the id are marked and no other card changes. */
  lemma {:induction false} MarkAllEffect(cards: seq<Card>, id: string, mark: Mark, now: int)
    ensures forall k :: 0 <= k < |cards| && cards[k].id != id ==> MarkAll(cards, id, mark, now)[k] == cards[k]
    ensures forall k :: 0 <= k < |cards| && cards[k].id == id ==> MarkAll(cards, id, mark, now)[k] == Marked(cards[k], mark, now)
  {
    if cards != [] {
      MarkAllEffect(cards[1..], id, mark, now);
      var r := MarkAll(cards, id, mark, now);
      assert forall k :: 1 <= k < |cards| ==> r[k] == MarkAll(cards[1..], id, mark, now)[k - 1];
    }
  }

  /** The page: all cards, the filter, the index among the shown cards, the user's XP. */
  datatype Page = Page(cards: seq<Card>, filter: string, index: int, xp: int)

  /** `currentCard`: the shown card at the index, if the index is in range. */
  function Current(p: Page): (r: Option<Card>)
    ensures r.Some? ==> r.value in p.cards && Shown(p.filter, r.value)
  {
    var shown := Filtered(p.cards, p.filter);
    if 0 <= p.index < |shown| then Some(shown[p.index]) else None
  }

  /** `markAsKnown`: without a current card nothing happens; otherwise the cards with
      its id become known, the user gains 10 XP, and the index moves on by the count
      of cards shown before the change. */
  function MarkAsKnown(p: Page, now: int): Page {
    match Current(p)
    case None => p
    case Some(card) =>
      p.(cards := MarkAll(p.cards, card.id, Known, now), xp := p.xp + 10,
         index := Next(p.index, |Filtered(p.cards, p.filter)|))
  }

  /** `markForReview`: as `markAsKnown`, setting the review flag and awarding nothing. */
  function MarkForReview(p: Page, now: int): Page {
    match Current(p)
    case None => p
    case Some(card) =>
      p.(cards := MarkAll(p.cards, card.id, Review, now),
         index := Next(p.index, |Filtered(p.cards, p.filter)|))
  }

  /** Marking known touches only the current card's id, adds exactly 10 XP, and keeps
      the index among the shown cards as they were. */
  lemma MarkAsKnownEffect(p: Page, now: int)
    requires Current(p).Some?
    ensures var r := MarkAsKnown(p, now); var id := Current(p).value.id;
      && r.xp == p.xp + 10 && r.filter == p.filter && |r.cards| == |p.cards|
      && (forall k :: 0 <= k < |p.cards| && p.cards[k].id != id ==> r.cards[k] == p.cards[k])
      && (forall k :: 0 <= k < |p.cards| && p.cards[k].id == id ==> r.cards[k].known && r.cards[k].lastReviewed == Some(now))
      && 0 <= r.index < |Filtered(p.cards, p.filter)|
  {
    MarkAllEffect(p.cards, Current(p).value.id, Known, now);
  }

  /** Marking for review sets only the review flag of the current card's id and leaves
      the XP alone. */
  lemma MarkForReviewEffect(p: Page, now: int)
    requires Current(p).Some?
    ensures var r := MarkForReview(p, now); var id := Current(p).value.id;
      && r.xp == p.xp && r.filter == p.filter && |r.cards| == |p.cards|
      && (forall k :: 0 <= k < |p.cards| && p.cards[k].id != id ==> r.cards[k] == p.cards[k])
      && (forall k :: 0 <= k < |p.cards| && p.cards[k].id == id ==>
            r.cards[k] == p.cards[k].(reviewLater := true, lastReviewed := Some(now)))
  {
    MarkAllEffect(p.cards, Current(p).value.id, Review, now);
  }

  /** Without a current card both marks leave the page as it is. */
  lemma NoCardNoChange(p: Page, now: int)
    requires Current(p).None?
    ensures MarkAsKnown(p, now) == p && MarkForReview(p, now) == p
  {
  }

  /** The cards of `s` whose id differs, in their order. */
  function DropId(s: seq<Card>, id: string): seq<Card> {
    if s == [] then [] else (if s[0].id == id then [] else [s[0]]) + DropId(s[1..], id)
  }

  /** Under "unknown", marking an id known takes exactly the cards with that id out of
      the shown list. */
  lemma {:induction false} MarkedLeaveUnknown(cards: seq<Card>, id: string, now: int)
    ensures Filtered(MarkAll(cards, id, Known, now), "unknown") == DropId(Filtered(cards, "unknown"), id)
  {
    if cards != [] {
      var c := cards[0];
      var rest := Filtered(cards[1..], "unknown");
      MarkedLeaveUnknown(cards[1..], id, now);
      var marked := MarkAll(cards, id, Known, now);
      assert marked[1..] == MarkAll(cards[1..], id, Known, now);
      if !c.known {
        assert Filtered(cards, "unknown") == [c] + rest;
        assert ([c] + rest)[1..] == rest;
      } else {
        assert Filtered(cards, "unknown") == rest;
      }
    }
  }

  /** Among cards with distinct ids, dropping one card's id removes just that card. */
  lemma {:induction false} DropDistinct(s: seq<Card>, i: nat)
    requires i < |s|
    requires forall j, k :: 0 <= j < k < |s| ==> s[j].id != s[k].id
    ensures DropId(s, s[i].id) == s[..i] + s[i + 1..]
  {
    if i == 0 {
      NoIdDropsNothing(s[1..], s[0].id);
    } else {
      DropDistinct(s[1..], i - 1);
      assert s[1..][i - 1] == s[i];
      assert s[..i] == [s[0]] + s[1..][..i - 1];
      assert s[i + 1..] == s[1..][i..];
    }
  }

  lemma {:induction false} NoIdDropsNothing(s: seq<Card>, id: string)
    requires forall k :: 0 <= k < |s| ==> s[k].id != id
    ensures DropId(s, id) == s
  {
    if s != [] {
      NoIdDropsNothing(s[1..], id);
      assert s == [s[0]] + s[1..];
    }
  }

  /** The intended `markAsKnown`: when the marked card leaves the shown list the index
      stays where it is (wrapping to the start past the end), so the card that
      followed it comes next; otherwise the index moves on as before. */
  function MarkAsKnownInPlace(p: Page, now: int): Page {
    match Current(p)
    case None => p
    case Some(card) =>
      var cards := MarkAll(p.cards, card.id, Known, now);
      var remaining := |Filtered(cards, p.filter)|;
      var index := if Shown(p.filter, Marked(card, Known, now)) then Next(p.index, |Filtered(p.cards, p.filter)|)
                   else if remaining == 0 then 0 else p.index % remaining;
      p.(cards := cards, xp := p.xp + 10, index := index)
  }

  /** The shown list is "unknown", its ids are distinct and the index is in range. */
  predicate DistinctUnknown(p: Page) {
    var f := Filtered(p.cards, p.filter);
    && p.filter == "unknown" && 0 <= p.index < |f|
    && forall j, k :: 0 <= j < k < |f| ==> f[j].id != f[k].id
  }

  /** Under "unknown", marking the current card known takes just that card out of the
      shown list. */
  lemma CurrentLeavesUnknown(p: Page, now: int)
    requires DistinctUnknown(p)
    ensures var f := Filtered(p.cards, p.filter);
      && Current(p) == Some(f[p.index])
      && !Shown(p.filter, Marked(f[p.index], Known, now))
      && Filtered(MarkAll(p.cards, f[p.index].id, Known, now), p.filter) == f[..p.index] + f[p.index + 1..]
  {
    var f := Filtered(p.cards, p.filter);
    MarkedLeaveUnknown(p.cards, f[p.index].id, now);
    DropDistinct(f, p.index);
  }

  /** As written, under "unknown" the card after the marked one is never shown next:
      the one after it is, or none at all when the marked card was the last but one. */
  lemma MarkAsKnownSkipsCard(p: Page, now: int)
    requires DistinctUnknown(p) && p.index + 1 < |Filtered(p.cards, p.filter)|
    ensures var f := Filtered(p.cards, p.filter);
      && Current(MarkAsKnown(p, now)) == (if p.index + 2 < |f| then Some(f[p.index + 2]) else None)
      && Current(MarkAsKnown(p, now)) != Some(f[p.index + 1])
  {
    var f := Filtered(p.cards, p.filter);
    var i := p.index;
    CurrentLeavesUnknown(p, now);
    var shown := f[..i] + f[i + 1..];
    var r := MarkAsKnown(p, now);
    NextWraps(i, |f|);
    assert r == p.(cards := MarkAll(p.cards, f[i].id, Known, now), xp := p.xp + 10, index := Next(i, |f|));
    assert Filtered(r.cards, r.filter) == shown;
    if i + 2 < |f| {
      assert shown[i + 1] == f[i + 2];
      assert f[i + 2].id != f[i + 1].id;
    }
  }

  /** Under "unknown", with distinct ids among at least two shown cards, the intended
      mark shows the card that followed the marked one. */
  lemma MarkAsKnownInPlaceShowsNext(p: Page, now: int)
    requires DistinctUnknown(p) && |Filtered(p.cards, p.filter)| >= 2
    ensures var f := Filtered(p.cards, p.filter);
      Current(MarkAsKnownInPlace(p, now)) == Some(f[Next(p.index, |f|)])
  {
    var f := Filtered(p.cards, p.filter);
    var i := p.index;
    CurrentLeavesUnknown(p, now);
    var shown := f[..i] + f[i + 1..];
    var cards := MarkAll(p.cards, f[i].id, Known, now);
    assert |shown| == |f| - 1;
    var r := MarkAsKnownInPlace(p, now);
    assert r == p.(cards := cards, xp := p.xp + 10, index := i % (|f| - 1));
    NextWraps(i, |f|);
    RemainderUpTo(i, |f| - 1);
    if i < |f| - 1 {
      assert r.index == i;
      assert shown[i] == f[i + 1];
    } else {
      assert r.index == 0;
      assert shown[0] == f[0];
    }
  }
}
