/** The flashcard service: a list of cards with numeric ids, kept in one file. Cards
    are added with the next free id, updated field by field, deleted by id, and
    marking one learned awards XP through the XP service. */
module Flashcards {
  import opened Wrappers
  import opened Search
  import opened Numbering
  import opened Progress
  import opened AchievementService
  import opened XpService

  datatype Flashcard = Flashcard(
    id: int,
    term: string,
    definition: string,
    language: string,
    topic: string,
    difficulty: string,
    known: bool,
    reviewLater: bool)

  /** The fields an update supplies; unlike a course, a card takes a supplied id too. */
  datatype FlashcardChanges = FlashcardChanges(
    id: Option<int>,
    term: Option<string>,
    definition: Option<string>,
    language: Option<string>,
    topic: Option<string>,
    difficulty: Option<string>,
    known: Option<bool>,
    reviewLater: Option<bool>)

  /** `dict.update`: every supplied field replaces the card's own. */
  function Merged(card: Flashcard, ch: FlashcardChanges): Flashcard {
    Flashcard(ch.id.GetOr(card.id), ch.term.GetOr(card.term), ch.definition.GetOr(card.definition),
              ch.language.GetOr(card.language), ch.topic.GetOr(card.topic), ch.difficulty.GetOr(card.difficulty),
              ch.known.GetOr(card.known), ch.reviewLater.GetOr(card.reviewLater))
  }

  function CardIds(cards: seq<Flashcard>): (r: seq<int>)
    ensures |r| == |cards| && forall k :: 0 <= k < |cards| ==> r[k] == cards[k].id
  {
    if cards == [] then [] else [cards[0].id] + CardIds(cards[1..])
  }

  /** The first position of a card with the id, if any. */
  function FindCard(cards: seq<Flashcard>, id: int): (r: Option<nat>)
    ensures r.None? <==> forall k :: 0 <= k < |cards| ==> cards[k].id != id
    ensures r.Some? ==> r.value < |cards| && cards[r.value].id == id
                        && forall k :: 0 <= k < r.value ==> cards[k].id != id
  {
    FirstIndex(cards, (c: Flashcard) => c.id == id)
  }

  /** The cards without the id, in their order. */
  function WithoutCard(cards: seq<Flashcard>, id: int): (r: seq<Flashcard>)
    ensures |r| <= |cards|
    ensures |r| == |cards| <==> forall k :: 0 <= k < |cards| ==> cards[k].id != id
    ensures forall c :: c in r <==> c in cards && c.id != id
  {
    if cards == [] then []
    else if cards[0].id != id then [cards[0]] + WithoutCard(cards[1..], id)
    else WithoutCard(cards[1..], id)
  }

  /** What marking a card learned answers. */
  datatype MarkResult = MarkResult(
    success: bool,
    newAchievements: seq<Achievements.Achievement>,
    achievementXpEarned: int,
    totalXpEarned: int,
    updatedProgress: Option<UserProgress>)

  class FlashcardService {
    var flashcards: seq<Flashcard>

    constructor(initial: seq<Flashcard>)
      ensures flashcards == initial
    {
      flashcards := initial;
    }

    /** `add_flashcard`: the card gets one more than the largest id present (1 for an
        empty list), so an id no card has, and goes at the end. */
    method AddFlashcard(card: Flashcard) returns (added: Flashcard)
      modifies this
      ensures added == card.(id := NextId(CardIds(old(flashcards))))
      ensures forall k :: 0 <= k < |old(flashcards)| ==> old(flashcards)[k].id < added.id
      ensures flashcards == old(flashcards) + [added]
    {
      var ids := CardIds(flashcards);
      added := card.(id := NextId(ids));
      flashcards := flashcards + [added];
    }

    /** `update_flashcard`: the first card with the id takes the supplied fields and the
        others are untouched; an unknown id is an error and changes nothing. */
    method UpdateFlashcard(flashcardId: int, updated: FlashcardChanges) returns (r: Result<Flashcard>)
      modifies this
      ensures FindCard(old(flashcards), flashcardId).None? ==>
        r == Failure("Flashcard not found") && flashcards == old(flashcards)
      ensures FindCard(old(flashcards), flashcardId).Some? ==>
        var i := FindCard(old(flashcards), flashcardId).value;
        && r == Success(Merged(old(flashcards)[i], updated))
        && flashcards == old(flashcards)[i := r.value]
    {
      for i := 0 to |flashcards|
        invariant forall k :: 0 <= k < i ==> flashcards[k].id != flashcardId
      {
        if flashcards[i].id == flashcardId {
          flashcards := flashcards[i := Merged(flashcards[i], updated)];
          return Success(flashcards[i]);
        }
      }
      return Failure("Flashcard not found");
    }

    /** `delete_flashcard`: removes every card with the id; when there is none it is an
        error and nothing is saved. */
    method DeleteFlashcard(flashcardId: int) returns (r: Result<()>)
      modifies this
      ensures r.Failure? <==> forall k :: 0 <= k < |old(flashcards)| ==> old(flashcards)[k].id != flashcardId
      ensures r.Failure? ==> r.error == "Flashcard not found" && flashcards == old(flashcards)
      ensures r.Success? ==> flashcards == WithoutCard(old(flashcards), flashcardId)
    {
      var newFlashcards := WithoutCard(flashcards, flashcardId);
      if |newFlashcards| == |flashcards| {
        return Failure("Flashcard not found");
      }
      flashcards := newFlashcards;
      return Success(());
    }
  }

  /** `mark_flashcard_learned`: awards 10 XP through the flashcard award and passes
      its answer on. */
  method MarkFlashcardLearned(store: ProgressStore, uid: string, flashcardId: int, today: int) returns (result: MarkResult)
    modifies store
    ensures var record := AwardedRecord(old(store.users), uid, today, FlashcardXp);
      && store.users == old(store.users)[uid := record]
      && record.totalXp == RecordOf(old(store.users), uid, today).totalXp + 10
      && result == MarkResult(true, Reported(old(store.users), uid, today, FlashcardLearned, 1, NoData), 0, 10, Some(record))
    ensures old(store.Valid()) ==> store.Valid()
  {
    var award := AwardXpForFlashcard(store, uid, flashcardId, FlashcardXp, today);
    result := MarkResult(true, award.newAchievements, award.achievementXpEarned, award.totalXpEarned, award.progress);
  }
}
