/** src/components/FlashcardDeck.tsx: a Leitner deck. The cards due today are those
    whose review date is not after today's date as strings; each grade moves the card
    to a new box and schedules its next review a number of days ahead. The clock is the
    `now` parameter (milliseconds) and `stamp` stands for `new Date().toISOString()`. */
module Flashcards {
  import opened Common
  import opened Calendar
  import opened Model
  import opened Storage

  // ---------------------------------------------------------------------------
  // The due set
  // ---------------------------------------------------------------------------

  /** JavaScript's `a <= b` on strings: lexicographic on code units. */
  predicate LexLe(a: string, b: string) {
    a == [] || (b != [] && (a[0] < b[0] || (a[0] == b[0] && LexLe(a[1..], b[1..]))))
  }

  lemma {:induction false} LexLeReflexive(a: string)
    ensures LexLe(a, a)
  {
    if a != [] {
      LexLeReflexive(a[1..]);
    }
  }

  /** A string that extends `b` is after `b`: a full ISO time is never `<=` the date it
      begins with. */
  lemma {:induction false} LongerIsLater(b: string, t: string)
    ensures LexLe(b + t, b) <==> t == []
  {
    if b == [] {
      assert b + t == t;
      if t == [] {
        assert LexLe([], []);
      }
    } else {
      assert (b + t)[0] == b[0] && (b + t)[1..] == b[1..] + t;
      LongerIsLater(b[1..], t);
    }
  }

  function IsDue(today: string): Flashcard -> bool {
    (c: Flashcard) => LexLe(c.nextReviewDate, today)
  }

  /** `allCards.filter(c => c.nextReviewDate <= today)`. */
  function DueCards(cards: seq<Flashcard>, today: string): (r: seq<Flashcard>)
    ensures forall c :: c in r <==> c in cards && LexLe(c.nextReviewDate, today)
  {
    var r := Filter(cards, IsDue(today));
    assert forall c :: c in r ==> c in cards && LexLe(c.nextReviewDate, today) by {
      forall c | c in r
        ensures c in cards && LexLe(c.nextReviewDate, today)
      {
        var i :| 0 <= i < |r| && r[i] == c;
      }
    }
    assert forall c :: c in cards && LexLe(c.nextReviewDate, today) ==> c in r by {
      forall c | c in cards && LexLe(c.nextReviewDate, today)
        ensures c in r
      {
        var i :| 0 <= i < |cards| && cards[i] == c;
      }
    }
    r
  }

  /** The built-in card's date is the full ISO time of module load, so on the calendar
      day it was loaded it is not yet due: its date string extends today's. */
  lemma SeededCardNotDueThatDay(today: string, rest: string)
    requires rest != []
    ensures DueCards(InitialFlashcards(today + rest), today) == []
  {
    LongerIsLater(today, rest);
    var cards := InitialFlashcards(today + rest);
    assert !IsDue(today)(cards[0]);
    assert cards[1..] == [];
  }

  // ---------------------------------------------------------------------------
  // Grading
  // ---------------------------------------------------------------------------

  datatype Quality = Forgot | Hard | Good | Easy

  /** `2 ** k`. */
  function Pow2(k: nat): (r: nat)
    ensures r >= 1
  {
    if k == 0 then 1 else 2 * Pow2(k - 1)
  }

  lemma {:induction false} Pow2Monotone(a: nat, b: nat)
    requires a <= b
    ensures Pow2(a) <= Pow2(b)
    decreases b
  {
    if a < b {
      Pow2Monotone(a, b - 1);
    }
  }

  /** The whole days that `setDate(getDate() + Math.pow(2, k))` moves by: `2 ** k`, and
      none for a negative `k`, whose power is a fraction that the day arithmetic
      truncates away. */
  function PowDays(k: int): nat {
    if k >= 0 then Pow2(k) else 0
  }

  function Min(a: int, b: int): int { if a <= b then a else b }

  /** The box a grade moves a card in box `box` to. */
  function NextBox(box: int, q: Quality): int {
    match q
    case Forgot => 1
    case Hard => 1
    case Good => Min(box + 1, 5)
    case Easy => Min(box + 2, 5)
  }

  /** The days until the next review. */
  function Interval(box: int, q: Quality): nat {
    match q
    case Forgot => 0
    case Hard => 1
    case Good => PowDays(NextBox(box, Good))
    case Easy => PowDays(NextBox(box, Easy)) + 2
  }

  /** From a box in 0..5 every grade lands in 1..5; 'forgot' and 'hard' restart the card. */
  lemma BoxesStayInRange(box: int, q: Quality)
    requires 0 <= box <= 5
    ensures 1 <= NextBox(box, q) <= 5
    ensures q == Forgot || q == Hard ==> NextBox(box, q) == 1
    ensures q == Good || q == Easy ==> NextBox(box, q) >= box
  {
  }

  /** 'easy' always waits longer than 'good' for the same card, and 'hard' longer than
      'forgot'; from box -1 up, 'good' waits at least as long as 'hard'. */
  lemma EasyWaitsLonger(box: int)
    ensures Interval(box, Easy) > Interval(box, Good)
    ensures Interval(box, Hard) > Interval(box, Forgot)
    ensures box >= -1 ==> Interval(box, Good) >= Interval(box, Hard)
  {
    var g, e := NextBox(box, Good), NextBox(box, Easy);
    if g >= 0 {
      Pow2Monotone(g, e);
    }
  }

  /** The grading if-chain of `processReview`: the new box and the days to wait. */
  method Grade(box: int, q: Quality) returns (nextBox: int, daysToAdd: nat)
    ensures nextBox == NextBox(box, q) && daysToAdd == Interval(box, q)
  {
    nextBox := box;
    daysToAdd := 1;
    if q == Forgot {
      nextBox := 1;
      daysToAdd := 0;
    } else if q == Hard {
      nextBox := 1;
      daysToAdd := 1;
    } else if q == Good {
      nextBox := Min(box + 1, 5);
      daysToAdd := PowDays(nextBox);
    } else if q == Easy {
      nextBox := Min(box + 2, 5);
      daysToAdd := PowDays(nextBox) + 2;
    }
  }

  /** The copied card of `processReview` with its fields set. */
  method ReviewCard(card: Flashcard, q: Quality, now: int, dayText: int -> string, stamp: string) returns (r: Flashcard)
    ensures r == Reviewed(card, q, now, dayText, stamp)
  {
    var nextBox, daysToAdd := Grade(card.box, q);
    r := card.(box := nextBox, nextReviewDate := dayText(DayOf(now) + daysToAdd), lastReviewed := Some(stamp));
  }

  /** The card after a review: its new box, the date `days` ahead of today and the time
      of the review; the rest of the card is untouched. */
  function Reviewed(card: Flashcard, q: Quality, now: int, dayText: int -> string, stamp: string): (r: Flashcard)
    ensures r.id == card.id && r.front == card.front && r.back == card.back && r.subject == card.subject
    ensures r.box == NextBox(card.box, q) && r.lastReviewed == Some(stamp)
    ensures r.nextReviewDate == dayText(DayOf(now) + Interval(card.box, q))
  {
    card.(box := NextBox(card.box, q), nextReviewDate := dayText(DayOf(now) + Interval(card.box, q)),
          lastReviewed := Some(stamp))
  }

  /** `cards.map(c => c.id === card.id ? card : c)`. */
  function ReplaceById(cards: seq<Flashcard>, card: Flashcard): (r: seq<Flashcard>)
    ensures |r| == |cards|
    ensures forall i :: 0 <= i < |cards| ==> r[i] == if cards[i].id == card.id then card else cards[i]
  {
    if cards == [] then [] else [if cards[0].id == card.id then card else cards[0]] + ReplaceById(cards[1..], card)
  }

  /** Only the cards with the reviewed id change, and each becomes the reviewed card. */
  lemma ReplaceOnlyThatCard(cards: seq<Flashcard>, card: Flashcard, c: Flashcard)
    ensures c in ReplaceById(cards, card) <==>
      (c == card && exists i :: 0 <= i < |cards| && cards[i].id == card.id) || (c in cards && c.id != card.id)
  {
    var r := ReplaceById(cards, card);
    if c in r {
      var i :| 0 <= i < |r| && r[i] == c;
    }
    if c in cards && c.id != card.id {
      var i :| 0 <= i < |cards| && cards[i] == c;
      assert r[i] == c;
    }
    if c == card && exists i :: 0 <= i < |cards| && cards[i].id == card.id {
      var i :| 0 <= i < |cards| && cards[i].id == card.id;
      assert r[i] == c;
    }
  }

  /** The deck saved by a review is the session's deck with one card replaced, so a card
      reviewed earlier in the session, under another id, is saved back in its old form. */
  lemma EarlierReviewLost(cards: seq<Flashcard>, first: Flashcard, second: Flashcard)
    requires first.id != second.id && first !in cards
    ensures first !in ReplaceById(cards, second)
  {
    ReplaceOnlyThatCard(cards, second, first);
  }

  // ---------------------------------------------------------------------------
  // The component
  // ---------------------------------------------------------------------------

  /** A card added today is due today, at the end of the deck. */
  lemma AddedCardIsDue(cards: seq<Flashcard>, card: Flashcard, today: string)
    requires card.nextReviewDate == today
    ensures card in DueCards(cards + [card], today)
  {
    LexLeReflexive(today);
    assert (cards + [card])[|cards|] == card;
  }

  /** The review page's state. Its operations read the clock as `now` and take the
      day formatting as `dayText` (the app's is `DayText()`, so `dayText(DayOf(now))`
      is `Today(now)`); the contracts hold for any formatting. */
  class Deck {
    var cards: seq<Flashcard>
    var dueCards: seq<Flashcard>
    var currentCardIndex: nat
    var isFlipped: bool
    var showAddForm: bool
    var newFront: string
    var newBack: string
    var newSubject: Subject
    const store: Store

    /** The initial form and the mount effect `loadCards`. */
    constructor (store: Store, now: int, dayText: int -> string)
      ensures this.store == store
      ensures cards == GetFlashcards(store.data, store.loadedAt) && dueCards == DueCards(cards, dayText(DayOf(now)))
      ensures currentCardIndex == 0 && !isFlipped && !showAddForm
      ensures newFront == "" && newBack == "" && newSubject == CN
    {
      this.store := store;
      var all := GetFlashcards(store.data, store.loadedAt);
      cards := all;
      dueCards := DueCards(all, dayText(DayOf(now)));
      currentCardIndex := 0;
      isFlipped := false;
      showAddForm := false;
      newFront, newBack, newSubject := "", "", CN;
    }

    /** `loadCards`: the whole deck, today's due cards, the first of them face up. */
    method LoadCards(now: int, dayText: int -> string)
      modifies this
      ensures cards == GetFlashcards(store.data, store.loadedAt) && dueCards == DueCards(cards, dayText(DayOf(now)))
      ensures currentCardIndex == 0 && !isFlipped
      ensures showAddForm == old(showAddForm) && newFront == old(newFront) && newBack == old(newBack)
      ensures newSubject == old(newSubject)
    {
      var allCards := GetFlashcards(store.data, store.loadedAt);
      cards := allCards;
      var today := dayText(DayOf(now));
      dueCards := DueCards(allCards, today);
      currentCardIndex := 0;
      isFlipped := false;
    }

    /** `handleAddCard`: with a front and a back, appends a card in box 1 dated today,
        clears the form and reloads. */
    method HandleAddCard(now: int, dayText: int -> string, stamp: string)
      requires store.Valid()
      modifies this, store
      ensures store.Valid()
      ensures old(newFront) == "" || old(newBack) == "" ==>
        store.data == old(store.data) && cards == old(cards) && dueCards == old(dueCards) &&
        currentCardIndex == old(currentCardIndex) && newFront == old(newFront) && newBack == old(newBack) &&
        showAddForm == old(showAddForm) && isFlipped == old(isFlipped)
      ensures old(newFront) != "" && old(newBack) != "" ==>
        var card := Flashcard("fc_" + IntString(now), old(newFront), old(newBack), old(newSubject), 1, dayText(DayOf(now)), None);
        cards == GetFlashcards(old(store.data), store.loadedAt) + [card] &&
        store.data == WithBackup(old(store.data)[FlashcardsKey := FlashcardsValue(cards)], store.loadedAt, stamp) &&
        dueCards == DueCards(cards, dayText(DayOf(now))) && card in dueCards &&
        currentCardIndex == 0 && !isFlipped && newFront == "" && newBack == "" && !showAddForm
      ensures newSubject == old(newSubject)
    {
      if newFront != "" && newBack != "" {
        var newCard := Flashcard("fc_" + IntString(now), newFront, newBack, newSubject, 1, dayText(DayOf(now)), None);
        AddCard(newCard, now, dayText, stamp);
      }
    }

    /** The accepted branch of `handleAddCard`: saves the card, clears and closes the
        form, and reloads, after which the new card is among the due ones. */
    method AddCard(card: Flashcard, now: int, dayText: int -> string, stamp: string)
      requires store.Valid() && card.nextReviewDate == dayText(DayOf(now))
      modifies this, store
      ensures store.Valid()
      ensures cards == GetFlashcards(old(store.data), store.loadedAt) + [card]
      ensures store.data == WithBackup(old(store.data)[FlashcardsKey := FlashcardsValue(cards)], store.loadedAt, stamp)
      ensures dueCards == DueCards(cards, dayText(DayOf(now))) && card in dueCards
      ensures currentCardIndex == 0 && !isFlipped && newFront == "" && newBack == "" && !showAddForm
      ensures newSubject == old(newSubject)
    {
      ghost var before := GetFlashcards(store.data, store.loadedAt);
      store.AddFlashcard(card, stamp);
      newFront := "";
      newBack := "";
      showAddForm := false;
      LoadCards(now, dayText);
      AddedCardIsDue(before, card, dayText(DayOf(now)));
    }

    /** `processReview(quality)`: grades the current due card, saves the session's deck
        with that card replaced, then shows the next due card or, after the last one,
        reloads. */
    method ProcessReview(q: Quality, now: int, dayText: int -> string, stamp: string)
      requires store.Valid()
      modifies this, store
      ensures store.Valid()
      ensures old(currentCardIndex) >= |old(dueCards)| ==>
        store.data == old(store.data) && cards == old(cards) && dueCards == old(dueCards) &&
        currentCardIndex == old(currentCardIndex) && isFlipped == old(isFlipped)
      ensures old(currentCardIndex) < |old(dueCards)| ==>
        var card := Reviewed(old(dueCards)[old(currentCardIndex)], q, now, dayText, stamp);
        store.data == WithBackup(old(store.data)[FlashcardsKey := FlashcardsValue(ReplaceById(old(cards), card))],
                                 store.loadedAt, stamp) &&
        !isFlipped &&
        if old(currentCardIndex) < |old(dueCards)| - 1 then
          currentCardIndex == old(currentCardIndex) + 1 && cards == old(cards) && dueCards == old(dueCards)
        else
          currentCardIndex == 0 && cards == ReplaceById(old(cards), card) && dueCards == DueCards(cards, dayText(DayOf(now)))
      ensures showAddForm == old(showAddForm) && newFront == old(newFront) && newBack == old(newBack)
      ensures newSubject == old(newSubject)
    {
      if currentCardIndex < |dueCards| {
        var card := dueCards[currentCardIndex];
        var reviewed := ReviewCard(card, q, now, dayText, stamp);
        var updatedCards := ReplaceById(cards, reviewed);
        store.SaveFlashcards(updatedCards, stamp);
        Advance(now, dayText);
      }
    }

    /** After a review: the next due card face down, or a reload after the last one. */
    method Advance(now: int, dayText: int -> string)
      modifies this
      ensures !isFlipped
      ensures old(currentCardIndex) < |old(dueCards)| - 1 ==>
        currentCardIndex == old(currentCardIndex) + 1 && cards == old(cards) && dueCards == old(dueCards)
      ensures !(old(currentCardIndex) < |old(dueCards)| - 1) ==>
        currentCardIndex == 0 && cards == GetFlashcards(store.data, store.loadedAt) && dueCards == DueCards(cards, dayText(DayOf(now)))
      ensures showAddForm == old(showAddForm) && newFront == old(newFront) && newBack == old(newBack)
      ensures newSubject == old(newSubject)
    {
      if currentCardIndex < |dueCards| - 1 {
        isFlipped := false;
        currentCardIndex := currentCardIndex + 1;
      } else {
        LoadCards(now, dayText);
      }
    }
  }
}
