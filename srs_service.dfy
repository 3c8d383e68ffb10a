/** The SM-2 scheduler: the in-memory list of schedule records, the queries
    on it, registration of new words, and the SM-2 review recurrence.
    Persistence goes through an `SrsStore`. */
module Srs {
  import opened Wrappers
  import opened Seqs
  import opened Domain
  import opened ReviewRatings

  /** The standard starting ease factor of SM-2. */
  const InitialEase: real := 2.5
  /** SM-2 never lets the ease factor fall below this. */
  const MinEase: real := 1.3

  // ---------------------------------------------------------------------
  // The SM-2 recurrence on one record

  /** Swift's `Double.rounded()`: the nearest integer, ties away from zero. */
  function RoundHalfAwayFromZero(x: real): (n: int)
    ensures x - 0.5 <= n as real <= x + 0.5
    ensures n as real - x == 0.5 ==> x >= 0.0
    ensures x - n as real == 0.5 ==> x < 0.0
  {
    if x >= 0.0 then (x + 0.5).Floor else -((-x + 0.5).Floor)
  }

  /** The ease factor after a passing review of quality `q`. */
  function NextEase(ease: real, q: int): (e: real)
    ensures e >= MinEase
    ensures e >= ease + (0.1 - (5 - q) as real * (0.08 + (5 - q) as real * 0.02))
    ensures e == MinEase || e == ease + (0.1 - (5 - q) as real * (0.08 + (5 - q) as real * 0.02))
  {
    var dq := (5 - q) as real;
    var newEase := ease + (0.1 - dq * (0.08 + dq * 0.02));
    if MinEase >= newEase then MinEase else newEase
  }

  /** The record after one review of quality `q` at moment `now`: a failing
      grade is a lapse that restarts the repetitions with a one-day interval;
      a passing grade counts one more repetition, grows the interval (1 day,
      then 6 days, then the previous interval times the ease factor) and
      adjusts the ease factor. Either way the card is due `intervalDays`
      after the start of today. */
  function Reviewed(item: SrsItem, q: int, now: Instant): (r: SrsItem)
    ensures r.wordId == item.wordId
    ensures r.lastReviewedAt == Some(now)
    ensures r.intervalDays >= 1 && r.dueDate == now.day + r.intervalDays
  {
    if q < PassQuality then
      item.(repetitions := 0, intervalDays := 1, lapses := item.lapses + 1,
            lastReviewedAt := Some(now), dueDate := now.day + 1)
    else
      var reps := item.repetitions + 1;
      var interval :=
        if reps == 1 then 1
        else if reps == 2 then 6
        else Max(1, RoundHalfAwayFromZero(item.intervalDays as real * item.easeFactor));
      item.(repetitions := reps, intervalDays := interval,
            easeFactor := NextEase(item.easeFactor, q),
            lastReviewedAt := Some(now), dueDate := now.day + interval)
  }

  /** A failing review resets the repetitions, sets a one-day interval,
      counts a lapse and leaves the ease factor alone. */
  lemma FailedReviewIsALapse(item: SrsItem, q: int, now: Instant)
    requires q < PassQuality
    ensures var r := Reviewed(item, q, now);
      r.repetitions == 0 && r.intervalDays == 1 && r.lapses == item.lapses + 1
      && r.easeFactor == item.easeFactor && r.dueDate == now.day + 1
  {
  }

  /** A passing review: one more repetition, the 1-day and 6-day bootstrap
      intervals, then the rounded product floored at one day; the ease factor
      never ends below its floor. */
  lemma PassedReviewGrowsInterval(item: SrsItem, q: int, now: Instant)
    requires q >= PassQuality
    ensures var r := Reviewed(item, q, now);
      && r.repetitions == item.repetitions + 1
      && r.lapses == item.lapses
      && r.easeFactor >= MinEase
      && r.easeFactor == NextEase(item.easeFactor, q)
      && (r.repetitions == 1 ==> r.intervalDays == 1)
      && (r.repetitions == 2 ==> r.intervalDays == 6)
      && (r.repetitions != 1 && r.repetitions != 2 ==>
            r.intervalDays == Max(1, RoundHalfAwayFromZero(item.intervalDays as real * item.easeFactor)))
  {
  }

  /** With the app's three ratings the ease factor never goes down: `Hard`
      fails and keeps it, `Normal` adds exactly 0, `Easy` adds 0.1 (exact
      arithmetic), and the floor can only raise it. */
  lemma EaseNeverDecreasesInOneReview(item: SrsItem, rating: ReviewRating, now: Instant)
    ensures Reviewed(item, Quality(rating), now).easeFactor >= item.easeFactor
    ensures rating == Easy ==> Reviewed(item, Quality(rating), now).easeFactor >= item.easeFactor + 0.1
  {
    var q := Quality(rating);
    if q >= PassQuality {
      var dq := (5 - q) as real;
      assert rating == Normal ==> dq * (0.08 + dq * 0.02) == 0.1;
      assert rating == Easy ==> dq == 0.0;
    }
  }

  /** One review given at a moment. */
  datatype Review = Review(rating: ReviewRating, at: Instant)

  /** The record after a sequence of reviews, oldest first. */
  function ReviewedAll(item: SrsItem, reviews: seq<Review>): SrsItem
    decreases |reviews|
  {
    if reviews == [] then item
    else ReviewedAll(Reviewed(item, Quality(reviews[0].rating), reviews[0].at), reviews[1..])
  }

  /** Over any sequence of ratings the ease factor never decreases, and once
      at or above the SM-2 floor it stays there; lapses never decrease. */
  lemma {:induction false} EaseNeverDecreases(item: SrsItem, reviews: seq<Review>)
    ensures ReviewedAll(item, reviews).easeFactor >= item.easeFactor
    ensures ReviewedAll(item, reviews).lapses >= item.lapses
    ensures item.easeFactor >= MinEase ==> ReviewedAll(item, reviews).easeFactor >= MinEase
    decreases |reviews|
  {
    if reviews != [] {
      var next := Reviewed(item, Quality(reviews[0].rating), reviews[0].at);
      EaseNeverDecreasesInOneReview(item, reviews[0].rating, reviews[0].at);
      EaseNeverDecreases(next, reviews[1..]);
    }
  }

  /** The body of `applySM2` for one record: the fields of a local copy are
      updated one after another, as the source does. */
  method ReviewStep(start: SrsItem, q: int, now: Instant) returns (item: SrsItem)
    ensures item == Reviewed(start, q, now)
  {
    item := start;
    var today := now.day;

    if q < 3 {
      item := item.(repetitions := 0);
      item := item.(intervalDays := 1);
      item := item.(lapses := item.lapses + 1);
    } else {
      item := item.(repetitions := item.repetitions + 1);
      if item.repetitions == 1 {
        item := item.(intervalDays := 1);
      } else if item.repetitions == 2 {
        item := item.(intervalDays := 6);
      } else {
        var next := RoundHalfAwayFromZero(item.intervalDays as real * item.easeFactor);
        item := item.(intervalDays := Max(1, next));
      }
      assert item.easeFactor == start.easeFactor;
      var dq := (5 - q) as real;
      var newEase := item.easeFactor + (0.1 - dq * (0.08 + dq * 0.02));
      item := item.(easeFactor := if MinEase >= newEase then MinEase else newEase);
      assert item.easeFactor == NextEase(start.easeFactor, q);
    }

    item := item.(lastReviewedAt := Some(now));
    item := item.(dueDate := today + item.intervalDays);
  }

  // ---------------------------------------------------------------------
  // The record list

  /** The position of the first record for `wordId` (`firstIndex(where:)`). */
  function IndexOfWord(items: seq<SrsItem>, wordId: string): (r: Option<nat>)
    ensures r.Some? ==> r.value < |items| && items[r.value].wordId == wordId
    ensures r.Some? ==> forall j :: 0 <= j < r.value ==> items[j].wordId != wordId
    ensures r.None? <==> wordId !in ItemIds(items)
  {
    if items == [] then None
    else if items[0].wordId == wordId then Some(0)
    else match IndexOfWord(items[1..], wordId)
      case None => None
      case Some(i) => Some(i + 1)
  }

  /** `cached.contains(where: { $0.wordId == wordId })` */
  predicate Tracks(items: seq<SrsItem>, wordId: string) {
    wordId in ItemIds(items)
  }

  /** A freshly registered record: no reviews yet, the standard ease. */
  function NewItem(wordId: string, due: Day): SrsItem {
    SrsItem(wordId, 0, 0, InitialEase, due, 0, None)
  }

  /** The first due day of a word registered at `now`. */
  function FirstDueDay(now: Instant, firstReviewTomorrow: bool): Day {
    if firstReviewTomorrow then now.day + 1 else now.day
  }

  /** The list after registering `wordId`: unchanged if the word is already
      tracked, otherwise one new record at the end. */
  function Registered(items: seq<SrsItem>, wordId: string, due: Day): seq<SrsItem> {
    if Tracks(items, wordId) then items else items + [NewItem(wordId, due)]
  }

  lemma {:induction false} ItemIdsAppend(a: seq<SrsItem>, b: seq<SrsItem>)
    ensures ItemIds(a + b) == ItemIds(a) + ItemIds(b)
  {
    var l, r := ItemIds(a + b), ItemIds(a) + ItemIds(b);
    forall i | 0 <= i < |l|
      ensures l[i] == r[i]
    {
      if i < |a| {
        assert (a + b)[i] == a[i];
      } else {
        assert (a + b)[i] == b[i - |a|];
      }
    }
  }

  /** Registration never loses a record, afterwards the word is tracked, and
      it keeps word identifiers unique. */
  lemma RegisteredTracksOnce(items: seq<SrsItem>, wordId: string, due: Day)
    ensures var r := Registered(items, wordId, due);
      Tracks(r, wordId) && items <= r && |r| <= |items| + 1
      && (UniqueItemIds(items) ==> UniqueItemIds(r))
  {
    if !Tracks(items, wordId) {
      ItemIdsAppend(items, [NewItem(wordId, due)]);
    }
  }

  /** The list after `upsert(item)`: the first record with the same word is
      replaced in place, or else the item is appended. */
  function Upserted(items: seq<SrsItem>, item: SrsItem): seq<SrsItem> {
    match IndexOfWord(items, item.wordId)
    case Some(i) => items[i := item]
    case None => items + [item]
  }

  /** Upsert grows the list by at most one, leaves the item in it, keeps
      every other word's records, and keeps word identifiers unique. */
  lemma {:induction false} UpsertedKeepsIdsUnique(items: seq<SrsItem>, item: SrsItem)
    ensures var r := Upserted(items, item);
      && |items| <= |r| <= |items| + 1
      && item in r
      && (forall x :: x in items && x.wordId != item.wordId ==> x in r)
      && (UniqueItemIds(items) ==> UniqueItemIds(r))
  {
    match IndexOfWord(items, item.wordId)
    case Some(i) =>
      ReplacedKeepsIds(items, i, item);
    case None =>
      ItemIdsAppend(items, [item]);
  }

  /** Replacing a record by one for the same word keeps the identifier list
      and every record of another word. */
  lemma ReplacedKeepsIds(items: seq<SrsItem>, i: nat, item: SrsItem)
    requires i < |items| && items[i].wordId == item.wordId
    ensures ItemIds(items[i := item]) == ItemIds(items)
    ensures forall x :: x in items && x.wordId != item.wordId ==> x in items[i := item]
  {
    var r := items[i := item];
    forall k | 0 <= k < |r|
      ensures ItemIds(r)[k] == ItemIds(items)[k]
    {
      if k != i {
        assert r[k] == items[k];
      }
    }
    forall x | x in items && x.wordId != item.wordId
      ensures x in r
    {
      var j :| 0 <= j < |items| && items[j] == x;
      assert r[j] == x;
    }
  }

  /** The record after `snoozeToTomorrow`. */
  function Snoozed(item: SrsItem, now: Instant): SrsItem {
    item.(lastReviewedAt := Some(now), dueDate := now.day + 1)
  }

  /** The records due on `day`: those whose due date is not after the start
      of that day. */
  function DueOn(items: seq<SrsItem>, day: Day): (r: seq<SrsItem>)
    ensures SubseqOf(r, items)
    ensures forall x :: multiset(r)[x] == if x.dueDate <= day then multiset(items)[x] else 0
  {
    var isDue := (x: SrsItem) => x.dueDate <= day;
    FilterIsSubseq(items, isDue);
    forall x ensures multiset(Filter(items, isDue))[x] == if x.dueDate <= day then multiset(items)[x] else 0 {
      FilterMultiplicity(items, isDue, x);
    }
    Filter(items, isDue)
  }

  /** A word registered on day `d` for
      tomorrow is not due on `d` but is on `d + 1`; rated easy on `d + 1` it
      comes back after one day, rated easy again after six. */
  lemma TwoEasyReviewsScenario(d: Day, s1: nat, s2: nat)
    ensures var w1 := Registered([], "w1", FirstDueDay(Instant(d, s1), true));
      && DueOn(w1, d) == []
      && DueOn(w1, d + 1) == w1
      && var r1 := Reviewed(w1[0], Quality(Easy), Instant(d + 1, s1));
      && r1.repetitions == 1 && r1.intervalDays == 1 && r1.dueDate == d + 2 && r1.easeFactor == 2.6
      && var r2 := Reviewed(r1, Quality(Easy), Instant(d + 2, s2));
      && r2.repetitions == 2 && r2.intervalDays == 6 && r2.dueDate == d + 8 && r2.easeFactor == 2.7
  {
    var x := NewItem("w1", d + 1);
    assert Registered([], "w1", FirstDueDay(Instant(d, s1), true)) == [x];
    DueOnSingle(x, d);
    DueOnSingle(x, d + 1);
  }

  /** A single record is due exactly when its due date has come. */
  lemma DueOnSingle(x: SrsItem, day: Day)
    ensures DueOn([x], day) == if x.dueDate <= day then [x] else []
  {
    assert [x][1..] == [];
  }


  // ---------------------------------------------------------------------
  // The service

  /** The `SRSStore` protocol, as an in-memory slot holding what was last
      saved. A `fault` of `Some(message)` makes the call throw that error. */
  class SrsStore {
    var saved: seq<SrsItem>

    constructor (saved: seq<SrsItem>)
      ensures this.saved == saved
    {
      this.saved := saved;
    }

    method Load(fault: Option<string>) returns (r: Result<seq<SrsItem>, string>)
      ensures r == if fault.None? then Success(saved) else Failure(fault.value)
    {
      if fault.Some? {
        return Failure(fault.value);
      }
      return Success(saved);
    }

    method Save(items: seq<SrsItem>, fault: Option<string>) returns (r: Outcome<string>)
      modifies this
      ensures r == if fault.None? then Pass else Fail(fault.value)
      ensures saved == if fault.None? then items else old(saved)
    {
      if fault.Some? {
        return Fail(fault.value);
      }
      saved := items;
      return Pass;
    }
  }

  class SrsService {
    const store: SrsStore
    var cached: seq<SrsItem>

    constructor (store: SrsStore)
      ensures this.store == store && cached == []
    {
      this.store := store;
      cached := [];
    }

    /** Replaces the cache with the store's content; on a load error the
        cache is kept and the error is passed on. */
    method Load(fault: Option<string>) returns (r: Outcome<string>)
      modifies this
      ensures r == if fault.None? then Pass else Fail(fault.value)
      ensures cached == if fault.None? then store.saved else old(cached)
    {
      var loaded := store.Load(fault);
      match loaded
      case Failure(e) => return Fail(e);
      case Success(items) =>
        cached := items;
        return Pass;
    }

    /** `dueItems(on:)`: exactly the cached records due on the start of the
        day of `date`, in cache order. */
    function DueItems(date: Instant): (r: seq<SrsItem>)
      reads this
      ensures SubseqOf(r, cached)
      ensures forall x :: multiset(r)[x] == if x.dueDate <= date.day then multiset(cached)[x] else 0
    {
      DueOn(cached, date.day)
    }

    /** Registers `wordId` due today unless it is already tracked. */
    method EnsureItemExists(wordId: string, today: Instant)
      modifies this
      ensures Tracks(old(cached), wordId) ==> cached == old(cached)
      ensures !Tracks(old(cached), wordId) ==> cached == old(cached) + [NewItem(wordId, today.day)]
    {
      if wordId in ItemIds(cached) {
        return;
      }
      cached := cached + [NewItem(wordId, today.day)];
    }

    /** Replaces the first record of the same word in place, or appends. */
    method Upsert(item: SrsItem)
      modifies this
      ensures cached == Upserted(old(cached), item)
    {
      var idx := IndexOfWord(cached, item.wordId);
      if idx.Some? {
        cached := cached[idx.value := item];
      } else {
        cached := cached + [item];
      }
    }

    /** Hands the whole cache to the store; the cache itself never changes. */
    method Persist(fault: Option<string>) returns (r: Outcome<string>)
      modifies store
      ensures r == if fault.None? then Pass else Fail(fault.value)
      ensures store.saved == if fault.None? then cached else old(store.saved)
    {
      r := store.Save(cached, fault);
    }

    /** Moves a tracked word's due date to tomorrow; unknown words are
        ignored. Only that one record changes. */
    method SnoozeToTomorrow(wordId: string, now: Instant)
      modifies this
      ensures match IndexOfWord(old(cached), wordId)
        case None => cached == old(cached)
        case Some(i) => cached == old(cached)[i := Snoozed(old(cached)[i], now)]
    {
      var idx := IndexOfWord(cached, wordId);
      if idx.None? {
        return;
      }
      var i := idx.value;
      var item := cached[i];
      item := item.(lastReviewedAt := Some(now));
      item := item.(dueDate := now.day + 1);
      assert item == Snoozed(cached[i], now);
      cached := cached[i := item];
    }

    /** Applies one SM-2 review to a tracked word; unknown words are ignored.
        Only that one record changes, so the count and the order stay. */
    method ApplySm2(wordId: string, rating: ReviewRating, now: Instant)
      modifies this
      ensures |cached| == |old(cached)|
      ensures match IndexOfWord(old(cached), wordId)
        case None => cached == old(cached)
        case Some(i) => cached == old(cached)[i := Reviewed(old(cached)[i], Quality(rating), now)]
    {
      var idx := IndexOfWord(cached, wordId);
      if idx.None? {
        return;
      }
      var i := idx.value;
      var item := ReviewStep(cached[i], Quality(rating), now);
      cached := cached[i := item];
    }

    /** Registers a newly learned word: nothing happens if it is already
        tracked, otherwise a fresh record due tomorrow or today is appended. */
    method AddNewWordToSrs(wordId: string, now: Instant, firstReviewTomorrow: bool)
      modifies this
      ensures cached == Registered(old(cached), wordId, FirstDueDay(now, firstReviewTomorrow))
      ensures !Tracks(old(cached), wordId) ==>
        cached == old(cached) + [SrsItem(wordId, 0, 0, 2.5, FirstDueDay(now, firstReviewTomorrow), 0, None)]
    {
      if wordId in ItemIds(cached) {
        return;
      }
      var today := now.day;
      var due: Day;
      if firstReviewTomorrow {
        due := today + 1;
      } else {
        due := today;
      }
      cached := cached + [SrsItem(wordId, 0, 0, 2.5, due, 0, None)];
    }

    /** The word of every record, in cache order. */
    function AllWordIds(): (r: seq<string>)
      reads this
      ensures |r| == |cached|
      ensures forall i :: 0 <= i < |cached| ==> r[i] == cached[i].wordId
    {
      ItemIds(cached)
    }
  }
}
