/** The older new-words session: a plain queue of words taken in input order
    from the words not yet scheduled, with "not yet" (defer near the end)
    and "known" (register with the scheduler) as the only actions. */
module LegacyNewWordsSessions {
  import opened Wrappers
  import opened Seqs
  import opened Domain
  import opened Srs
  import opened SessionQueues

  /** The first admissible reinsertion index as this view model computes it
      inline, for `n` remaining words. */
  function InlineWindowStart(n: int, window: int): int {
    Max(0, n - Min(window, n))
  }

  /** With the window clamped to at least one slot at construction, the
      inline computation is the session queue's window. */
  lemma InlineWindowIsQueueWindow(n: nat, window: int)
    requires window >= 1
    ensures InlineWindowStart(n, window) == WindowStart(n, window)
    ensures 0 <= InlineWindowStart(n, window) <= n
  {
  }

  /** The words of `words` not scheduled yet, in input order. */
  function UnscheduledWords(words: seq<Word>, scheduled: set<string>): seq<Word> {
    Filter(words, (w: Word) => w.id !in scheduled)
  }

  /** "Not yet" on values: the current word is reinserted at `insertAt`
      among the remaining ones; a queue of at most one word is unchanged. */
  function DeferredQueue(queue: seq<Word>, insertAt: nat): seq<Word>
    requires |queue| <= 1 || insertAt <= |queue| - 1
  {
    if |queue| <= 1 then queue else MovedNearEnd(queue, insertAt)
  }

  /** "Not yet" keeps every word and the count, puts the current word at
      `insertAt` and keeps the others in order. */
  lemma DeferredQueueConserves(queue: seq<Word>, insertAt: nat)
    requires |queue| > 1 && insertAt <= |queue| - 1
    ensures var r := DeferredQueue(queue, insertAt);
      && |r| == |queue| && multiset(r) == multiset(queue)
      && r[insertAt] == queue[0] && RemovedAt(r, insertAt) == queue[1..]
  {
    MovedNearEndConserves(queue, insertAt);
  }

  class LegacyNewWordsSession {
    const srs: SrsService
    const nearEndShuffleWindow: int

    var queue: seq<Word>
    var goal: int
    var masteredCount: int
    var errorMessage: Option<string>
    var firstReviewTomorrow: bool

    constructor (srs: SrsService, nearEndShuffleWindow: int, firstReviewTomorrow: bool)
      ensures this.srs == srs && this.nearEndShuffleWindow == Max(1, nearEndShuffleWindow)
      ensures this.firstReviewTomorrow == firstReviewTomorrow
      ensures queue == [] && goal == 0 && masteredCount == 0 && errorMessage == None
    {
      this.srs := srs;
      this.nearEndShuffleWindow := Max(1, nearEndShuffleWindow);
      this.firstReviewTomorrow := firstReviewTomorrow;
      queue := [];
      goal := 0;
      masteredCount := 0;
      errorMessage := None;
    }

    /** `isFinished`: the goal is reached or the queue has run out. A
        session without a goal is never finished. */
    predicate IsFinished(): (r: bool)
      reads this
      ensures r <==> goal > 0 && (masteredCount >= goal || queue == [])
      ensures r ==> goal > 0
      ensures goal > 0 && queue == [] ==> r
    {
      (goal > 0 && masteredCount >= goal) || (goal > 0 && queue == [])
    }

    /** Loads the schedule and takes the first `min(max(0, sessionSize), n)`
        of the `n` unscheduled words, in input order. A load error empties
        the session and records the error. */
    method Start(words: seq<Word>, sessionSize: int, firstReviewTomorrow: bool, srsFault: Option<string>)
      modifies this, srs
      ensures this.firstReviewTomorrow == firstReviewTomorrow
      ensures srs.cached == if srsFault.None? then srs.store.saved else old(srs.cached)
      ensures srsFault.Some? ==>
        queue == [] && goal == 0 && masteredCount == 0 && errorMessage == srsFault
      ensures srsFault.None? ==>
        var newWords := UnscheduledWords(words, Elems(ItemIds(srs.cached)));
        && goal == Min(Max(0, sessionSize), |newWords|)
        && queue == newWords[..goal]
        && masteredCount == 0 && errorMessage == None
    {
      this.firstReviewTomorrow := firstReviewTomorrow;
      var loaded := srs.Load(srsFault);
      if loaded.Fail? {
        errorMessage := Some(loaded.error);
        queue := [];
        goal := 0;
        masteredCount := 0;
        return;
      }

      var existingIds := Elems(srs.AllWordIds());
      var newWords := UnscheduledWords(words, existingIds);

      var size := Max(0, sessionSize);
      goal := Min(size, |newWords|);
      masteredCount := 0;
      errorMessage := None;

      queue := newWords[..goal];
    }

    /** "Not yet": defers the current word to `insertAt`, inside the last
        `min(window, n)` slots of the `n` remaining words. */
    method MarkNotYet(insertAt: nat)
      requires |queue| > 1 ==> InlineWindowStart(|queue| - 1, nearEndShuffleWindow) <= insertAt <= |queue| - 1
      modifies this
      ensures queue == DeferredQueue(old(queue), insertAt)
      ensures goal == old(goal) && masteredCount == old(masteredCount) && errorMessage == old(errorMessage)
      ensures firstReviewTomorrow == old(firstReviewTomorrow)
    {
      if queue == [] {
        return;
      }
      var word := queue[0];
      queue := queue[1..];
      if queue == [] {
        queue := queue + [word];
        return;
      }

      var n := |queue|;
      var window := Min(nearEndShuffleWindow, n);
      var startIndex := Max(0, n - window);
      assert startIndex <= insertAt <= n;
      queue := queue[..insertAt] + [word] + queue[insertAt..];
    }

    /** "Known": pops the current word and registers it with the
        scheduler; after a successful save counts it as mastered. A
        persistence error leaves the word popped, the count as it was, and
        records the error. */
    method MarkKnown(now: Instant, srsFault: Option<string>)
      modifies this, srs, srs.store
      ensures goal == old(goal) && firstReviewTomorrow == old(firstReviewTomorrow)
      ensures old(queue) == [] ==>
        && queue == old(queue) && masteredCount == old(masteredCount) && errorMessage == old(errorMessage)
        && srs.cached == old(srs.cached) && srs.store.saved == old(srs.store.saved)
      ensures old(queue) != [] ==>
        && queue == old(queue)[1..]
        && srs.cached == Registered(old(srs.cached), old(queue)[0].id, FirstDueDay(now, firstReviewTomorrow))
        && srs.store.saved == (if srsFault.None? then srs.cached else old(srs.store.saved))
        && masteredCount == (if srsFault.None? then old(masteredCount) + 1 else old(masteredCount))
        && errorMessage == (if srsFault.None? then old(errorMessage) else srsFault)
    {
      if queue == [] {
        return;
      }
      var word := queue[0];
      queue := queue[1..];

      srs.AddNewWordToSrs(word.id, now, firstReviewTomorrow);
      var persisted := srs.Persist(srsFault);
      if persisted.Fail? {
        errorMessage := Some(persisted.error);
        return;
      }
      masteredCount := masteredCount + 1;
    }
  }
}
