/** The review screen's loop: load the words and the schedule, show the word
    of the first due record, rate it with SM-2, save, and recompute. Both
    copies of the view model (one with an injected words loader, one with
    the bundled loader) do the same; the loader's outcome is a parameter. */
module Reviews {
  import opened Wrappers
  import opened Seqs
  import opened Domain
  import opened ReviewRatings
  import opened Srs

  /** `Dictionary(uniqueKeysWithValues:)` over the words by identifier; the
      source traps on a repeated identifier. */
  function WordsById(words: seq<Word>): (r: map<string, Word>)
    requires NoDup(WordIdList(words))
    ensures forall i :: 0 <= i < |words| ==> words[i].id in r && r[words[i].id] == words[i]
    ensures forall k :: k in r ==> k in WordIdList(words)
  {
    if words == [] then map[]
    else
      assert WordIdList(words)[1..] == WordIdList(words[1..]);
      WordsById(words[1..])[words[0].id := words[0]]
  }

  /** `due.first.flatMap { wordsById[$0.wordId] }` */
  function FirstDueWord(due: seq<SrsItem>, byId: map<string, Word>): Option<Word> {
    if due != [] && due[0].wordId in byId then Some(byId[due[0].wordId]) else None
  }

  /** The word shown is the word whose identifier is that of the first due
      record, if there is one and the word is known; otherwise nothing. */
  lemma CurrentWordIsFirstDue(words: seq<Word>, items: seq<SrsItem>, day: Day)
    requires NoDup(WordIdList(words))
    ensures var due := DueOn(items, day);
      var r := FirstDueWord(due, WordsById(words));
      && (r.Some? <==> due != [] && due[0].wordId in WordIdList(words))
      && (r.Some? ==> r.value in words && r.value.id == due[0].wordId && due[0].dueDate <= day)
  {
    var due := DueOn(items, day);
    var byId := WordsById(words);
    if due != [] && due[0].wordId in WordIdList(words) {
      var i :| 0 <= i < |words| && WordIdList(words)[i] == due[0].wordId;
      assert byId[due[0].wordId] == words[i];
      assert multiset(due)[due[0]] > 0;
    }
  }

  /** With one record per word, the first due record is the record SM-2 is
      applied to when its word is rated. */
  lemma FirstDueIsTheRatedRecord(items: seq<SrsItem>, day: Day)
    requires UniqueItemIds(items) && DueOn(items, day) != []
    ensures var first := DueOn(items, day)[0];
      var i := IndexOfWord(items, first.wordId);
      i.Some? && items[i.value] == first && first.dueDate <= day
  {
    var first := DueOn(items, day)[0];
    DueRecordIsListed(items, day, first);
    var j :| 0 <= j < |items| && items[j] == first;
    assert ItemIds(items)[j] == first.wordId;
    var i := IndexOfWord(items, first.wordId);
    assert ItemIds(items)[i.value] == first.wordId;
  }

  /** A due record is one of the records, and its day has come. */
  lemma DueRecordIsListed(items: seq<SrsItem>, day: Day, x: SrsItem)
    requires x in DueOn(items, day)
    ensures x in items && x.dueDate <= day
  {
    assert multiset(DueOn(items, day))[x] > 0;
  }

  /** Replacing one passing element by a failing one removes exactly one
      element from the filtered list. */
  lemma {:induction false} FilterUpdateDropsOne<T>(s: seq<T>, p: T -> bool, i: nat, y: T)
    requires i < |s| && p(s[i]) && !p(y)
    ensures |Filter(s[i := y], p)| == |Filter(s, p)| - 1
  {
    if i == 0 {
      assert s[i := y][1..] == s[1..];
    } else {
      assert s[i := y][1..] == s[1..][i - 1 := y];
      assert s[i := y][0] == s[0];
      FilterUpdateDropsOne(s[1..], p, i - 1, y);
    }
  }

  /** Progress of the review loop: rating the current word moves its record
      past today, so a successful rating shrinks the due list by one. */
  lemma RatingShrinksDueList(items: seq<SrsItem>, rating: ReviewRating, now: Instant)
    requires UniqueItemIds(items) && DueOn(items, now.day) != []
    ensures var first := DueOn(items, now.day)[0];
      var i := IndexOfWord(items, first.wordId);
      && i.Some?
      && var after := items[i.value := Reviewed(items[i.value], Quality(rating), now)];
      |DueOn(after, now.day)| == |DueOn(items, now.day)| - 1
  {
    FirstDueIsTheRatedRecord(items, now.day);
    var first := DueOn(items, now.day)[0];
    var i := IndexOfWord(items, first.wordId).value;
    var isDue := (x: SrsItem) => x.dueDate <= now.day;
    FilterUpdateDropsOne(items, isDue, i, Reviewed(items[i], Quality(rating), now));
  }

  class ReviewViewModel {
    const srs: SrsService
    var dueCount: int
    var currentWord: Option<Word>
    var errorMessage: Option<string>
    var wordsById: map<string, Word>

    constructor (srs: SrsService)
      ensures this.srs == srs
      ensures dueCount == 0 && currentWord == None && errorMessage == None && wordsById == map[]
    {
      this.srs := srs;
      dueCount := 0;
      currentWord := None;
      errorMessage := None;
      wordsById := map[];
    }

    /** Loads the words (`loaded` is the loader's outcome) and the
        schedule, then shows the first due word. Either error records the
        message and shows nothing. */
    method Load(loaded: Result<seq<Word>, string>, now: Instant, srsFault: Option<string>)
      requires loaded.Success? ==> NoDup(WordIdList(loaded.value))
      modifies this, srs
      ensures loaded.Failure? ==>
        && errorMessage == Some(loaded.error) && dueCount == 0 && currentWord == None
        && wordsById == old(wordsById) && srs.cached == old(srs.cached)
      ensures loaded.Success? ==> wordsById == WordsById(loaded.value)
      ensures loaded.Success? && srsFault.Some? ==>
        && errorMessage == srsFault && dueCount == 0 && currentWord == None
        && srs.cached == old(srs.cached)
      ensures loaded.Success? && srsFault.None? ==>
        && srs.cached == srs.store.saved
        && dueCount == |srs.DueItems(now)|
        && currentWord == FirstDueWord(srs.DueItems(now), wordsById)
        && errorMessage == old(errorMessage)
    {
      if loaded.Failure? {
        errorMessage := Some(loaded.error);
        dueCount := 0;
        currentWord := None;
        return;
      }
      wordsById := WordsById(loaded.value);

      var srsLoaded := srs.Load(srsFault);
      if srsLoaded.Fail? {
        errorMessage := Some(srsLoaded.error);
        dueCount := 0;
        currentWord := None;
        return;
      }

      ShowDue(now);
    }

    /** Shows the count of due records and the word of the first one. */
    method ShowDue(now: Instant)
      modifies this
      ensures dueCount == |srs.DueItems(now)|
      ensures currentWord == FirstDueWord(srs.DueItems(now), wordsById)
      ensures wordsById == old(wordsById) && errorMessage == old(errorMessage)
    {
      var due := srs.DueItems(now);
      dueCount := |due|;
      currentWord := FirstDueWord(due, wordsById);
    }

    /** Rates the shown word: SM-2 is applied before saving, so a save error
        keeps the new schedule in memory, records the message and leaves the
        display as it was; otherwise the display moves to the next due word.
        Without a shown word nothing happens. */
    method RateCurrent(rating: ReviewRating, now: Instant, srsFault: Option<string>)
      modifies this, srs, srs.store
      ensures wordsById == old(wordsById)
      ensures old(currentWord).None? ==>
        && dueCount == old(dueCount) && currentWord == old(currentWord) && errorMessage == old(errorMessage)
        && srs.cached == old(srs.cached) && srs.store.saved == old(srs.store.saved)
      ensures old(currentWord).Some? ==>
        && (match IndexOfWord(old(srs.cached), old(currentWord).value.id)
              case None => srs.cached == old(srs.cached)
              case Some(i) => srs.cached == old(srs.cached)[i := Reviewed(old(srs.cached)[i], Quality(rating), now)])
        && srs.store.saved == (if srsFault.None? then srs.cached else old(srs.store.saved))
        && (srsFault.Some? ==>
              errorMessage == srsFault && dueCount == old(dueCount) && currentWord == old(currentWord))
        && (srsFault.None? ==>
              && dueCount == |srs.DueItems(now)|
              && currentWord == FirstDueWord(srs.DueItems(now), wordsById)
              && errorMessage == old(errorMessage))
    {
      if currentWord.None? {
        return;
      }
      var word := currentWord.value;
      srs.ApplySm2(word.id, rating, now);
      var persisted := srs.Persist(srsFault);
      if persisted.Fail? {
        errorMessage := Some(persisted.error);
        return;
      }

      ShowDue(now);
    }
  }
}
