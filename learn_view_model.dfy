/** The learn screen: the category filter over the word list (OR inside a
    namespace of tags, AND across namespaces), the short summary of the
    selection, and the counts shown on load. Both copies of the view model
    (one with injected services, one building its own) compute the same. */
module Learn {
  import opened Wrappers
  import opened Seqs
  import opened Domain
  import opened Srs
  import opened KnownWords
  import opened SelectedTags

  const TopicPrefix: string := "topic:"
  const PosPrefix: string := "pos:"
  const ListPrefix: string := "list:"

  /** The tag namespaces the filter knows. */
  const Namespaces: seq<string> := [TopicPrefix, PosPrefix, ListPrefix]

  /** `L10n.Learn.categoriesAll` */
  const CategoriesAll: string := "Все"
  /** `L10n.Learn.categoriesSelectedFormat` up to its `%d`. */
  const CategoriesSelectedPrefix: string := "Выбрано: "

  predicate HasPrefix(s: string, prefix: string) {
    |prefix| <= |s| && s[..|prefix|] == prefix
  }

  /** The selected tags of one namespace. */
  function InNamespace(selected: set<string>, prefix: string): set<string> {
    set t | t in selected && HasPrefix(t, prefix)
  }

  /** One namespace's test: nothing selected in it, or the word carries one
      of the selected tags. */
  predicate PassesNamespace(tags: set<string>, selectedInNamespace: set<string>) {
    selectedInNamespace == {} || !(tags !! selectedInNamespace)
  }

  predicate Keeps(w: Word, topics: set<string>, pos: set<string>, lists: set<string>) {
    var tags := Elems(TagsOf(w));
    PassesNamespace(tags, topics) && PassesNamespace(tags, pos) && PassesNamespace(tags, lists)
  }

  /** `filter(words:by:)` */
  function FilterByTags(words: seq<Word>, selected: set<string>): seq<Word> {
    var topics := InNamespace(selected, TopicPrefix);
    var pos := InNamespace(selected, PosPrefix);
    var lists := InNamespace(selected, ListPrefix);
    Filter(words, (w: Word) => Keeps(w, topics, pos, lists))
  }

  /** The filter's meaning, stated per namespace: whenever something of a
      namespace is selected, the word carries a selected tag of it. */
  predicate Matches(w: Word, selected: set<string>) {
    forall ns :: ns in Namespaces ==>
      (exists t :: t in selected && HasPrefix(t, ns)) ==>
        (exists t :: t in TagsOf(w) && t in selected && HasPrefix(t, ns))
  }

  lemma PassesNamespaceMeaning(w: Word, selected: set<string>, ns: string)
    ensures PassesNamespace(Elems(TagsOf(w)), InNamespace(selected, ns)) <==>
      ((exists t :: t in selected && HasPrefix(t, ns)) ==>
         (exists t :: t in TagsOf(w) && t in selected && HasPrefix(t, ns)))
  {
    var tags := Elems(TagsOf(w));
    var sel := InNamespace(selected, ns);
    if exists t :: t in selected && HasPrefix(t, ns) {
      var t :| t in selected && HasPrefix(t, ns);
      assert t in sel;
    }
    if exists t :: t in TagsOf(w) && t in selected && HasPrefix(t, ns) {
      var t :| t in TagsOf(w) && t in selected && HasPrefix(t, ns);
      assert t in tags && t in sel;
    }
  }

  lemma KeepsIffMatches(w: Word, selected: set<string>)
    ensures (Keeps(w, InNamespace(selected, TopicPrefix), InNamespace(selected, PosPrefix),
                   InNamespace(selected, ListPrefix))) <==> Matches(w, selected)
  {
    PassesNamespaceMeaning(w, selected, TopicPrefix);
    PassesNamespaceMeaning(w, selected, PosPrefix);
    PassesNamespaceMeaning(w, selected, ListPrefix);
    assert TopicPrefix in Namespaces && PosPrefix in Namespaces && ListPrefix in Namespaces;
    assert forall ns :: ns in Namespaces ==> ns == TopicPrefix || ns == PosPrefix || ns == ListPrefix;
  }

  /** The filter keeps exactly the matching words, each as often as it
      occurs, in input order. */
  lemma FilterByTagsKeepsMatches(words: seq<Word>, selected: set<string>)
    ensures SubseqOf(FilterByTags(words, selected), words)
    ensures forall w :: multiset(FilterByTags(words, selected))[w] ==
                        if Matches(w, selected) then multiset(words)[w] else 0
  {
    var topics := InNamespace(selected, TopicPrefix);
    var pos := InNamespace(selected, PosPrefix);
    var lists := InNamespace(selected, ListPrefix);
    var keep := (w: Word) => Keeps(w, topics, pos, lists);
    FilterIsSubseq(words, keep);
    forall w
      ensures multiset(FilterByTags(words, selected))[w] == if Matches(w, selected) then multiset(words)[w] else 0
    {
      FilterMultiplicity(words, keep, w);
      KeepsIffMatches(w, selected);
    }
  }

  /** With nothing selected every word is kept. */
  lemma EmptySelectionKeepsAll(words: seq<Word>)
    ensures FilterByTags(words, {}) == words
  {
    var none: set<string> := {};
    assert InNamespace(none, TopicPrefix) == {} && InNamespace(none, PosPrefix) == {} && InNamespace(none, ListPrefix) == {};
    FilterAllPass(words, (w: Word) => Keeps(w, {}, {}, {}));
  }

  /** Selected tags outside the three namespaces change nothing. */
  lemma UnprefixedSelectionIsIgnored(words: seq<Word>, selected: set<string>, extra: set<string>)
    requires forall t :: t in extra ==> !HasPrefix(t, TopicPrefix) && !HasPrefix(t, PosPrefix) && !HasPrefix(t, ListPrefix)
    ensures FilterByTags(words, selected + extra) == FilterByTags(words, selected)
  {
    assert InNamespace(selected + extra, TopicPrefix) == InNamespace(selected, TopicPrefix);
    assert InNamespace(selected + extra, PosPrefix) == InNamespace(selected, PosPrefix);
    assert InNamespace(selected + extra, ListPrefix) == InNamespace(selected, ListPrefix);
  }

  /** A word without tags passes only when no namespace has a selection. */
  lemma UntaggedWordPassesOnlyWithoutSelection(w: Word, selected: set<string>)
    requires w.tags == None
    ensures Matches(w, selected) <==>
      forall t :: t in selected ==> !HasPrefix(t, TopicPrefix) && !HasPrefix(t, PosPrefix) && !HasPrefix(t, ListPrefix)
  {
    assert TagsOf(w) == [];
    if !Matches(w, selected) {
      var ns :| ns in Namespaces && (exists t :: t in selected && HasPrefix(t, ns));
      var t :| t in selected && HasPrefix(t, ns);
      assert ns == TopicPrefix || ns == PosPrefix || ns == ListPrefix;
    }
    if exists t :: t in selected && (HasPrefix(t, TopicPrefix) || HasPrefix(t, PosPrefix) || HasPrefix(t, ListPrefix)) {
      var t :| t in selected && (HasPrefix(t, TopicPrefix) || HasPrefix(t, PosPrefix) || HasPrefix(t, ListPrefix));
      if HasPrefix(t, TopicPrefix) {
        assert TopicPrefix in Namespaces;
      } else if HasPrefix(t, PosPrefix) {
        assert PosPrefix in Namespaces;
      } else {
        assert ListPrefix in Namespaces;
      }
    }
  }

  // ---------------------------------------------------------------------
  // The summary

  function DigitChar(d: nat): char
    requires d < 10
  {
    ('0' as int + d) as char
  }

  function DigitValue(c: char): nat {
    if '0' <= c <= '9' then (c as int - '0' as int) else 0
  }

  predicate IsDigits(s: string) {
    forall i :: 0 <= i < |s| ==> '0' <= s[i] <= '9'
  }

  /** `String(format: "%d", n)` for a count. */
  function DecimalString(n: nat): (r: string)
    ensures |r| >= 1
    decreases n
  {
    if n < 10 then [DigitChar(n)] else DecimalString(n / 10) + [DigitChar(n % 10)]
  }

  /** The value of a string of decimal digits. */
  function ParseDecimal(s: string): nat
    decreases |s|
  {
    if s == [] then 0 else ParseDecimal(s[..|s| - 1]) * 10 + DigitValue(s[|s| - 1])
  }

  /** The decimal form is all digits and reads back as the number. */
  lemma {:induction false} DecimalRoundTrip(n: nat)
    ensures IsDigits(DecimalString(n))
    ensures ParseDecimal(DecimalString(n)) == n
    decreases n
  {
    if n < 10 {
      assert DecimalString(n) == [DigitChar(n)];
      assert DecimalString(n)[..0] == [];
    } else {
      DecimalRoundTrip(n / 10);
      var s := DecimalString(n);
      assert s[..|s| - 1] == DecimalString(n / 10);
      assert s[|s| - 1] == DigitChar(n % 10);
    }
  }

  /** `summary(for:)` */
  function Summary(selected: set<string>): string {
    if |selected| == 0 then CategoriesAll else CategoriesSelectedPrefix + DecimalString(|selected|)
  }

  /** The summary tells selections apart exactly by their size: "Все" for
      none, and a different "Выбрано: N" for each other N. */
  lemma SummaryDeterminesCount(a: set<string>, b: set<string>)
    ensures Summary(a) == Summary(b) <==> |a| == |b|
    ensures Summary(a) == CategoriesAll <==> a == {}
  {
    if |a| != 0 && |b| != 0 && Summary(a) == Summary(b) {
      var p := CategoriesSelectedPrefix;
      assert (p + DecimalString(|a|))[|p|..] == DecimalString(|a|);
      assert (p + DecimalString(|b|))[|p|..] == DecimalString(|b|);
      DecimalRoundTrip(|a|);
      DecimalRoundTrip(|b|);
    }
  }

  /** The load error to report: the first step that fails. */
  function FirstError(loaded: Result<seq<Word>, string>, srsFault: Option<string>,
                      knownFault: Option<string>, tagsFault: Option<string>): Option<string>
  {
    if loaded.Failure? then Some(loaded.error)
    else if srsFault.Some? then srsFault
    else if knownFault.Some? then knownFault
    else tagsFault
  }

  class LearnViewModel {
    const srs: SrsService
    const known: KnownWordsService
    const selectedTags: SelectedTagsService

    var words: seq<Word>
    var errorMessage: Option<string>
    var wordsForLearning: seq<Word>
    var newWordsAvailable: int
    var dueToday: int
    var categoriesSummary: string

    constructor (srs: SrsService, known: KnownWordsService, selectedTags: SelectedTagsService)
      ensures this.srs == srs && this.known == known && this.selectedTags == selectedTags
      ensures words == [] && errorMessage == None && wordsForLearning == []
      ensures newWordsAvailable == 0 && dueToday == 0 && categoriesSummary == CategoriesAll
    {
      this.srs := srs;
      this.known := known;
      this.selectedTags := selectedTags;
      words := [];
      errorMessage := None;
      wordsForLearning := [];
      newWordsAvailable := 0;
      dueToday := 0;
      categoriesSummary := CategoriesAll;
    }

    /** Loads the words (`loaded` is the loader's outcome), the schedule,
        the known words and the selected tags, in that order, then filters
        and counts. Any error records its message and resets every field. */
    method Load(loaded: Result<seq<Word>, string>, now: Instant, srsFault: Option<string>,
                knownFault: Option<string>, tagsFault: Option<string>)
      modifies this, srs, known, selectedTags
      ensures srs.cached == if loaded.Success? && srsFault.None? then srs.store.saved else old(srs.cached)
      ensures known.cached ==
        if loaded.Success? && srsFault.None? && knownFault.None? then known.store.saved else old(known.cached)
      ensures selectedTags.tags ==
        if FirstError(loaded, srsFault, knownFault, tagsFault).None? then selectedTags.store.saved
        else old(selectedTags.tags)
      ensures FirstError(loaded, srsFault, knownFault, tagsFault).Some? ==>
        && errorMessage == FirstError(loaded, srsFault, knownFault, tagsFault)
        && words == [] && wordsForLearning == [] && newWordsAvailable == 0 && dueToday == 0
        && categoriesSummary == CategoriesAll
      ensures FirstError(loaded, srsFault, knownFault, tagsFault).None? ==>
        && words == loaded.value
        && wordsForLearning == FilterByTags(words, selectedTags.tags)
        && categoriesSummary == Summary(selectedTags.tags)
        && newWordsAvailable == |NewWords(wordsForLearning, Elems(ItemIds(srs.cached)), known.cached)|
        && dueToday == |srs.DueItems(now)|
        && errorMessage == None
    {
      if loaded.Failure? {
        ResetWithError(loaded.error);
        return;
      }
      words := loaded.value;
      LoadServices(now, srsFault, knownFault, tagsFault);
    }

    /** `load` after the words are in: the schedule, then the rest. */
    method LoadServices(now: Instant, srsFault: Option<string>, knownFault: Option<string>,
                        tagsFault: Option<string>)
      modifies this, srs, known, selectedTags
      ensures srs.cached == if srsFault.None? then srs.store.saved else old(srs.cached)
      ensures known.cached == if srsFault.None? && knownFault.None? then known.store.saved else old(known.cached)
      ensures selectedTags.tags ==
        if srsFault.None? && knownFault.None? && tagsFault.None? then selectedTags.store.saved
        else old(selectedTags.tags)
      ensures srsFault.Some? || knownFault.Some? || tagsFault.Some? ==>
        && errorMessage == (if srsFault.Some? then srsFault else if knownFault.Some? then knownFault else tagsFault)
        && words == [] && wordsForLearning == [] && newWordsAvailable == 0 && dueToday == 0
        && categoriesSummary == CategoriesAll
      ensures srsFault.None? && knownFault.None? && tagsFault.None? ==>
        && words == old(words)
        && wordsForLearning == FilterByTags(words, selectedTags.tags)
        && categoriesSummary == Summary(selectedTags.tags)
        && newWordsAvailable == |NewWords(wordsForLearning, Elems(ItemIds(srs.cached)), known.cached)|
        && dueToday == |srs.DueItems(now)|
        && errorMessage == None
    {
      var srsLoaded := srs.Load(srsFault);
      if srsLoaded.Fail? {
        ResetWithError(srsLoaded.error);
        return;
      }
      var srsIds := Elems(srs.AllWordIds());
      LoadKnownAndTags(now, srsIds, knownFault, tagsFault);
    }

    /** `load` after the schedule: the known words, then the tags. */
    method LoadKnownAndTags(now: Instant, srsIds: set<string>, knownFault: Option<string>,
                            tagsFault: Option<string>)
      modifies this, known, selectedTags
      ensures known.cached == if knownFault.None? then known.store.saved else old(known.cached)
      ensures selectedTags.tags ==
        if knownFault.None? && tagsFault.None? then selectedTags.store.saved else old(selectedTags.tags)
      ensures knownFault.Some? || tagsFault.Some? ==>
        && errorMessage == (if knownFault.Some? then knownFault else tagsFault)
        && words == [] && wordsForLearning == [] && newWordsAvailable == 0 && dueToday == 0
        && categoriesSummary == CategoriesAll
      ensures knownFault.None? && tagsFault.None? ==>
        && words == old(words)
        && wordsForLearning == FilterByTags(words, selectedTags.tags)
        && categoriesSummary == Summary(selectedTags.tags)
        && newWordsAvailable == |NewWords(wordsForLearning, srsIds, known.cached)|
        && dueToday == |srs.DueItems(now)|
        && errorMessage == None
    {
      var knownLoaded := known.Load(knownFault);
      if knownLoaded.Fail? {
        ResetWithError(knownLoaded.error);
        return;
      }
      var knownList := known.AllWordIds();
      var knownIds := Elems(knownList);
      assert knownIds == known.cached;
      LoadTags(now, srsIds, knownIds, tagsFault);
    }

    /** `load` after the known words: the tags, the filter and the counts. */
    method LoadTags(now: Instant, srsIds: set<string>, knownIds: set<string>, tagsFault: Option<string>)
      modifies this, selectedTags
      ensures selectedTags.tags == if tagsFault.None? then selectedTags.store.saved else old(selectedTags.tags)
      ensures tagsFault.Some? ==>
        && errorMessage == tagsFault
        && words == [] && wordsForLearning == [] && newWordsAvailable == 0 && dueToday == 0
        && categoriesSummary == CategoriesAll
      ensures tagsFault.None? ==>
        && words == old(words)
        && wordsForLearning == FilterByTags(words, selectedTags.tags)
        && categoriesSummary == Summary(selectedTags.tags)
        && newWordsAvailable == |NewWords(wordsForLearning, srsIds, knownIds)|
        && dueToday == |srs.DueItems(now)|
        && errorMessage == None
    {
      var tagsLoaded := selectedTags.Load(tagsFault);
      if tagsLoaded.Fail? {
        ResetWithError(tagsLoaded.error);
        return;
      }
      var due := |srs.DueItems(now)|;
      ShowTags(selectedTags.tags, due, srsIds, knownIds);
    }

    /** The rest of `load` once the tags are in and the due records are
        counted: the words the tags select, the summary, and the counters. */
    method ShowTags(tags: set<string>, due: int, srsIds: set<string>, knownIds: set<string>)
      modifies this
      ensures words == old(words)
      ensures wordsForLearning == FilterByTags(words, tags)
      ensures categoriesSummary == Summary(tags)
      ensures newWordsAvailable == |NewWords(wordsForLearning, srsIds, knownIds)|
      ensures dueToday == due
      ensures errorMessage == None
    {
      var filtered := FilterByTags(words, tags);
      wordsForLearning, categoriesSummary := filtered, Summary(tags);
      newWordsAvailable, dueToday := |NewWords(filtered, srsIds, knownIds)|, due;
      errorMessage := None;
    }

    /** The `catch` of `load`. */
    method ResetWithError(message: string)
      modifies this
      ensures errorMessage == Some(message)
      ensures words == [] && wordsForLearning == [] && newWordsAvailable == 0 && dueToday == 0
      ensures categoriesSummary == CategoriesAll
    {
      errorMessage := Some(message);
      words := [];
      wordsForLearning := [];
      newWordsAvailable := 0;
      dueToday := 0;
      categoriesSummary := CategoriesAll;
    }
  }
}
