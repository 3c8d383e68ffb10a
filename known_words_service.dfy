/** The set of words the learner marked "already known", cached in memory
    over a `KnownWordsStore`. */
module KnownWords {
  import opened Wrappers
  import opened Seqs

  /** The `KnownWordsStore` protocol, as an in-memory slot holding what was
      last saved. A `fault` of `Some(message)` makes the call throw. */
  class KnownWordsStore {
    var saved: set<string>

    constructor (saved: set<string>)
      ensures this.saved == saved
    {
      this.saved := saved;
    }

    method Load(fault: Option<string>) returns (r: Result<set<string>, string>)
      ensures r == if fault.None? then Success(saved) else Failure(fault.value)
    {
      if fault.Some? {
        return Failure(fault.value);
      }
      return Success(saved);
    }

    method Save(ids: set<string>, fault: Option<string>) returns (r: Outcome<string>)
      modifies this
      ensures r == if fault.None? then Pass else Fail(fault.value)
      ensures saved == if fault.None? then ids else old(saved)
    {
      if fault.Some? {
        return Fail(fault.value);
      }
      saved := ids;
      return Pass;
    }
  }

  class KnownWordsService {
    const store: KnownWordsStore
    var cached: set<string>

    constructor (store: KnownWordsStore)
      ensures this.store == store && cached == {}
    {
      this.store := store;
      cached := {};
    }

    /** Replaces the cache with the store's set; a load error keeps it. */
    method Load(fault: Option<string>) returns (r: Outcome<string>)
      modifies this
      ensures r == if fault.None? then Pass else Fail(fault.value)
      ensures cached == if fault.None? then store.saved else old(cached)
    {
      var loaded := store.Load(fault);
      match loaded
      case Failure(e) => return Fail(e);
      case Success(ids) =>
        cached := ids;
        return Pass;
    }

    /** Hands the unchanged cache to the store. */
    method Persist(fault: Option<string>) returns (r: Outcome<string>)
      modifies store
      ensures r == if fault.None? then Pass else Fail(fault.value)
      ensures store.saved == if fault.None? then cached else old(store.saved)
    {
      r := store.Save(cached, fault);
    }

    function Contains(wordId: string): (b: bool)
      reads this
      ensures b <==> wordId in cached
    {
      wordId in cached
    }

    /** Adds a word; adding it again changes nothing, and afterwards
        `Contains(wordId)` holds. */
    method AddKnown(wordId: string)
      modifies this
      ensures cached == old(cached) + {wordId}
      ensures Contains(wordId)
    {
      cached := cached + {wordId};
    }

    /** Every cached word exactly once, in no particular order. */
    method AllWordIds() returns (r: seq<string>)
      ensures NoDup(r)
      ensures forall x :: x in r <==> x in cached
      ensures |r| == |cached|
    {
      r := ListOf(cached);
    }
  }

  /** `addKnown` is idempotent. */
  lemma AddKnownIsIdempotent(cached: set<string>, wordId: string)
    ensures (cached + {wordId}) + {wordId} == cached + {wordId}
    ensures wordId in cached ==> cached + {wordId} == cached
  {
  }
}
