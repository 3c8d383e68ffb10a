/** The learner's chosen filter tags, held in memory over a
    `SelectedTagsStore`. */
module SelectedTags {
  import opened Wrappers

  /** The `SelectedTagsStore` protocol, as an in-memory slot holding what was
      last saved. A `fault` of `Some(message)` makes the call throw. (The
      file-backed implementation is modelled in `FileSelectedTags`.) */
  class SelectedTagsStore {
    var saved: set<string>

    constructor (saved: set<string>)
      ensures this.saved == saved
    {
      this.saved := saved;
    }

    method Load(fault: Option<string>) returns (r: Result<set<string>, string>)
      ensures r == if fault.None? then Success(saved) else Failure(fault.value)
    {
      if fault.Some? {
        return Failure(fault.value);
      }
      return Success(saved);
    }

    method Save(tags: set<string>, fault: Option<string>) returns (r: Outcome<string>)
      modifies this
      ensures r == if fault.None? then Pass else Fail(fault.value)
      ensures saved == if fault.None? then tags else old(saved)
    {
      if fault.Some? {
        return Fail(fault.value);
      }
      saved := tags;
      return Pass;
    }
  }

  class SelectedTagsService {
    const store: SelectedTagsStore
    var tags: set<string>

    constructor (store: SelectedTagsStore)
      ensures this.store == store && tags == {}
    {
      this.store := store;
      tags := {};
    }

    /** Replaces the tags with the store's set; a load error keeps them. */
    method Load(fault: Option<string>) returns (r: Outcome<string>)
      modifies this
      ensures r == if fault.None? then Pass else Fail(fault.value)
      ensures tags == if fault.None? then store.saved else old(tags)
    {
      var loaded := store.Load(fault);
      match loaded
      case Failure(e) => return Fail(e);
      case Success(ts) =>
        tags := ts;
        return Pass;
    }

    /** Assigns the tags first and then saves them, so the new tags stay in
        memory even when saving throws. */
    method Set(newTags: set<string>, fault: Option<string>) returns (r: Outcome<string>)
      modifies this, store
      ensures tags == newTags
      ensures r == if fault.None? then Pass else Fail(fault.value)
      ensures store.saved == if fault.None? then newTags else old(store.saved)
    {
      tags := newTags;
      r := store.Save(tags, fault);
    }

    /** `set([])`. */
    method Reset(fault: Option<string>) returns (r: Outcome<string>)
      modifies this, store
      ensures tags == {}
      ensures r == if fault.None? then Pass else Fail(fault.value)
      ensures store.saved == if fault.None? then {} else old(store.saved)
    {
      r := Set({}, fault);
    }
  }
}
