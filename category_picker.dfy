/** The category picker: every tag of the word list, split into the topic,
    part-of-speech and list namespaces and sorted by display name, and the
    selection the user toggles, which is saved after every change. */
module CategoryPickers {
  import opened Wrappers
  import opened Seqs
  import opened Domain
  import opened Sorting
  import opened Learn
  import opened L10n
  import opened SelectedTags

  /** The union of the words' tags; a word without tags adds none. */
  function AllTags(words: seq<Word>): (r: set<string>)
    ensures forall t :: t in r <==> exists i :: 0 <= i < |words| && t in TagsOf(words[i])
    decreases |words|
  {
    if words == [] then {}
    else Elems(TagsOf(words[0])) + AllTags(words[1..])
  }

  /** Comparison of `T`s through a key. */
  function ByKey<T, K>(key: T -> K, before: (K, K) -> bool): (T, T) -> bool {
    (a: T, b: T) => before(key(a), key(b))
  }

  /** Comparing through a key is a strict weak order whenever the
      comparison of keys is. */
  lemma ByKeyIsStrictWeakOrder<T(!new), K(!new)>(key: T -> K, before: (K, K) -> bool)
    requires StrictWeakOrder(before)
    ensures StrictWeakOrder(ByKey(key, before))
  {
    var lt := ByKey(key, before);
    forall a, b | lt(a, b)
      ensures !lt(b, a)
    {
      assert before(key(a), key(b));
    }
    forall a, b, c | lt(a, b)
      ensures lt(a, c) || lt(c, b)
    {
      assert before(key(a), key(b));
    }
  }

  /** The order `sortedTags` uses: by display name under the string
      comparison `before`. */
  function ByDisplayName(before: (string, string) -> bool): (string, string) -> bool {
    ByKey(DisplayName, before)
  }

  /** `list` holds the tags of one namespace, each once, in order. */
  predicate ListsNamespace(list: seq<string>, tags: set<string>, prefix: string, lt: (string, string) -> bool) {
    SortedBy(list, lt) && NoDup(list) && Elems(list) == InNamespace(tags, prefix)
  }

  /** `sortedTags(tags.filter { $0.hasPrefix(prefix) })` */
  method NamespaceTags(tags: set<string>, prefix: string, lt: (string, string) -> bool) returns (r: seq<string>)
    requires StrictWeakOrder(lt)
    ensures ListsNamespace(r, tags, prefix, lt)
    ensures |r| == |InNamespace(tags, prefix)|
  {
    var list := ListOf(InNamespace(tags, prefix));
    r := SortBy(list, lt);
    SortBySorted(list, lt);
    PermutationKeepsNoDup(list, r);
    forall x
      ensures x in r <==> x in list
    {
      assert x in r <==> x in multiset(r);
      assert x in list <==> x in multiset(list);
    }
  }

  /** No tag is in two of the namespaces. */
  lemma NamespacesAreDisjoint(t: string)
    ensures !(HasPrefix(t, TopicPrefix) && HasPrefix(t, PosPrefix))
    ensures !(HasPrefix(t, TopicPrefix) && HasPrefix(t, ListPrefix))
    ensures !(HasPrefix(t, PosPrefix) && HasPrefix(t, ListPrefix))
  {
    if HasPrefix(t, TopicPrefix) {
      assert t[0] == TopicPrefix[0];
    }
    if HasPrefix(t, PosPrefix) {
      assert t[0] == PosPrefix[0];
    }
  }

  /** The three lists of a picker share no tag. */
  lemma ListsAreDisjoint(topics: seq<string>, pos: seq<string>, lists: seq<string>, tags: set<string>,
                         lt: (string, string) -> bool)
    requires ListsNamespace(topics, tags, TopicPrefix, lt)
    requires ListsNamespace(pos, tags, PosPrefix, lt)
    requires ListsNamespace(lists, tags, ListPrefix, lt)
    ensures Elems(topics) !! Elems(pos) && Elems(topics) !! Elems(lists) && Elems(pos) !! Elems(lists)
  {
    forall t | t in tags
      ensures !(HasPrefix(t, TopicPrefix) && HasPrefix(t, PosPrefix))
      ensures !(HasPrefix(t, TopicPrefix) && HasPrefix(t, ListPrefix))
      ensures !(HasPrefix(t, PosPrefix) && HasPrefix(t, ListPrefix))
    {
      NamespacesAreDisjoint(t);
    }
  }

  /** The selection after `toggle(tag)`. */
  function Toggled(selected: set<string>, tag: string): set<string> {
    if tag in selected then selected - {tag} else selected + {tag}
  }

  /** Toggling flips the membership of that tag and of no other. */
  lemma ToggleFlipsOnlyThatTag(selected: set<string>, tag: string)
    ensures tag in Toggled(selected, tag) <==> tag !in selected
    ensures forall t :: t != tag ==> (t in Toggled(selected, tag) <==> t in selected)
  {
  }

  /** Toggling the same tag twice restores the selection. */
  lemma ToggleTwiceRestores(selected: set<string>, tag: string)
    ensures Toggled(Toggled(selected, tag), tag) == selected
  {
  }

  class CategoryPicker {
    var allTags: set<string>
    var selectedTags: set<string>
    var topicTags: seq<string>
    var posTags: seq<string>
    var listTags: seq<string>
    const service: SelectedTagsService

    /** `before` is the string comparison the lists are sorted with
        (`localizedCaseInsensitiveCompare` in the app). */
    constructor (words: seq<Word>, service: SelectedTagsService, before: (string, string) -> bool)
      requires StrictWeakOrder(before)
      ensures this.service == service
      ensures allTags == AllTags(words) && selectedTags == {}
      ensures ListsNamespace(topicTags, allTags, TopicPrefix, ByDisplayName(before))
      ensures ListsNamespace(posTags, allTags, PosPrefix, ByDisplayName(before))
      ensures ListsNamespace(listTags, allTags, ListPrefix, ByDisplayName(before))
    {
      var tags := AllTags(words);
      ByKeyIsStrictWeakOrder(DisplayName, before);
      var topics := NamespaceTags(tags, TopicPrefix, ByDisplayName(before));
      var pos := NamespaceTags(tags, PosPrefix, ByDisplayName(before));
      var lists := NamespaceTags(tags, ListPrefix, ByDisplayName(before));
      this.service := service;
      allTags := tags;
      selectedTags := {};
      topicTags := topics;
      posTags := pos;
      listTags := lists;
    }

    /** `load()`: the saved selection, or none when loading fails. */
    method Load(fault: Option<string>)
      modifies this, service
      ensures selectedTags == if fault.None? then service.store.saved else {}
      ensures service.tags == if fault.None? then service.store.saved else old(service.tags)
      ensures allTags == old(allTags) && topicTags == old(topicTags)
      ensures posTags == old(posTags) && listTags == old(listTags)
    {
      var r := service.Load(fault);
      if r.Pass? {
        selectedTags := service.tags;
      } else {
        selectedTags := {};
      }
    }

    /** `toggle(tag)`, then a save whose failure is ignored. */
    method Toggle(tag: string, fault: Option<string>)
      modifies this, service, service.store
      ensures selectedTags == Toggled(old(selectedTags), tag)
      ensures service.tags == selectedTags
      ensures service.store.saved == if fault.None? then selectedTags else old(service.store.saved)
      ensures allTags == old(allTags) && topicTags == old(topicTags)
      ensures posTags == old(posTags) && listTags == old(listTags)
    {
      if tag in selectedTags {
        selectedTags := selectedTags - {tag};
      } else {
        selectedTags := selectedTags + {tag};
      }
      Save(fault);
    }

    /** `reset()`, then a save whose failure is ignored. */
    method Reset(fault: Option<string>)
      modifies this, service, service.store
      ensures selectedTags == {}
      ensures service.tags == {}
      ensures service.store.saved == if fault.None? then {} else old(service.store.saved)
      ensures allTags == old(allTags) && topicTags == old(topicTags)
      ensures posTags == old(posTags) && listTags == old(listTags)
    {
      selectedTags := {};
      Save(fault);
    }

    /** `save()`: hands the selection to the service; an error is dropped
        and the selection stays as it is. */
    method Save(fault: Option<string>)
      modifies service, service.store
      ensures service.tags == selectedTags
      ensures service.store.saved == if fault.None? then selectedTags else old(service.store.saved)
    {
      var _ := service.Set(selectedTags, fault);
    }
  }
}
