/** The selected-tags store kept in one JSON file: an envelope of schema
    version 1 whose payload is the sorted tag list, read through the
    envelope-or-legacy path where the legacy shape is the bare list. */
module FileSelectedTags {
  import opened Wrappers
  import opened Seqs
  import opened Sorting
  import opened FileStores

  const Filename: string := "selected_tags.json"
  const SchemaVersion: int := 1

  /** Strictly increasing by string order, hence also free of duplicates. */
  predicate StrictlySorted(s: seq<string>) {
    forall i, j :: 0 <= i < j < |s| ==> LexLt(s[i], s[j])
  }

  /** `Array(tags).sorted()`: every tag once, in increasing order. */
  method SortedPayload(tags: set<string>) returns (payload: seq<string>)
    ensures StrictlySorted(payload)
    ensures Elems(payload) == tags
    ensures |payload| == |tags|
  {
    var list := ListOf(tags);
    payload := SortBy(list, LexLt);
    LexLtIsStrictWeakOrder();
    SortBySorted(list, LexLt);
    PermutationKeepsNoDup(list, payload);
    SortedNoDupIsStrict(payload);
    forall x
      ensures x in payload <==> x in list
    {
      assert x in payload <==> x in multiset(payload);
      assert x in list <==> x in multiset(list);
    }
  }

  /** The files after, and the result of, `load`: no file means no tags and
      nothing is read; otherwise the payload of the envelope-or-legacy read,
      as a set. */
  function LoadEffect(files: map<string, Bytes>, dirs: set<string>, url: string, tmp: string,
                      codec: Codec<Envelope<seq<string>>>, legacyDecode: Bytes -> Option<seq<string>>,
                      faults: Faults): (map<string, Bytes>, Result<set<string>, StoreError>)
  {
    if url !in files && url !in dirs then (files, Success({}))
    else
      var (after, r) := EnvelopeOrLegacyEffect(files, url, tmp, SchemaVersion, codec, legacyDecode, faults);
      (after, if r.Success? then Success(Elems(r.value.payload)) else Failure(r.error))
  }

  /** Saving a set and loading it back gives the same set, given the JSON
      round trip; the saved payload is read on the envelope path, so the
      load writes nothing. */
  lemma SaveThenLoadRoundTrips(files: map<string, Bytes>, dirs: set<string>, url: string,
                               tmp1: string, tmp2: string, codec: Codec<Envelope<seq<string>>>,
                               legacyDecode: Bytes -> Option<seq<string>>, tags: set<string>,
                               payload: seq<string>)
    requires RoundTrips(codec) && tmp1 != url
    requires Elems(payload) == tags
    requires codec.encode(Envelope(SchemaVersion, payload)).Some?
    ensures var (saved, w) := AtomicWriteEffect(files, url, tmp1, codec.encode(Envelope(SchemaVersion, payload)), NoFaults);
      && w == Pass
      && LoadEffect(saved, dirs, url, tmp2, codec, legacyDecode, NoFaults) == (saved, Success(tags))
  {
    var data := codec.encode(Envelope(SchemaVersion, payload));
    AtomicWriteKeepsTargetOnFailure(files, url, tmp1, data, NoFaults);
    var (saved, w) := AtomicWriteEffect(files, url, tmp1, data, NoFaults);
    assert codec.decode(saved[url]) == Some(Envelope(SchemaVersion, payload));
  }

  /** Two duplicate-free increasing lists with the same elements are equal,
      so the payload written for a set is determined by the set. */
  lemma {:induction false} StrictlySortedIsUnique(a: seq<string>, b: seq<string>)
    requires StrictlySorted(a) && StrictlySorted(b) && Elems(a) == Elems(b)
    ensures a == b
    decreases |a|
  {
    assert a != [] ==> a[0] in Elems(a);
    assert b != [] ==> b[0] in Elems(b);
    if a != [] && b != [] {
      HeadsAgree(a, b);
      TailElems(a);
      TailElems(b);
      StrictlySortedIsUnique(a[1..], b[1..]);
      assert a == [a[0]] + a[1..] && b == [b[0]] + b[1..];
    }
  }

  /** Two increasing lists with the same elements start alike: each head is
      the least element. */
  lemma HeadsAgree(a: seq<string>, b: seq<string>)
    requires StrictlySorted(a) && StrictlySorted(b) && Elems(a) == Elems(b)
    requires a != [] && b != []
    ensures a[0] == b[0]
  {
    var a0, b0 := a[0], b[0];
    assert a0 in Elems(b) && b0 in Elems(a);
    var i :| 0 <= i < |b| && b[i] == a0;
    var j :| 0 <= j < |a| && a[j] == b0;
    if i != 0 && j != 0 {
      // a0 is before b0 in a, and b0 before a0 in b
      LexLtAsymmetric(a0, b0);
    }
  }

  /** The tail of an increasing list is increasing and holds every element
      but the head. */
  lemma TailElems(a: seq<string>)
    requires StrictlySorted(a) && a != []
    ensures StrictlySorted(a[1..])
    ensures Elems(a[1..]) == Elems(a) - {a[0]}
  {
    var t := a[1..];
    forall i, j | 0 <= i < j < |t|
      ensures LexLt(t[i], t[j])
    {
      assert t[i] == a[i + 1] && t[j] == a[j + 1];
    }
    forall x | x in t
      ensures x != a[0]
    {
      var k :| 0 <= k < |t| && t[k] == x;
      assert LexLt(a[0], a[k + 1]);
      LexLtAsymmetric(x, x);
    }
    forall x | x in a && x != a[0]
      ensures x in t
    {
      var m :| 0 <= m < |a| && a[m] == x;
      assert t[m - 1] == x;
    }
  }

  class FileSelectedTagsStore {
    const store: FileStore
    const codec: Codec<Envelope<seq<string>>>
    const legacyDecode: Bytes -> Option<seq<string>>

    constructor (store: FileStore, codec: Codec<Envelope<seq<string>>>, legacyDecode: Bytes -> Option<seq<string>>)
      ensures this.store == store && this.codec == codec && this.legacyDecode == legacyDecode
    {
      this.store := store;
      this.codec := codec;
      this.legacyDecode := legacyDecode;
    }

    method Load(uuid: string, faults: Faults) returns (r: Result<set<string>, StoreError>)
      modifies store.fs
      ensures store.fs.dirs == old(store.fs.dirs)
      ensures !old(store.Exists(Filename)) ==> r == Success({}) && store.fs.files == old(store.fs.files)
      ensures (store.fs.files, r) == LoadEffect(old(store.fs.files), old(store.fs.dirs), store.Url(Filename),
                                                store.TempUrl(Filename, uuid), codec, legacyDecode, faults)
    {
      if !store.Exists(Filename) {
        return Success({});
      }
      var env := store.ReadEnvelopeOrLegacy(Filename, SchemaVersion, codec, legacyDecode, uuid, faults);
      if env.Failure? {
        return Failure(env.error);
      }
      return Success(Elems(env.value.payload));
    }

    method Save(tags: set<string>, uuid: string, faults: Faults) returns (r: Outcome<StoreError>)
      modifies store.fs
      ensures store.fs.dirs == old(store.fs.dirs)
      ensures exists payload ::
        && StrictlySorted(payload) && Elems(payload) == tags
        && (store.fs.files, r) == AtomicWriteEffect(old(store.fs.files), store.Url(Filename), store.TempUrl(Filename, uuid),
                                                    codec.encode(Envelope(SchemaVersion, payload)), faults)
    {
      var payload := SortedPayload(tags);
      var env := Envelope(SchemaVersion, payload);
      r := store.WriteJsonAtomic(env, codec.encode, Filename, uuid, faults);
    }
  }
}
