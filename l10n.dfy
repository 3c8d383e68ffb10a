/** The display names of category tags: a tag "namespace:value" is split at
    its first ':' and looked up in the table of its namespace. */
module L10n {
  import opened Wrappers
  import opened Seqs

  const TopicNames: map<string, string> := map[
    "daily" := "Быт", "food" := "Еда", "travel" := "Путешествия", "time" := "Время",
    "study" := "Учёба", "work" := "Работа", "description" := "Описание", "weather" := "Погода",
    "family" := "Семья", "city" := "Город", "shopping" := "Покупки", "animals" := "Животные",
    "weekdays" := "Дни недели", "months" := "Месяцы", "seasons" := "Времена года",
    "money" := "Деньги", "counters" := "Счётные слова", "greetings" := "Приветствия"]

  const PosNames: map<string, string> := map[
    "verb" := "Глаголы", "noun" := "Существительные", "adjective" := "Прилагательные"]

  const ListNames: map<string, string> := map["top100" := "Топ 100", "top500" := "Топ 500"]

  /** `s` without its leading separators. */
  function DropLeading(s: string, sep: char): (r: string)
    ensures |r| <= |s| && r == s[|s| - |r|..]
    ensures r == [] || r[0] != sep
    ensures forall i :: 0 <= i < |s| - |r| ==> s[i] == sep
    decreases |s|
  {
    if s != [] && s[0] == sep then DropLeading(s[1..], sep) else s
  }

  /** `s.split(separator: sep, maxSplits: 1)` with empty pieces omitted:
      separators before the first piece produce nothing, the first piece
      ends at the next separator, and whatever follows it (separators
      included) is the second piece unless it is empty. */
  function SplitOnce(s: string, sep: char): (r: seq<string>)
    ensures |r| <= 2
  {
    var t := DropLeading(s, sep);
    match IndexOf(t, sep)
    case None => if t == [] then [] else [t]
    case Some(j) =>
      var rest := t[j + 1..];
      if rest == [] then [t[..j]] else [t[..j], rest]
  }

  /** `L10n.Categories.displayName(for:)` */
  function DisplayName(tag: string): string {
    var parts := SplitOnce(tag, ':');
    if |parts| != 2 then tag
    else
      var ns := parts[0];
      var val := parts[1];
      if ns == "topic" then Lookup(TopicNames, val)
      else if ns == "pos" then Lookup(PosNames, val)
      else if ns == "list" then Lookup(ListNames, val)
      else tag
  }

  /** The value looked up in a namespace's table, or the value itself. */
  function Lookup(table: map<string, string>, val: string): string {
    if val in table then table[val] else val
  }

  /** A tag with no ':' is its own display name. */
  lemma NoColonIsUnchanged(tag: string)
    requires ':' !in tag
    ensures DisplayName(tag) == tag
  {
    assert tag != [] ==> tag[0] in tag;
  }

  /** A namespace followed by ':' and an empty value is its own display
      name too: the split yields a single piece. */
  lemma EmptyValueIsUnchanged(ns: string)
    requires ':' !in ns
    ensures DisplayName(ns + ":") == ns + ":"
  {
    var tag := ns + ":";
    var t := DropLeading(tag, ':');
    if ns != [] {
      assert tag[0] == ns[0];
      assert t == tag;
      assert tag[..|ns|] == ns;
      assert IndexOf(t, ':') == Some(|ns|);
    } else {
      assert t == [];
    }
  }

  /** Writing "ns:val" with a non-empty namespace free of ':' and a
      non-empty value splits into exactly those two parts; the value may
      itself contain ':'. */
  lemma SplitsAtFirstColon(ns: string, val: string)
    requires ns != [] && ':' !in ns && val != []
    ensures SplitOnce(ns + ":" + val, ':') == [ns, val]
  {
    var tag := ns + ":" + val;
    assert tag[0] == ns[0];
    assert DropLeading(tag, ':') == tag;
    assert tag[..|ns|] == ns;
    assert tag[|ns|] == ':';
    assert IndexOf(tag, ':') == Some(|ns|);
    assert tag[|ns| + 1..] == val;
  }

  /** The display name of "ns:val": the table entry for a known namespace
      (the value itself when it has none), and the whole tag for an unknown
      namespace. */
  lemma DisplayNameOfNamespacedTag(ns: string, val: string)
    requires ns != [] && ':' !in ns && val != []
    ensures DisplayName(ns + ":" + val) ==
      if ns == "topic" then Lookup(TopicNames, val)
      else if ns == "pos" then Lookup(PosNames, val)
      else if ns == "list" then Lookup(ListNames, val)
      else ns + ":" + val
  {
    SplitsAtFirstColon(ns, val);
  }

  /** Entries of the tables, and a value the topic table lacks (shown as
      the bare value by `DisplayNameOfNamespacedTag`). */
  lemma TableEntries()
    ensures Lookup(TopicNames, "food") == "Еда"
    ensures Lookup(PosNames, "verb") == "Глаголы"
    ensures Lookup(ListNames, "top500") == "Топ 500"
    ensures Lookup(TopicNames, "space") == "space"
  {
    assert "food" in TopicNames;
    assert "verb" in PosNames;
    assert "top500" in ListNames;
    assert "space" !in TopicNames;
  }

  /** Leading separators are skipped: ":topic:food" reads as "topic:food". */
  lemma LeadingColonIsSkipped(ns: string, val: string)
    requires ns != [] && ':' !in ns && val != []
    ensures SplitOnce(":" + ns + ":" + val, ':') == [ns, val]
  {
    var tag := ":" + ns + ":" + val;
    var rest := ns + ":" + val;
    assert tag == [':'] + rest;
    assert tag[1..] == rest;
    assert rest[0] == ns[0];
    assert DropLeading(rest, ':') == rest;
    assert DropLeading(tag, ':') == rest;
    SplitsAtFirstColon(ns, val);
  }
}
