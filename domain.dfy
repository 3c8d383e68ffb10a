/** The value types of the app's domain: a vocabulary word and the
    spaced-repetition record kept for it, together with the calendar the
    scheduler works on. */
module Domain {
  import opened Wrappers
  import opened Seqs

  /** A calendar day, as a day number; the start of that day stands for it. */
  type Day = int

  /** A moment in time: the day it falls on and the seconds since that day
      began. `startOfDay(for: m)` is `m.day`, and adding `n` days to a start
      of day is `d + n`. */
  datatype Instant = Instant(day: Day, secondOfDay: nat)

  /** A vocabulary word. Only the fields this model inspects are kept: the
      identifier, the two texts the dedupe key is built from, and the tags. */
  datatype Word = Word(id: string, korean: string, translation: string, tags: Option<seq<string>>)

  /** `w.tags ?? []` */
  function TagsOf(w: Word): seq<string> {
    match w.tags
    case Some(ts) => ts
    case None => []
  }

  function WordIdList(words: seq<Word>): (r: seq<string>)
    ensures |r| == |words|
    ensures forall i :: 0 <= i < |words| ==> r[i] == words[i].id
  {
    if words == [] then [] else [words[0].id] + WordIdList(words[1..])
  }

  /** The words of `words` neither scheduled (`srsIds`) nor marked known
      (`knownIds`), in input order. */
  function NewWords(words: seq<Word>, srsIds: set<string>, knownIds: set<string>): seq<Word> {
    Filter(words, (w: Word) => w.id !in srsIds && w.id !in knownIds)
  }

  /** One schedule record per word; the word identifier is its key. */
  datatype SrsItem = SrsItem(
    wordId: string,
    repetitions: int,
    intervalDays: int,
    easeFactor: real,
    dueDate: Day,
    lapses: int,
    lastReviewedAt: Option<Instant>)

  function ItemIds(items: seq<SrsItem>): (r: seq<string>)
    ensures |r| == |items|
    ensures forall i :: 0 <= i < |items| ==> r[i] == items[i].wordId
  {
    if items == [] then [] else [items[0].wordId] + ItemIds(items[1..])
  }

  predicate UniqueItemIds(items: seq<SrsItem>) {
    NoDup(ItemIds(items))
  }
}
