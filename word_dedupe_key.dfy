/** The de-duplication key of a word: its trimmed, lower-cased Korean and
    translation joined by '|'. Lower-casing is Unicode case mapping, which
    the model takes as a parameter. */
module WordDedupe {
  import opened Wrappers
  import opened Normalized

  const Separator: char := '|'

  /** `WordDedupeKey.make(korean:translation:)` */
  function MakeKey(korean: Option<string>, translation: Option<string>, lower: string -> string): Option<string> {
    if korean.None? || translation.None? then None
    else
      match (NormalizedNonEmpty(korean.value), NormalizedNonEmpty(translation.value))
      case (Some(k), Some(t)) => Some(lower(k) + [Separator] + lower(t))
      case _ => None
  }

  /** No key when either side is missing or blank; otherwise the key is
      lower(trim(korean)) + "|" + lower(trim(translation)). */
  lemma MakeKeyCases(korean: Option<string>, translation: Option<string>, lower: string -> string)
    ensures MakeKey(korean, translation, lower).None? <==>
      korean.None? || translation.None? || AllWhitespace(korean.value) || AllWhitespace(translation.value)
    ensures MakeKey(korean, translation, lower).Some? ==>
      MakeKey(korean, translation, lower).value ==
        lower(Trim(korean.value)) + [Separator] + lower(Trim(translation.value))
  {
    if korean.Some? {
      NormalizedNoneIffBlank(korean.value);
    }
    if translation.Some? {
      NormalizedNoneIffBlank(translation.value);
    }
  }

  /** White space around either side never changes the key. */
  lemma PaddingDoesNotChangeKey(korean: string, translation: string, pad1: string, pad2: string,
                                pad3: string, pad4: string, lower: string -> string)
    requires AllWhitespace(pad1) && AllWhitespace(pad2) && AllWhitespace(pad3) && AllWhitespace(pad4)
    ensures MakeKey(Some(pad1 + korean + pad2), Some(pad3 + translation + pad4), lower) ==
            MakeKey(Some(korean), Some(translation), lower)
  {
    TrimIgnoresPadding(pad1, korean, pad2);
    TrimIgnoresPadding(pad3, translation, pad4);
  }
}
