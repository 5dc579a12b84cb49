/**
  The two scripts run one after the other: `generate.py` writes
  flashcard_generation/flashcards.json from the cleaned word list, then
  `add_ids_and_progress.py` seeds ids and progress from that same file.
*/
module Pipeline {
  import opened Wrappers
  import opened JsonValues
  import opened WordList
  import opened FlashcardGeneration
  import opened ProgressSeeding

  /** The records `generate_flashcards` saves for the lines of the word file. */
  function GeneratedCards(gen: string -> Generation, lines: seq<string>): (cards: seq<Dict>)
    ensures |cards| == |LoadWords(lines)|
  {
    GenerateBatch(w => SingleFlashcard(gen, w), LoadWords(lines))
  }

  /** No generated record has an `id`, whether the model answered or failed. */
  lemma GeneratedCardsHaveNoId(gen: string -> Generation, lines: seq<string>)
    ensures |GeneratedCards(gen, lines)| == |LoadWords(lines)|
    ensures forall c :: 0 <= c < |GeneratedCards(gen, lines)| ==> "id" !in Keys(GeneratedCards(gen, lines)[c])
  {
    var words := LoadWords(lines);
    forall c | 0 <= c < |GeneratedCards(gen, lines)|
      ensures "id" !in Keys(GeneratedCards(gen, lines)[c])
    {
      SingleFlashcardHasNoId(gen, words[c]);
    }
  }

  /**
    Seeding the freshly generated file always succeeds, and card `k` and
    progress entry `k` share the id `k + 1`: the ids 1..n name the loaded
    words in file order.
  */
  lemma GeneratedCatalogInLockstep(gen: string -> Generation, lines: seq<string>, fs: FileSystem, k: nat)
    requires k < |LoadWords(lines)|
    ensures var out := Seeded(fs[FlashcardsPath := Records(GeneratedCards(gen, lines))]);
      && out.Ok?
      && Lookup(out.value[WithIdsPath].items[k], "id") == Some(Int(k + 1))
      && Lookup(out.value[ProgressPath].items[k], "id") == Some(Int(k + 1))
  {
    var disk := fs[FlashcardsPath := Records(GeneratedCards(gen, lines))];
    GeneratedCardsHaveNoId(gen, lines);
    FilesInLockstep(disk, k);
  }
}
