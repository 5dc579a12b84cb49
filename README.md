# Flashcard pipeline of japanese_study, modelled in Dafny

The project models the two scripts that build the study catalog of
japanese_study.

- **flashcard_generation/generate.py** produces the flashcards:
  - It reads the word list and keeps the stripped, non-blank lines (`WordList`).
  - It cuts the words into batches of twenty.
  - It asks a language model for one flashcard per word.
  - It records a fixed fallback record for a word whose call fails.
  - It saves all records gathered so far after every batch (`FlashcardGeneration`).
- **flashcard_generation/add_ids_and_progress.py** seeds the catalog:
  - It gives every card the id of its position, counted from one.
  - It builds a progress list with one never-studied entry per card.
  - It writes both lists.
  - It writes a backup of the input, but only if none exists yet (`ProgressSeeding`).
- The `Pipeline` module runs the two scripts in sequence. Generated cards never carry an `id`, so in the seeded files card `k` and progress entry `k` always share the id `k + 1`.

Modelling choices:

- **Python values.** A JSON value is the datatype `JsonValues.Value`. A Python `dict` is `JsonValues.Dict`: its entries in insertion order, with no key twice. `Put` is `d[k] = v`: an existing key keeps its place and a new key goes last. `Update` is `{**d, **e}`. The merge is right-biased: in `{"id": i, **card}` a card that already has an `id` keeps its own value, in the first position.
- **Files.** The disk is a map from path to `Document`. A document is one of four things:
  - a list of dicts;
  - an empty object `{}`;
  - an empty string `""`;
  - `Malformed`, for anything else.

  An empty object or string has length 0. The loop then runs zero times, and the script writes two empty lists and backs up the document as loaded. On a `Malformed` input the script raises, either at `len` or at the `**card` merge, before any write. The model returns an error for it and writes nothing.
- **The language model.** It is an opaque function `gen` from the user prompt to `Generated(card)` or `Failed`. The batching loop takes the per-word generator as an opaque `generate: string -> Dict`. `Pipeline` instantiates it with `SingleFlashcard(gen, _)`.
- **The two loops.** Each loop is a method with a `while` loop, proved against a specification function:
  - `AddIdsAndProgress` is proved against `IdCards` and `SeedProgress`.
  - `GenerateFlashcards` is proved against `GenerateBatch`, `PlannedStep` and `Chunks`.
- **Progress output.** `GenerateFlashcards` also returns the sequence of batches it ran as `Step` records: the progress line's numbers, the batch's words, and whether a pause follows. It also returns the last content it saved.
- **Generation output file.** `generate.py` writes to `./flashcard_generation/flashcards.json`. `add_ids_and_progress.py` reads `flashcard_generation/flashcards.json`. Both are run from the repository root, so the model treats them as the same path, `ProgressSeeding.FlashcardsPath`.
- **Scheduling.** The spaced-repetition scheduling engine does not appear in these scripts, and the model does not contain one.
- **Progress fields.** The progress record has the code's fields: `date_last_studied`, `num_times_studied`, `ease_factor`, `interval`, `repetitions`, and five `total_*` counters. The code's defaults are ease 2.5, interval 1, and every counter 0.
- **Ids.** The code assigns ids by position. It does not check them: a card that brings its own `id` keeps it (see `OwnIdBreaksLockstep`).

## Model

| member | source | states |
|---|---|---|
| WordList.StripSlice | flashcard_generation/generate.py:39 | `word.strip()` is a slice of the line with only whitespace before and after it. It neither starts nor ends with whitespace. It is empty exactly when the line is all whitespace. |
| WordList.Strip | flashcard_generation/generate.py:39 | `word.strip()`, as leading then trailing whitespace removal. Its meaning is stated in `StripSlice`. |
| WordList.Kept | flashcard_generation/generate.py:39 | One line contributes at most one word, and that word is non-empty and has no surrounding whitespace. |
| WordList.StripIdempotent | flashcard_generation/generate.py:39 | Stripping a stripped word changes nothing. |
| WordList.LoadWords | flashcard_generation/generate.py:39 | There are no more words than lines. Every loaded word is non-empty and has no surrounding whitespace. |
| WordList.LoadWordsSingle | flashcard_generation/generate.py:39 | One line contributes its stripped form exactly when that form is non-empty, and nothing otherwise. |
| WordList.LoadWordsAppend | flashcard_generation/generate.py:39 | Loading lines `a + b` gives the words of `a` followed by those of `b`, so file order is kept. |
| WordList.LoadWordsMembership | flashcard_generation/generate.py:39 | A word is loaded iff it is non-empty and some line strips to it. |
| WordList.LoadWordsIdempotent | flashcard_generation/generate.py:39 | Loading an already loaded word list returns it unchanged. |
| FlashcardGeneration.PartOfSpeechNameInjective | flashcard_generation/generate.py:14-24 | Distinct `PartOfSpeech` members have distinct string values. |
| FlashcardGeneration.ModelDump | flashcard_generation/generate.py:96 | `flashcard.model_dump()` has exactly the eight field names as keys, in declaration order. |
| FlashcardGeneration.ModelDumpRecord | flashcard_generation/generate.py:26-34 | `model_dump()` has the eight field names as keys in declaration order. Each key maps to its field, and the part of speech maps to its enum string. |
| FlashcardGeneration.Fallback | flashcard_generation/generate.py:100-107 | The fallback record has exactly the six keys word, reading, english, part_of_speech, example_sentence and example_translation, in that order. |
| FlashcardGeneration.FallbackRecord | flashcard_generation/generate.py:100-107 | The fallback has word = reading = the input word. Its english is "Translation not available" and its part of speech is "other". Its example sentence is the word followed by " example", and its example translation is "Example translation not available". |
| FlashcardGeneration.FallbackShapeDiffers | flashcard_generation/generate.py:97-107 | The fallback's keys differ from a dumped Flashcard's: it has `word` and no `word_hiragana`. |
| FlashcardGeneration.SingleFlashcard | flashcard_generation/generate.py:90-107 | A record has the Flashcard keys or the fallback keys. It has the fallback keys exactly when the model call for the word's prompt fails. |
| FlashcardGeneration.SingleFlashcardHasNoId | flashcard_generation/generate.py:90-107 | No record from `generate_single_flashcard` has an `id` key, whether the call succeeds or fails. |
| FlashcardGeneration.GenerateBatch | flashcard_generation/generate.py:109-112 | The batch result has one record per word, in task order. |
| FlashcardGeneration.GenerateBatchAppend | flashcard_generation/generate.py:145-152 | Generating two word lists in turn and extending gives the records of their concatenation. |
| FlashcardGeneration.BatchCount | flashcard_generation/generate.py:136 | `total_batches` is the least b with `n <= 20 * b`, i.e. ceil(n / 20). |
| FlashcardGeneration.Chunks | flashcard_generation/generate.py:133-134 | Cutting into batches gives `total_batches` batches whose concatenation is the word list. |
| FlashcardGeneration.ChunkAt | flashcard_generation/generate.py:133-134 | Batch k starts at 20k, which is below n, and is the slice `words[20k : min(20k + 20, n)]`. |
| FlashcardGeneration.ChunkSizes | flashcard_generation/generate.py:133-134 | Every batch holds 1 to 20 words, and every batch but the last holds exactly 20. |
| FlashcardGeneration.PlannedStep | flashcard_generation/generate.py:134-138 | A batch as the loop plans it holds 1 to 20 words. Its displayed range `i+1 .. min(i+20, n)` covers exactly those words, and its batch number is at most `total_batches`. |
| FlashcardGeneration.PlannedStepFacts | flashcard_generation/generate.py:133-162 | The k-th planned step's words are batch k. A pause follows it iff it is not the last batch. |
| FlashcardGeneration.GenerateFlashcards | flashcard_generation/generate.py:129-162 | The loop ends with `all_flashcards` equal to one record per word in word order. The saved file holds that list, or nothing when there are no words. It runs `total_batches` steps; step k is batch number k + 1 of `total_batches` and covers words 20k + 1 .. min(20k + 20, n). It pauses after every step but the last, and its batches are the chunks of the word list. |
| JsonValues.Put | flashcard_generation/add_ids_and_progress.py:55 | Setting a key gives it the new value. An existing key keeps its position and a new key goes last. Every other key keeps its value. |
| JsonValues.Update | flashcard_generation/add_ids_and_progress.py:55 | `{**d, **e}` as the entries of `e` put into `d` in order. Its meaning is stated in `UpdateLookup` and `UpdateKeys`. |
| JsonValues.UpdateLookup | flashcard_generation/add_ids_and_progress.py:55 | In `{**d, **e}`, a key of `e` has its value from `e`, and every other key keeps its value from `d`. |
| JsonValues.UpdateKeys | flashcard_generation/add_ids_and_progress.py:55 | The keys of `{**d, **e}` are those of `d` in order, followed by the new keys of `e` in order. |
| ProgressSeeding.CreateProgressEntry | flashcard_generation/add_ids_and_progress.py:22-36 | The entry carries the given id, is never studied (no date, zero studies), and has the fresh schedule: ease 2.5, interval 1, all other counters 0. |
| ProgressSeeding.FreshEntryDict | flashcard_generation/add_ids_and_progress.py:22-36 | The written entry has the eleven keys in source order. Its id is the card id, its date is null, num_times_studied is 0, ease is 2.5 and interval is 1. |
| ProgressSeeding.CardWithId | flashcard_generation/add_ids_and_progress.py:55 | `{"id": i, **card}` as the right-biased merge of `{"id": i}` and the card. Its meaning is stated in `CardWithIdLookup` and `CardWithIdKeys`. |
| ProgressSeeding.IdCards | flashcard_generation/add_ids_and_progress.py:49-56 | The list with ids has one card per input card. |
| ProgressSeeding.SeedProgress | flashcard_generation/add_ids_and_progress.py:50-60 | The progress list has n entries, and entry k has id k + 1, is never studied and has the fresh schedule. |
| ProgressSeeding.CardWithIdLookup | flashcard_generation/add_ids_and_progress.py:55 | Every field of the card keeps its value. `id` is the position only when the card has no `id` of its own. |
| ProgressSeeding.CardWithIdKeys | flashcard_generation/add_ids_and_progress.py:55 | `id` is the first key, followed by the card's other keys in their order. |
| ProgressSeeding.AddIdsAndProgress | flashcard_generation/add_ids_and_progress.py:49-60 | The loop builds, for card k, the card with id k + 1 and a fresh progress entry with id k + 1. It leaves the input list as it was. |
| ProgressSeeding.IdsInLockstep | flashcard_generation/add_ids_and_progress.py:53-60 | Card k and progress entry k have the same id (k + 1) iff the card had no `id` or already had that one. |
| ProgressSeeding.OwnIdBreaksLockstep | flashcard_generation/add_ids_and_progress.py:55 | A card `{"id": 7}` at position 1 keeps id 7 while its progress entry gets id 1. |
| ProgressSeeding.CardIdAt | flashcard_generation/add_ids_and_progress.py:53-56 | A card without an `id` gets the id of its position, counted from one. |
| ProgressSeeding.IdsUnique | flashcard_generation/add_ids_and_progress.py:53-56 | When no card has its own `id`, no two cards share an id. |
| ProgressSeeding.ProgressFileId | flashcard_generation/add_ids_and_progress.py:59-60 | Record k of the progress list has id k + 1. |
| ProgressSeeding.LoadedCards | flashcard_generation/add_ids_and_progress.py:46-53 | The cards the loop sees: a list's items, none for an empty object or string, and no cards at all (the script raises) exactly for a malformed document. |
| ProgressSeeding.Seeded | flashcard_generation/add_ids_and_progress.py:38-77 | The files after `main`. Its properties are stated in the lemmas that follow. |
| ProgressSeeding.SeedCatalog | flashcard_generation/add_ids_and_progress.py:38-83 | `main` fails on a missing or malformed input and otherwise writes the files as `Seeded` says. |
| ProgressSeeding.SeededErrors | flashcard_generation/add_ids_and_progress.py:44-56 | `main` fails with FileNotFound iff the input is missing. It fails with NotACardList iff the input is malformed, i.e. neither a list of dicts nor an empty object or string. It succeeds otherwise. |
| ProgressSeeding.SeededFiles | flashcard_generation/add_ids_and_progress.py:65-77 | A run writes the id list and the progress list and keeps the input file. It adds exactly the three output paths and leaves every other file unchanged. |
| ProgressSeeding.SeededWrites | flashcard_generation/add_ids_and_progress.py:65-71 | The ids file holds the cards with ids, and the progress file holds the fresh entries. |
| ProgressSeeding.BackupNeverOverwritten | flashcard_generation/add_ids_and_progress.py:74-77 | An existing backup is left as it was. |
| ProgressSeeding.BackupIsOriginal | flashcard_generation/add_ids_and_progress.py:74-77 | A new backup holds the loaded document unmodified, without ids. |
| ProgressSeeding.RerunIsIdempotent | flashcard_generation/add_ids_and_progress.py:38-83 | Running `main` again on its own output leaves every file as it is. |
| ProgressSeeding.BackupKeepsFirstInput | flashcard_generation/add_ids_and_progress.py:74-77 | After the input is regenerated and seeded again, the backup still holds the input of the first run. |
| ProgressSeeding.FilesInLockstep | flashcard_generation/add_ids_and_progress.py:49-71 | When no loaded card has an `id`, both written lists have one record per card, and record k of each carries id k + 1. |
| Pipeline.GeneratedCards | flashcard_generation/generate.py:129-156 | The records generation saves for the lines of the word file: one per loaded word. |
| Pipeline.GeneratedCardsHaveNoId | flashcard_generation/generate.py:129-156 | The saved generation output has one record per loaded word, and none of them has an `id`. |
| Pipeline.GeneratedCatalogInLockstep | flashcard_generation/add_ids_and_progress.py:46-60 | Seeding the file written by generation always succeeds. Card k and progress entry k then both carry id k + 1. |

## Left out

- File I/O is modelled as a map from path to a loaded document. Left out:
  - JSON text, indentation and `ensure_ascii`.
  - `readlines()` splitting and newline translation.
  - `os.makedirs`.
  - Write failures.
  - The non-atomic order of the writes.
- Several kinds of input make the script raise. Each has its own exception, and the model merges them into one `Malformed` document and one `NotACardList` error:
  - text that `json.load` cannot parse;
  - `null`, a number or a boolean (`len` raises);
  - a non-empty object or string (merging a key or a character with `**` raises);
  - a list that holds a non-dict item.
- The language-model client, its system prompt, Pydantic parsing and validation, and the structured-output request are the opaque `gen`. Any exception becomes `Failed`.
- FlashcardGeneration.GenerateFlashcards, Pipeline.GeneratedCards: `gen` is a function of the prompt, so a word that repeats always gets the same outcome. The real model may answer a repeated word differently.
- asyncio concurrency (`gather`, `to_thread`, `sleep`) is left out. Tasks are gathered in order, so the model computes the batch sequentially. The one-second pause is recorded as `Step.pauseAfter`.
- `print` logging is left out: the progress lines, the per-word API logs and the final summaries. Only the batch numbers and word range of the progress line are kept, in `Step`.
- `prompt_gpt`, `main`/`run_main` of `generate.py` and `test_small_batch` are left out. The first is an unused synchronous client call; the others are entry points that call the modelled functions or a five-word slice of them.
- `load_dotenv`, environment variables and the API key are left out.
- The TTS servers and the setup scripts are not part of this model.
- `datetime` is imported by `add_ids_and_progress.py` but not used; `date_last_studied` is always null.
