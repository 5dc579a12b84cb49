/**
  Flashcard generation (flashcard_generation/generate.py): the word list is cut
  into batches of twenty, each word of a batch is turned into one flashcard
  record by the language model, and the records are gathered in word order.
  The model call itself is the opaque parameter `gen`; a call that fails
  yields a fixed fallback record instead.
*/
module FlashcardGeneration {
  import opened Wrappers
  import opened JsonValues

  datatype PartOfSpeech =
    | Noun | Verb | Adjective | Adverb | Pronoun | Preposition
    | Conjunction | Interjection | Particle | Other

  /** The string value of each member of the `PartOfSpeech` enum. */
  function PartOfSpeechName(p: PartOfSpeech): string {
    match p
    case Noun => "noun"
    case Verb => "verb"
    case Adjective => "adjective"
    case Adverb => "adverb"
    case Pronoun => "pronoun"
    case Preposition => "preposition"
    case Conjunction => "conjunction"
    case Interjection => "interjection"
    case Particle => "particle"
    case Other => "other"
  }

  /** The structured answer the model is asked for. */
  datatype Flashcard = Flashcard(
    wordHiragana: string,
    wordKatakana: string,
    wordKanji: string,
    wordRomaji: string,
    english: string,
    partOfSpeech: PartOfSpeech,
    exampleSentence: string,
    exampleTranslation: string)

  const FlashcardKeys: seq<string> := [
    "word_hiragana", "word_katakana", "word_kanji", "word_romaji",
    "english", "part_of_speech", "example_sentence", "example_translation"]

  const FallbackKeys: seq<string> := [
    "word", "reading", "english", "part_of_speech",
    "example_sentence", "example_translation"]

  /** `flashcard.model_dump()`: one entry per field, in declaration order. */
  function ModelDump(f: Flashcard): (d: Dict)
    ensures Keys(d) == FlashcardKeys
  {
    Display(FlashcardKeys, ModelDumpValues(f))
  }

  /** Distinct parts of speech are written as distinct strings, so the dump loses nothing. */
  lemma PartOfSpeechNameInjective(p: PartOfSpeech, q: PartOfSpeech)
    requires PartOfSpeechName(p) == PartOfSpeechName(q)
    ensures p == q
  {
  }

  function ModelDumpValues(f: Flashcard): seq<Value> {
    [ Str(f.wordHiragana), Str(f.wordKatakana), Str(f.wordKanji), Str(f.wordRomaji),
      Str(f.english), Str(PartOfSpeechName(f.partOfSpeech)),
      Str(f.exampleSentence), Str(f.exampleTranslation) ]
  }

  /** Field `FlashcardKeys[j]` of the dump holds the `j`-th field of the flashcard. */
  lemma ModelDumpField(f: Flashcard, j: nat)
    requires j < |FlashcardKeys|
    ensures Lookup(ModelDump(f), FlashcardKeys[j]) == Some(ModelDumpValues(f)[j])
  {
    DisplayLookup(FlashcardKeys, ModelDumpValues(f), j);
  }

  /** The dump has the eight field names as keys and the part of speech as its enum value. */
  lemma ModelDumpRecord(f: Flashcard)
    ensures Keys(ModelDump(f)) == FlashcardKeys
    ensures Lookup(ModelDump(f), "word_hiragana") == Some(Str(f.wordHiragana))
    ensures Lookup(ModelDump(f), "english") == Some(Str(f.english))
    ensures Lookup(ModelDump(f), "part_of_speech") == Some(Str(PartOfSpeechName(f.partOfSpeech)))
    ensures forall j :: 0 <= j < |FlashcardKeys| ==> Lookup(ModelDump(f), FlashcardKeys[j]) == Some(ModelDumpValues(f)[j])
  {
    forall j | 0 <= j < |FlashcardKeys|
      ensures Lookup(ModelDump(f), FlashcardKeys[j]) == Some(ModelDumpValues(f)[j])
    {
      ModelDumpField(f, j);
    }
    ModelDumpField(f, 0);
    ModelDumpField(f, 4);
    ModelDumpField(f, 5);
  }

  function FallbackValues(word: string): seq<Value> {
    [ Str(word), Str(word), Str("Translation not available"), Str("other"),
      Str(word + " example"), Str("Example translation not available") ]
  }

  /** The record returned for a word whose generation raised an exception. */
  function Fallback(word: string): (d: Dict)
    ensures Keys(d) == FallbackKeys
  {
    Display(FallbackKeys, FallbackValues(word))
  }

  /** The outcome of one model call: a parsed flashcard, or an exception. */
  datatype Generation = Generated(card: Flashcard) | Failed

  function UserPrompt(word: string): string {
    "Create a flashcard for the Japanese word: " + word
  }

  /** `generate_single_flashcard`: the dumped flashcard, or the fallback on failure. */
  function SingleFlashcard(gen: string -> Generation, word: string): (d: Dict)
    ensures Keys(d) == FlashcardKeys || Keys(d) == FallbackKeys
    ensures Keys(d) == FallbackKeys <==> gen(UserPrompt(word)).Failed?
  {
    match gen(UserPrompt(word))
    case Generated(card) => ModelDump(card)
    case Failed => Fallback(word)
  }

  /**
    `generate_flashcard_batch`: one record per word, gathered in task order.
    `generate` stands for `generate_single_flashcard` with its client.
  */
  function GenerateBatch(generate: string -> Dict, words: seq<string>): (cards: seq<Dict>)
    ensures |cards| == |words|
  {
    seq(|words|, k requires 0 <= k < |words| => generate(words[k]))
  }

  /** Generating two lists one after the other is generating their concatenation. */
  lemma GenerateBatchAppend(generate: string -> Dict, a: seq<string>, b: seq<string>)
    ensures GenerateBatch(generate, a + b) == GenerateBatch(generate, a) + GenerateBatch(generate, b)
  {
    assert forall k :: |a| <= k < |a + b| ==> (a + b)[k] == b[k - |a|];
  }

  /** Field `FallbackKeys[j]` of the fallback holds `FallbackValues(word)[j]`. */
  lemma FallbackField(word: string, j: nat)
    requires j < |FallbackKeys|
    ensures Lookup(Fallback(word), FallbackKeys[j]) == Some(FallbackValues(word)[j])
  {
    DisplayLookup(FallbackKeys, FallbackValues(word), j);
  }

  /** The fallback carries the word itself as word and reading, and fixed placeholder texts. */
  lemma FallbackRecord(word: string)
    ensures Lookup(Fallback(word), "word") == Some(Str(word))
    ensures Lookup(Fallback(word), "reading") == Some(Str(word))
    ensures Lookup(Fallback(word), "english") == Some(Str("Translation not available"))
    ensures Lookup(Fallback(word), "part_of_speech") == Some(Str("other"))
    ensures Lookup(Fallback(word), "example_sentence") == Some(Str(word + " example"))
    ensures Lookup(Fallback(word), "example_translation") == Some(Str("Example translation not available"))
  {
    FallbackField(word, 0);
    FallbackField(word, 1);
    FallbackField(word, 2);
    FallbackField(word, 3);
    FallbackField(word, 4);
    FallbackField(word, 5);
  }

  /**
    The fallback does not have the shape of a generated flashcard: it has
    `word` and `reading` where a flashcard has the four script variants.
  */
  lemma FallbackShapeDiffers(word: string, f: Flashcard)
    ensures Keys(Fallback(word)) != Keys(ModelDump(f))
    ensures "word" in Keys(Fallback(word)) && "word" !in Keys(ModelDump(f))
    ensures "word_hiragana" in Keys(ModelDump(f)) && "word_hiragana" !in Keys(Fallback(word))
  {
    KeyListsDiffer();
  }

  lemma KeyListsDiffer()
    ensures FallbackKeys != FlashcardKeys
    ensures "word" in FallbackKeys && "word" !in FlashcardKeys
    ensures "word_hiragana" in FlashcardKeys && "word_hiragana" !in FallbackKeys
  {
    assert FallbackKeys[0] == "word";
    assert FlashcardKeys[0] == "word_hiragana";
  }

  /** No generated record, dumped or fallback, has an `id` key. */
  lemma SingleFlashcardHasNoId(gen: string -> Generation, word: string)
    ensures "id" !in Keys(SingleFlashcard(gen, word))
  {
    IdIsNoGeneratedKey();
  }

  lemma IdIsNoGeneratedKey()
    ensures "id" !in FlashcardKeys && "id" !in FallbackKeys
  {
  }

  const BatchSize: nat := 20

  /** `total_batches`: the number of batches of twenty needed for `n` words, rounded up. */
  function BatchCount(n: nat): (b: nat)
    ensures n <= BatchSize * b < n + BatchSize
  {
    (n + BatchSize - 1) / BatchSize
  }

  /** `min(i + batch_size, len(words))`: one past the last word of the batch at `i`. */
  function BatchEnd(i: nat, n: nat): nat {
    if i + BatchSize < n then i + BatchSize else n
  }

  /** Concatenation of a list of batches. */
  function Flatten(bs: seq<seq<string>>): seq<string> {
    if bs == [] then [] else bs[0] + Flatten(bs[1..])
  }

  /**
    Cutting the word list into batches, stated recursively: a full batch of
    twenty off the front while more than twenty remain, then the rest.
  */
  function Chunks(words: seq<string>): (bs: seq<seq<string>>)
    ensures |bs| == BatchCount(|words|)
    ensures Flatten(bs) == words
    decreases |words|
  {
    if |words| <= BatchSize then
      if words == [] then [] else
        assert [words][1..] == [];
        [words]
    else
      var rest := Chunks(words[BatchSize..]);
      var bs := [words[..BatchSize]] + rest;
      assert bs[1..] == rest;
      assert words == words[..BatchSize] + words[BatchSize..];
      bs
  }

  lemma SliceOfDrop<T>(s: seq<T>, d: nat, a: nat, b: nat)
    requires d <= |s| && a <= b <= |s| - d
    ensures s[d..][a..b] == s[d + a..d + b]
  {
  }

  /** Batch `k` of `Chunks` is the slice `words[20k:20k+20]`. */
  lemma {:induction false} ChunkAt(words: seq<string>, k: nat)
    requires k < |Chunks(words)|
    ensures BatchSize * k < |words|
    ensures Chunks(words)[k] == words[BatchSize * k..BatchEnd(BatchSize * k, |words|)]
    decreases |words|
  {
    if k > 0 {
      var rest := words[BatchSize..];
      assert Chunks(words)[k] == Chunks(rest)[k - 1];
      ChunkAt(rest, k - 1);
      var start := BatchSize * (k - 1);
      SliceOfDrop(words, BatchSize, start, BatchEnd(start, |rest|));
    }
  }

  /** Every batch holds one to twenty words, and every batch but the last exactly twenty. */
  lemma ChunkSizes(words: seq<string>)
    ensures forall k :: 0 <= k < |Chunks(words)| ==> 0 < |Chunks(words)[k]| <= BatchSize
    ensures forall k :: 0 <= k < |Chunks(words)| - 1 ==> |Chunks(words)[k]| == BatchSize
  {
    forall k | 0 <= k < |Chunks(words)| {
      ChunkAt(words, k);
    }
  }

  /** What the loop does for one batch: the progress line it prints, its words, and whether it pauses after. */
  datatype Step = Step(
    batchNum: nat,
    totalBatches: nat,
    firstWord: nat,
    lastWord: nat,
    words: seq<string>,
    pauseAfter: bool)

  /**
    The `k`-th batch as the loop meant it: number `k + 1` of `BatchCount`,
    words `20k + 1` to `min(20k + 20, n)` (counted from one), a pause after it
    while words remain.
  */
  function PlannedStep(words: seq<string>, k: nat): (step: Step)
    requires BatchSize * k < |words|
    ensures 0 < |step.words| <= BatchSize
    ensures step.firstWord + |step.words| == step.lastWord + 1
    ensures step.batchNum <= step.totalBatches
  {
    var n := |words|;
    var start := BatchSize * k;
    Step(k + 1, BatchCount(n), start + 1, BatchEnd(start, n), words[start..BatchEnd(start, n)], start + BatchSize < n)
  }

  /** The planned batches are the chunks, and only the last one is not followed by a pause. */
  lemma PlannedStepFacts(words: seq<string>, k: nat)
    requires k < BatchCount(|words|)
    ensures BatchSize * k < |words|
    ensures PlannedStep(words, k).words == Chunks(words)[k]
    ensures PlannedStep(words, k).pauseAfter <==> k + 1 < BatchCount(|words|)
  {
    ChunkAt(words, k);
  }

  function StepWords(steps: seq<Step>): seq<seq<string>> {
    seq(|steps|, k requires 0 <= k < |steps| => steps[k].words)
  }

  /**
    `generate_flashcards` after the words are loaded: walks the start indices
    0, 20, 40, ... below `|words|`, generates each batch, appends its records
    to `all` and saves `all` after every batch. `saved` is the last content
    written to the output file (None if no batch ran, when the file is not
    written at all); `steps` records each batch in order.
  */
  method GenerateFlashcards(words: seq<string>, generate: string -> Dict)
    returns (all: seq<Dict>, steps: seq<Step>, saved: Option<seq<Dict>>)
    ensures all == GenerateBatch(generate, words)
    ensures saved == if words == [] then None else Some(all)
    ensures |steps| == BatchCount(|words|)
    ensures forall k :: 0 <= k < |steps| ==> steps[k] == PlannedStep(words, k)
    ensures forall k :: 0 <= k < |steps| ==> (steps[k].pauseAfter <==> k + 1 < |steps|)
    ensures StepWords(steps) == Chunks(words)
  {
    var n := |words|;
    all, steps, saved := [], [], None;
    var i := 0;
    while i < n
      invariant i == BatchSize * |steps|
      invariant |steps| <= BatchCount(n)
      invariant i < n ==> |steps| < BatchCount(n)
      invariant all == GenerateBatch(generate, words[..if i < n then i else n])
      invariant saved == if i == 0 then None else Some(all)
      invariant forall k :: 0 <= k < |steps| ==> steps[k] == PlannedStep(words, k)
    {
      var end := BatchEnd(i, n);
      var batchWords := words[i..end];
      var batchNum := i / BatchSize + 1;
      var totalBatches := (n + BatchSize - 1) / BatchSize;

      var batchCards := GenerateBatch(generate, batchWords);
      GenerateBatchAppend(generate, words[..i], batchWords);
      assert words[..end] == words[..i] + batchWords;
      all := all + batchCards;
      saved := Some(all);

      var pause := i + BatchSize < n;
      assert Step(batchNum, totalBatches, i + 1, end, batchWords, pause) == PlannedStep(words, |steps|);
      steps := steps + [Step(batchNum, totalBatches, i + 1, end, batchWords, pause)];
      i := i + BatchSize;
    }
    assert words[..n] == words;
    forall k | 0 <= k < |steps|
      ensures (steps[k].pauseAfter <==> k + 1 < |steps|) && StepWords(steps)[k] == Chunks(words)[k]
    {
      PlannedStepFacts(words, k);
    }
  }
}
