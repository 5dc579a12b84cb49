/**
  Seeding the study catalog (flashcard_generation/add_ids_and_progress.py):
  every generated flashcard gets the id of its position, counted from one,
  and a progress record with the same id that says the card was never
  studied; the unmodified input is kept in a backup that is written once.
*/
module ProgressSeeding {
  import opened Wrappers
  import opened JsonValues

  /** The study record kept beside each flashcard. */
  datatype ProgressEntry = ProgressEntry(
    id: int,
    dateLastStudied: Option<string>,
    numTimesStudied: nat,
    easeFactor: real,
    interval: nat,
    repetitions: nat,
    totalCorrect: nat,
    totalIncorrect: nat,
    totalStudied: nat,
    totalCorrectStreak: nat,
    totalIncorrectStreak: nat)

  /** No study session has touched the card. */
  predicate NeverStudied(e: ProgressEntry) {
    e.dateLastStudied.None? && e.numTimesStudied == 0
  }

  /**
    The schedule of a card nobody has reviewed: ease 2.5, a one-day interval,
    no successful repetitions and every counter at zero.
  */
  predicate FreshSchedule(e: ProgressEntry) {
    && e.easeFactor == 2.5
    && e.interval == 1
    && e.repetitions == 0
    && e.totalCorrect == 0
    && e.totalIncorrect == 0
    && e.totalStudied == 0
    && e.totalCorrectStreak == 0
    && e.totalIncorrectStreak == 0
  }

  /** `create_progress_entry`: the initial record for card `cardId`. */
  function CreateProgressEntry(cardId: int): (e: ProgressEntry)
    ensures e.id == cardId
    ensures NeverStudied(e)
    ensures FreshSchedule(e)
  {
    ProgressEntry(cardId, None, 0, 2.5, 1, 0, 0, 0, 0, 0, 0)
  }

  const ProgressKeys: seq<string> := [
    "id", "date_last_studied", "num_times_studied", "ease_factor", "interval",
    "repetitions", "total_correct", "total_incorrect", "total_studied",
    "total_correct_streak", "total_incorrect_streak"]

  function ProgressValues(e: ProgressEntry): seq<Value> {
    [ Int(e.id),
      match e.dateLastStudied case None => Null case Some(d) => Str(d),
      Int(e.numTimesStudied), Real(e.easeFactor), Int(e.interval), Int(e.repetitions),
      Int(e.totalCorrect), Int(e.totalIncorrect), Int(e.totalStudied),
      Int(e.totalCorrectStreak), Int(e.totalIncorrectStreak) ]
  }

  /** A progress record as the dict that is written to JSON, keys in their written order. */
  function ToDict(e: ProgressEntry): Dict {
    Display(ProgressKeys, ProgressValues(e))
  }

  lemma ProgressField(e: ProgressEntry, j: nat)
    requires j < |ProgressKeys|
    ensures Lookup(ToDict(e), ProgressKeys[j]) == Some(ProgressValues(e)[j])
  {
    DisplayLookup(ProgressKeys, ProgressValues(e), j);
  }

  lemma ProgressIdFirst()
    ensures ProgressKeys[0] == "id"
  {
  }

  /** The written record of a fresh entry: its id, a null date and the initial schedule. */
  lemma FreshEntryDict(cardId: int)
    ensures Keys(ToDict(CreateProgressEntry(cardId))) == ProgressKeys
    ensures Lookup(ToDict(CreateProgressEntry(cardId)), "id") == Some(Int(cardId))
    ensures Lookup(ToDict(CreateProgressEntry(cardId)), "date_last_studied") == Some(Null)
    ensures Lookup(ToDict(CreateProgressEntry(cardId)), "num_times_studied") == Some(Int(0))
    ensures Lookup(ToDict(CreateProgressEntry(cardId)), "ease_factor") == Some(Real(2.5))
    ensures Lookup(ToDict(CreateProgressEntry(cardId)), "interval") == Some(Int(1))
  {
    var e := CreateProgressEntry(cardId);
    ProgressField(e, 0);
    ProgressField(e, 1);
    ProgressField(e, 2);
    ProgressField(e, 3);
    ProgressField(e, 4);
  }

  /**
    `{"id": i, **card}`: a new dict with `id` first and the card's entries
    after it. The merge is right-biased, so a card that already has an `id`
    keeps its own value (in the first position).
  */
  function CardWithId(i: int, card: Dict): Dict {
    Update(Put([], "id", Int(i)), card)
  }

  /** Every field of the card survives unchanged; `id` is `i` only when the card has none. */
  lemma CardWithIdLookup(i: int, card: Dict, k: string)
    ensures Lookup(CardWithId(i, card), k) ==
      if k in Keys(card) then Lookup(card, k)
      else if k == "id" then Some(Int(i))
      else None
  {
    UpdateLookup(Put([], "id", Int(i)), card, k);
  }

  /** `id` comes first, then the card's own keys in their order (its own `id` dropped). */
  lemma CardWithIdKeys(i: int, card: Dict)
    ensures Keys(CardWithId(i, card)) == ["id"] + Unseen(Keys(card), ["id"])
  {
    UpdateKeys(Put([], "id", Int(i)), card);
    assert Keys([]) == [];
    assert Keys(Put([], "id", Int(i))) == ["id"];
  }

  /** What the loop of `main` builds: card `k` (from zero) with id `k + 1`. */
  function IdCards(flashcards: seq<Dict>): (cards: seq<Dict>)
    ensures |cards| == |flashcards|
  {
    seq(|flashcards|, k requires 0 <= k < |flashcards| => CardWithId(k + 1, flashcards[k]))
  }

  /** The progress list of `main`: one fresh entry per card, ids 1 to `n`. */
  function SeedProgress(n: nat): (entries: seq<ProgressEntry>)
    ensures |entries| == n
    ensures forall k :: 0 <= k < n ==> entries[k].id == k + 1 && NeverStudied(entries[k]) && FreshSchedule(entries[k])
  {
    seq(n, k requires 0 <= k < n => CreateProgressEntry(k + 1))
  }

  /**
    The loop of `main` over `enumerate(flashcards, 1)`: appends the card with
    its id and the matching progress entry. `flashcards` itself is a value and
    is not changed.
  */
  method AddIdsAndProgress(flashcards: seq<Dict>) returns (withIds: seq<Dict>, progress: seq<ProgressEntry>)
    ensures withIds == IdCards(flashcards)
    ensures progress == SeedProgress(|flashcards|)
  {
    withIds, progress := [], [];
    var i := 1;
    while i <= |flashcards|
      invariant 1 <= i <= |flashcards| + 1
      invariant withIds == IdCards(flashcards[..i - 1])
      invariant progress == SeedProgress(i - 1)
    {
      var card := flashcards[i - 1];
      var cardWithId := CardWithId(i, card);
      withIds := withIds + [cardWithId];
      var progressEntry := CreateProgressEntry(i);
      progress := progress + [progressEntry];
      IdCardsSnoc(flashcards, i);
      SeedProgressSnoc(i - 1);
      i := i + 1;
    }
    assert flashcards[..|flashcards|] == flashcards;
  }

  /** One more loop step appends one card with the next id. */
  lemma IdCardsSnoc(flashcards: seq<Dict>, i: nat)
    requires 1 <= i <= |flashcards|
    ensures IdCards(flashcards[..i]) == IdCards(flashcards[..i - 1]) + [CardWithId(i, flashcards[i - 1])]
  {
    assert flashcards[..i][..i - 1] == flashcards[..i - 1];
  }

  /** One more loop step appends one fresh entry with the next id. */
  lemma SeedProgressSnoc(n: nat)
    ensures SeedProgress(n + 1) == SeedProgress(n) + [CreateProgressEntry(n + 1)]
  {
  }

  /**
    Card `k` and progress entry `k` carry the same id exactly when the card
    had no `id` of its own or already had that very id.
  */
  lemma IdsInLockstep(flashcards: seq<Dict>, k: nat)
    requires k < |flashcards|
    ensures SeedProgress(|flashcards|)[k].id == k + 1
    ensures Lookup(IdCards(flashcards)[k], "id") == Some(Int(SeedProgress(|flashcards|)[k].id))
      <==> ("id" !in Keys(flashcards[k]) || Lookup(flashcards[k], "id") == Some(Int(k + 1)))
  {
    CardWithIdLookup(k + 1, flashcards[k], "id");
  }

  /** A card that brings its own `id` keeps it, and then disagrees with its progress entry. */
  lemma OwnIdBreaksLockstep()
    ensures Lookup(IdCards([[("id", Int(7))]])[0], "id") == Some(Int(7))
    ensures SeedProgress(1)[0].id == 1
  {
    var card: Dict := [("id", Int(7))];
    CardWithIdLookup(1, card, "id");
  }

  /** A card without an `id` of its own gets the id of its position. */
  lemma CardIdAt(flashcards: seq<Dict>, k: nat)
    requires k < |flashcards| && "id" !in Keys(flashcards[k])
    ensures Lookup(IdCards(flashcards)[k], "id") == Some(Int(k + 1))
  {
    CardWithIdLookup(k + 1, flashcards[k], "id");
  }

  /** When no card has an `id`, no two cards share one. */
  lemma IdsUnique(flashcards: seq<Dict>, j: nat, k: nat)
    requires forall c :: 0 <= c < |flashcards| ==> "id" !in Keys(flashcards[c])
    requires j < k < |flashcards|
    ensures Lookup(IdCards(flashcards)[j], "id") != Lookup(IdCards(flashcards)[k], "id")
  {
    CardIdAt(flashcards, j);
    CardIdAt(flashcards, k);
  }

  const FlashcardsPath: string := "flashcard_generation/flashcards.json"
  const WithIdsPath: string := "flashcard_generation/flashcards_with_ids.json"
  const ProgressPath: string := "flashcard_generation/flashcard_progress.json"
  /** `f"{flashcards_path}.backup"` */
  const BackupPath: string := FlashcardsPath + ".backup"

  /** The four files are four different paths. */
  lemma PathsDistinct()
    ensures FlashcardsPath != WithIdsPath && FlashcardsPath != ProgressPath && FlashcardsPath != BackupPath
    ensures WithIdsPath != ProgressPath && WithIdsPath != BackupPath
    ensures ProgressPath != BackupPath
  {
    assert |FlashcardsPath| == 36 && |WithIdsPath| == 45 && |ProgressPath| == 44 && |BackupPath| == 43;
  }

  /**
    What `json.load` finds in a file, as far as `main` can tell: a list of
    card dicts, an empty object `{}` or an empty string `""` (both have
    length 0, so the loop runs zero times), or anything else, on which `len`
    or the `**card` merge raises.
  */
  datatype Document = Records(items: seq<Dict>) | EmptyObject | EmptyString | Malformed

  /** The cards `main` iterates over, or None when it raises before writing. */
  function LoadedCards(doc: Document): (cards: Option<seq<Dict>>)
    ensures cards.None? <==> doc.Malformed?
    ensures doc.Records? ==> cards == Some(doc.items)
    ensures doc.EmptyObject? || doc.EmptyString? ==> cards == Some([])
  {
    match doc
    case Records(items) => Some(items)
    case EmptyObject => Some([])
    case EmptyString => Some([])
    case Malformed => None
  }

  /** The files on disk, by path. */
  type FileSystem = map<string, Document>

  /** Why `main` stops before writing anything: the input is missing, or it is neither a list of dicts nor empty. */
  datatype LoadError = FileNotFound | NotACardList

  function ProgressDicts(entries: seq<ProgressEntry>): seq<Dict> {
    seq(|entries|, k requires 0 <= k < |entries| => ToDict(entries[k]))
  }

  /**
    The files after `main`: the ids file and the progress file are
    (re)written, the backup only when it does not exist yet.
  */
  function Seeded(fs: FileSystem): Result<FileSystem, LoadError> {
    if FlashcardsPath !in fs then Err(FileNotFound)
    else match LoadedCards(fs[FlashcardsPath])
      case None => Err(NotACardList)
      case Some(cards) =>
        var written := fs[WithIdsPath := Records(IdCards(cards))]
                         [ProgressPath := Records(ProgressDicts(SeedProgress(|cards|)))];
        Ok(if BackupPath in written then written else written[BackupPath := fs[FlashcardsPath]])
  }

  /**
    `main`, statement by statement: loads the cards, runs the id/progress
    loop, saves both lists and writes the backup of the loaded document if
    there is none. It is the imperative rendering of `Seeded`, about which
    the properties of a run are proved.
  */
  method SeedCatalog(fs: FileSystem) returns (r: Result<FileSystem, LoadError>)
    ensures r == Seeded(fs)
  {
    if FlashcardsPath !in fs {
      return Err(FileNotFound);
    }
    var doc := fs[FlashcardsPath];
    var flashcards: seq<Dict>;
    match doc {
      case Records(items) => flashcards := items;
      case EmptyObject => flashcards := [];
      case EmptyString => flashcards := [];
      case Malformed => return Err(NotACardList);
    }
    var flashcardsWithIds, progressEntries := AddIdsAndProgress(flashcards);
    var disk := fs;
    disk := disk[WithIdsPath := Records(flashcardsWithIds)];
    disk := disk[ProgressPath := Records(ProgressDicts(progressEntries))];
    if BackupPath !in disk {
      disk := disk[BackupPath := doc];
    }
    return Ok(disk);
  }

  /** `main` fails exactly on a missing or malformed input, and then writes nothing; an empty input succeeds. */
  lemma SeededErrors(fs: FileSystem)
    ensures Seeded(fs) == Err(FileNotFound) <==> FlashcardsPath !in fs
    ensures Seeded(fs) == Err(NotACardList) <==> FlashcardsPath in fs && fs[FlashcardsPath].Malformed?
    ensures Seeded(fs).Ok? <==> FlashcardsPath in fs && !fs[FlashcardsPath].Malformed?
  {
  }

  /**
    A successful run writes the id list and the progress list of the loaded
    cards, leaves the input file as it was and touches no path other than
    the three it writes.
  */
  lemma SeededFiles(fs: FileSystem)
    requires Seeded(fs).Ok?
    ensures var cards := LoadedCards(fs[FlashcardsPath]).value; var out := Seeded(fs).value;
      && out[WithIdsPath] == Records(IdCards(cards))
      && out[ProgressPath] == Records(ProgressDicts(SeedProgress(|cards|)))
      && FlashcardsPath in out && out[FlashcardsPath] == fs[FlashcardsPath]
      && out.Keys == fs.Keys + {WithIdsPath, ProgressPath, BackupPath}
    ensures forall p :: p in fs && p !in {WithIdsPath, ProgressPath, BackupPath} ==> p in Seeded(fs).value && Seeded(fs).value[p] == fs[p]
  {
    PathsDistinct();
  }

  lemma SeededWrites(fs: FileSystem)
    requires Seeded(fs).Ok?
    ensures Seeded(fs).value[WithIdsPath] == Records(IdCards(LoadedCards(fs[FlashcardsPath]).value))
    ensures Seeded(fs).value[ProgressPath] == Records(ProgressDicts(SeedProgress(|LoadedCards(fs[FlashcardsPath]).value|)))
  {
    PathsDistinct();
  }

  /** Record `k` of the progress file has id `k + 1`. */
  lemma ProgressFileId(n: nat, k: nat)
    requires k < n
    ensures Lookup(ProgressDicts(SeedProgress(n))[k], "id") == Some(Int(k + 1))
  {
    var e := SeedProgress(n)[k];
    assert ProgressValues(e)[0] == Int(k + 1);
    ProgressIdFirst();
    ProgressField(e, 0);
  }

  /** An existing backup is never overwritten. */
  lemma BackupNeverOverwritten(fs: FileSystem)
    requires Seeded(fs).Ok? && BackupPath in fs
    ensures Seeded(fs).value[BackupPath] == fs[BackupPath]
  {
    PathsDistinct();
  }

  /** A new backup holds the input document exactly as it was loaded, without ids. */
  lemma BackupIsOriginal(fs: FileSystem)
    requires Seeded(fs).Ok? && BackupPath !in fs
    ensures Seeded(fs).value[BackupPath] == fs[FlashcardsPath]
  {
    PathsDistinct();
  }

  /** Running `main` a second time on its own output changes nothing. */
  lemma RerunIsIdempotent(fs: FileSystem)
    requires Seeded(fs).Ok?
    ensures Seeded(Seeded(fs).value) == Seeded(fs)
  {
    PathsDistinct();
    var out := Seeded(fs).value;
    assert out[FlashcardsPath] == fs[FlashcardsPath];
    assert BackupPath in out;
    var cards := LoadedCards(fs[FlashcardsPath]).value;
    var again := out[WithIdsPath := Records(IdCards(cards))]
                    [ProgressPath := Records(ProgressDicts(SeedProgress(|cards|)))];
    assert again == out;
  }

  /**
    Once a backup exists, regenerating the input and seeding again keeps
    the first backup: it always holds the document seen by the first run.
  */
  lemma BackupKeepsFirstInput(fs: FileSystem, regenerated: seq<Dict>)
    requires Seeded(fs).Ok? && BackupPath !in fs
    ensures var second := Seeded(Seeded(fs).value[FlashcardsPath := Records(regenerated)]);
      second.Ok? && second.value[BackupPath] == fs[FlashcardsPath]
  {
    PathsDistinct();
    var mid := Seeded(fs).value[FlashcardsPath := Records(regenerated)];
    BackupIsOriginal(fs);
    assert BackupPath in mid && mid[BackupPath] == fs[FlashcardsPath];
    BackupNeverOverwritten(mid);
  }

  /**
    When no loaded card has an `id`, record `k` of the ids file and record
    `k` of the progress file both carry id `k + 1`.
  */
  lemma FilesInLockstep(fs: FileSystem, k: nat)
    requires Seeded(fs).Ok?
    requires forall c :: 0 <= c < |LoadedCards(fs[FlashcardsPath]).value| ==> "id" !in Keys(LoadedCards(fs[FlashcardsPath]).value[c])
    requires k < |LoadedCards(fs[FlashcardsPath]).value|
    ensures var out := Seeded(fs).value;
      && |out[WithIdsPath].items| == |out[ProgressPath].items| == |LoadedCards(fs[FlashcardsPath]).value|
      && Lookup(out[WithIdsPath].items[k], "id") == Some(Int(k + 1))
      && Lookup(out[ProgressPath].items[k], "id") == Some(Int(k + 1))
  {
    var cards := LoadedCards(fs[FlashcardsPath]).value;
    SeededWrites(fs);
    IdsInLockstep(cards, k);
    ProgressFileId(|cards|, k);
  }
}
