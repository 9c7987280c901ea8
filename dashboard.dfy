/** The dashboard (Dashboard.jsx): on mount it reads the notes and the
    flashcards from storage, collects the distinct card keys and the distinct
    note tags with a `Set`, and shows three counts and the first four
    notes. */
module Dashboard {
  import opened Lists
  import opened Entities
  import opened Browser
  import opened Storage
  import opened CardLibrary

  /** The distinct `front-back` keys of the cards, as the `forEach` that
      adds each key to a `Set` collects them. */
  method DistinctCardKeys(cards: seq<Card>) returns (keys: seq<string>)
    ensures keys == Dedup(Keys(cards))
  {
    keys := [];
    var i := 0;
    while i < |cards|
      invariant 0 <= i <= |cards|
      invariant keys == Dedup(Keys(cards[..i]))
    {
      assert cards[..i + 1] == cards[..i] + [cards[i]];
      KeysSnoc(cards[..i], cards[i]);
      DedupSnoc(Keys(cards[..i]), CardKey(cards[i]));
      keys := AddIfAbsent(keys, CardKey(cards[i]));
      i := i + 1;
    }
    assert cards[..i] == cards;
  }

  /** The distinct tags of the notes, in order of first appearance, as the
      nested `forEach` collects them; `note.tags?.forEach` skips a note
      without tags, so it adds none. */
  method DistinctNoteTags(notes: seq<Note>) returns (tags: seq<string>)
    ensures tags == Dedup(NoteTags(notes))
  {
    tags := [];
    var i := 0;
    while i < |notes|
      invariant 0 <= i <= |notes|
      invariant tags == Dedup(NoteTags(notes[..i]))
    {
      tags := AddEach(tags, NoteTags(notes[..i]), TagsOrEmpty(notes[i]));
      NoteStep(notes, i);
      i := i + 1;
    }
    assert notes[..i] == notes;
  }

  /** One of the three stat cards (its icon and colour are left out). */
  datatype Stat = Stat(title: string, value: int)

  function Stats(notes: seq<Note>, tags: seq<string>, flashcards: seq<string>): seq<Stat> {
    [Stat("Total Notes", |notes|), Stat("Tags", |tags|), Stat("Flashcards", |flashcards|)]
  }

  /** An entry of the 'Recent Notes' list. */
  datatype RecentNote = RecentNote(id: int, title: string, date: string, tags: seq<string>)

  /** `notes.slice(0, 4).map(...)`, with `note.tags || []`. */
  function RecentNotes(notes: seq<Note>): seq<RecentNote> {
    var n := if |notes| < 4 then |notes| else 4;
    seq(n, i requires 0 <= i < n && n <= |notes| => RecentNote(notes[i].id, notes[i].title, notes[i].date, TagsOrEmpty(notes[i])))
  }

  /** The list holds the first four notes (all of them when there are
      fewer), in the notes' order, with their id, title, date and tags; a
      note without tags shows none. Notes after the fourth never matter. */
  lemma RecentNotesSpec(notes: seq<Note>, later: seq<Note>)
    ensures var r := RecentNotes(notes);
            |r| == (if |notes| < 4 then |notes| else 4)
            && (forall i :: 0 <= i < |r| ==>
                  r[i].id == notes[i].id && r[i].title == notes[i].title && r[i].date == notes[i].date
                  && (notes[i].tags.Some? ==> r[i].tags == notes[i].tags.value)
                  && (notes[i].tags.None? ==> r[i].tags == []))
            && (|notes| >= 4 ==> RecentNotes(notes + later) == r)
  {
    if |notes| >= 4 {
      var r := RecentNotes(notes);
      var r' := RecentNotes(notes + later);
      assert |r'| == |r|;
      forall i | 0 <= i < |r| ensures r'[i] == r[i] {
        assert (notes + later)[i] == notes[i];
      }
    }
  }

  /** What the counts mean for what is stored: the note count is the
      number of stored notes; the tag count is the number of distinct tags
      on them; the flashcard count is the number of distinct card keys, no
      more than the stored cards, and the same as the flashcards page's
      'All Decks' count for the same storage, whatever the locale. */
  lemma StatsSpec(items: map<string, Value>, loc: Locale)
    requires WellFormed(items)
    ensures var notes := StoredNotes(items);
            var cards := StoredCards(items);
            var tags := Dedup(NoteTags(notes));
            var s := Stats(notes, tags, Dedup(Keys(cards)));
            s[0].value == |notes|
            && s[1].value == |(set t | t in NoteTags(notes))|
            && (forall t :: t in tags <==> exists i :: 0 <= i < |notes| && t in TagsOrEmpty(notes[i]))
            && s[2].value == |(set k | k in Keys(cards))| <= |cards|
            && s[2].value == LibraryDecks(Unique(cards), loc)[0].count
  {
    var notes := StoredNotes(items);
    var cards := StoredCards(items);
    DedupSize(NoteTags(notes));
    forall t ensures t in Dedup(NoteTags(notes)) <==> exists i :: 0 <= i < |notes| && t in TagsOrEmpty(notes[i]) {
      DedupMember(NoteTags(notes), t);
      NoteTagsMember(notes, t);
    }
    DedupSize(Keys(cards));
    DedupSpec(Keys(cards));
    UniqueKeys(cards);
    LibraryDecksSpec(Unique(cards), loc);
  }

  /** The dashboard's three pieces of state. */
  datatype DashboardState = DashboardState(notes: seq<Note>, flashcards: seq<string>, tags: seq<string>)

  class DashboardPage {
    const ls: LocalStorage
    var notes: seq<Note>
    var flashcards: seq<string>
    var tags: seq<string>

    function State(): DashboardState
      reads this
    {
      DashboardState(notes, flashcards, tags)
    }

    /** Before the mount effect everything is empty. */
    constructor(ls: LocalStorage)
      requires ls.Valid()
      ensures this.ls == ls && State() == DashboardState([], [], [])
    {
      this.ls := ls;
      notes, flashcards, tags := [], [], [];
    }

    /** The mount effect: the stored notes, the distinct card keys and the
        distinct note tags. Storage is only read. */
    method Mount()
      requires ls.Valid()
      modifies this
      ensures State() == DashboardState(StoredNotes(ls.items), Dedup(Keys(StoredCards(ls.items))),
                                        Dedup(NoteTags(StoredNotes(ls.items))))
    {
      var store := new NoteStore(ls);
      var savedNotes := store.GetNotes();
      notes := savedNotes;
      var savedFlashcards := StoredCards(ls.items);
      flashcards := DistinctCardKeys(savedFlashcards);
      tags := DistinctNoteTags(savedNotes);
    }

    /** The three stat cards. */
    function StatCards(): seq<Stat>
      reads this
    {
      Stats(notes, tags, flashcards)
    }

    /** The 'Recent Notes' list. */
    function Recent(): seq<RecentNote>
      reads this
    {
      RecentNotes(notes)
    }
  }
}
