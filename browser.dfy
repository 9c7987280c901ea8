/** The browser's `localStorage`, as the frontend uses it: a map from key
    to the JSON value stored under it. JSON text is not modelled; each key
    holds the parsed shape the code reads back from it. */
module Browser {
  import opened Entities

  /** The study session a note page leaves for the flashcards page. */
  datatype Session = Session(source: string, noteTitle: string, flashcards: seq<Card>)

  /** The parsed shapes stored under the keys the frontend uses. */
  datatype Value =
    | NoteList(notes: seq<Note>)
    | StringList(strings: seq<string>)
    | CardList(cards: seq<Card>)
    | SessionValue(session: Session)

  /** The notes, written by storage.js. */
  const NOTES_KEY: string := "smart_notes"
  /** The index of every note tag, written by storage.js. */
  const TAGS_KEY: string := "smart_notes_tags"
  /** The flashcards, written by the flashcards page. */
  const FLASHCARDS_KEY: string := "flashcards"
  /** The recent search queries, written by the search page. */
  const RECENT_SEARCHES_KEY: string := "recentSearches"
  /** A pending study session, read and removed by the flashcards page. */
  const SESSION_KEY: string := "currentStudySession"

  /** Each key the frontend uses holds the shape its readers parse. */
  predicate Fits(key: string, v: Value) {
    (key == NOTES_KEY ==> v.NoteList?)
    && (key == TAGS_KEY ==> v.StringList?)
    && (key == FLASHCARDS_KEY ==> v.CardList?)
    && (key == RECENT_SEARCHES_KEY ==> v.StringList?)
    && (key == SESSION_KEY ==> v.SessionValue?)
  }

  predicate WellFormed(items: map<string, Value>) {
    forall k :: k in items ==> Fits(k, items[k])
  }

  /** `JSON.parse(localStorage.getItem(key) || '[]')` for the notes key. */
  function StoredNotes(items: map<string, Value>): seq<Note>
    requires WellFormed(items)
  {
    if NOTES_KEY in items then items[NOTES_KEY].notes else []
  }

  /** The same for the flashcards key. */
  function StoredCards(items: map<string, Value>): seq<Card>
    requires WellFormed(items)
  {
    if FLASHCARDS_KEY in items then items[FLASHCARDS_KEY].cards else []
  }

  /** The same for a key holding a list of strings. */
  function StoredStrings(items: map<string, Value>, key: string): seq<string>
    requires WellFormed(items)
    requires key == TAGS_KEY || key == RECENT_SEARCHES_KEY
  {
    if key in items then items[key].strings else []
  }

  class LocalStorage {
    var items: map<string, Value>

    ghost predicate Valid()
      reads this
    {
      WellFormed(items)
    }

    constructor()
      ensures Valid() && items == map[]
    {
      items := map[];
    }

    /** `localStorage.setItem(key, JSON.stringify(v))`. */
    method SetItem(key: string, v: Value)
      requires Valid() && Fits(key, v)
      modifies this
      ensures Valid()
      ensures items == old(items)[key := v]
    {
      items := items[key := v];
    }

    /** `localStorage.removeItem(key)`. */
    method RemoveItem(key: string)
      requires Valid()
      modifies this
      ensures Valid()
      ensures items == old(items) - {key}
    {
      items := items - {key};
    }
  }
}
