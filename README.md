# Smart Note Organizer frontend, modelled in Dafny

This project models the browser side of Smart Note Organizer. That is a
React application for notes, tags and flashcards that keeps its data in the
browser's `localStorage`. The model covers six pieces:

- **Note store** (`frontend/src/utils/storage.js`, module `Storage`). It
  reads, adds, updates and deletes notes, and rebuilds the tag index after
  every change. `updateTagsFromNotes` calls `note.tags.forEach` without a
  guard. A note without tags makes it throw after the notes were already
  written, and the model keeps that path.
- **Flashcards page** (`FlashcardsPage.jsx`, modules `CardLibrary` and
  `Flashcards`):
  - On mount it takes over a study session handed over by a note page, or
    builds the library from storage.
  - Building the library merges cards that share the content key
    `front-back`, merging their tags through a `Set`. It groups the cards
    into decks: 'All Decks' first, then the others sorted by name.
  - It also has the search filters, the study cursor with its JavaScript
    `%`, card creation and the Anki export text.
- **Search page** (`SearchPage.jsx`, module `Search`). It keeps a
  five-entry search history in storage. It builds the tag list, searches
  notes and cards with the filter dialog's options, and splits results by
  tab. Its handlers are modelled together with the effect that re-runs the
  search when the query or the selected tags change.
- **New-note dialog** (`NewNoteDialog.jsx`, module `NoteDialog`): its
  fields, tag entry, and the save that hands a trimmed draft to the page.
- **Notes page** (`NotesPage.jsx`, module `Notes`):
  - the tab filter and the two sorts over a copy of the notes;
  - the notes it creates from a dialog draft and from imported files.

  Its ids stay `1..n`.
- **Dashboard** (`Dashboard.jsx`, module `Dashboard`): the distinct card
  keys and the distinct note tags, collected by loops. The tag and card
  counts come from those two sets; the note count and the list of recent
  notes (the first four stored notes) come from the stored notes.

Shared modules:

- `Lists` holds `Set` as `Dedup`, plus `filter`, `slice` and removal.
- `Text` holds `trim`, `includes`, `join`, `split` and `substring`.
- `Sorting` holds `Array.prototype.sort` as an insertion sort, proved stable.
- `Entities` holds the records.
- `Browser` holds `localStorage` as a class over a map from keys to
  parsed JSON values.

Each page is a class with one field per `useState` hook. A function
`State()` packs the fields into a datatype, so every handler states its
whole new state as `old(State())` with the changed fields. A React effect
runs after the render in which its dependencies changed. A handler that
changes such a dependency therefore also performs the effect's update, on
the new state. An example is `Refreshed()` on the search page.

Environment behaviour is passed in as parameters:

- Case mapping and `localeCompare` come as a `Locale` value. The model
  assumes nothing about them unless a contract says so.
- Date parsing, the date-range test and the clock are parameters.
- Ids from `Date.now()` and today's formatted date are also parameters.

## Model

| member | source | states |
|---|---|---|
| Text.TrimSpec | frontend/src/components/NewNoteDialog.jsx:105-108 | `trim` returns a slice of the string with only whitespace around it, and the result neither starts nor ends with whitespace |
| Text.TrimEmpty | frontend/src/components/NewNoteDialog.jsx:105 | a string trims to "" (is falsy after `trim`) exactly when it is all whitespace |
| Text.TrimIdempotent | frontend/src/components/NewNoteDialog.jsx:32-33 | trimming a trimmed tag changes nothing |
| Text.Includes | frontend/src/pages/SearchPage.jsx:152-154 | `includes` holds exactly when the needle occurs as a contiguous slice |
| Text.SplitJoin | frontend/src/pages/FlashcardsPage.jsx:215-218 | splitting a join at a one-character separator none of the pieces contain gives back the pieces |
| Text.Preview | frontend/src/pages/NotesPage.jsx:157 | `substring(0, 150) + '...'` is at most 150 characters from the start of the text followed by "...", with the end clamped to the text's length |
| Lists.DedupSpec | frontend/src/pages/Dashboard.jsx:38-44 | `Array.from(new Set(s))` has no repeats and holds exactly the elements of `s` |
| Lists.DedupSize | frontend/src/pages/Dashboard.jsx:57-58 | its length is the number of distinct elements of `s` |
| Lists.DedupFirstOccurrenceOrder | frontend/src/pages/FlashcardsPage.jsx:111 | the distinct elements come in the order of their first occurrence |
| Lists.RemoveAll | frontend/src/pages/SearchPage.jsx:101 | `filter(x => x !== v)` drops every copy of `v`, keeps every other element as often as before and in order |
| Lists.ToggleTwice | frontend/src/pages/SearchPage.jsx:127-134 | toggling a tag twice restores which tags are selected, and restores the list itself when the tag was not selected |
| Sorting.SortPermutes | frontend/src/pages/NotesPage.jsx:139-142 | the sort returns a permutation of its input |
| Sorting.SortSorts | frontend/src/pages/FlashcardsPage.jsx:126 | for a comparison function that answers consistently for swapped arguments, the sorted list is in order |
| Sorting.SortStable | frontend/src/pages/NotesPage.jsx:137-145 | for a comparison function that is a total preorder on the input, elements that tie keep their input order (the sort is stable) |
| Entities.NoteTagsMember | frontend/src/pages/SearchPage.jsx:110 | a tag is in `notes.flatMap(note => note.tags \|\| [])` exactly when some note has it; untagged notes give none |
| Entities.CardTagsMember | frontend/src/pages/SearchPage.jsx:111 | a tag is in the cards' tags exactly when some card has it |
| Entities.AddDraftTag | frontend/src/pages/FlashcardsPage.jsx:263-271 | the trimmed text joins the tags exactly when it is non-empty and new, the field is then cleared, and a duplicate-free list stays duplicate-free |
| Entities.CardKeyCollision | frontend/src/pages/FlashcardsPage.jsx:91 | two cards with different fronts and backs can have the same content key |
| Browser.LocalStorage.SetItem | frontend/src/utils/storage.js:13 | `setItem` replaces the value under one key and leaves every other key as it was |
| Browser.LocalStorage.RemoveItem | frontend/src/pages/FlashcardsPage.jsx:76 | `removeItem` removes one key and leaves the others |
| Storage.TagIndexSpec | frontend/src/utils/storage.js:67-73 | the tag index has no repeats and holds exactly the tags of the notes |
| Storage.CollectTags | frontend/src/utils/storage.js:68-71 | the set-building loop succeeds exactly when every note has a tag array, and then yields the tag index |
| Storage.AddEach | frontend/src/utils/storage.js:70 | adding each tag of one note to the set extends the set exactly as the flattened tags dictate |
| Storage.ReplaceFirstSpec | frontend/src/utils/storage.js:35-37 | without a note of that id nothing changes; otherwise exactly the first match is replaced |
| Storage.ReplaceFirstTwice | frontend/src/utils/storage.js:33-43 | updating with the same note twice is updating once |
| Storage.WithoutId | frontend/src/utils/storage.js:47 | no remaining note has the id, the rest keep their order, and every note with another id keeps its multiplicity |
| Storage.DeleteKeepsOthers | frontend/src/utils/storage.js:45-52 | deleting keeps every note with another id |
| Storage.DeleteAbsent | frontend/src/utils/storage.js:45-52 | deleting an absent id leaves the notes as they were |
| Storage.FindIndex | frontend/src/utils/storage.js:35 | `findIndex` is -1 exactly when no note has the id, and otherwise the first index with it |
| Storage.CommittedSpec | frontend/src/utils/storage.js:12-16 | after a change `getNotes` returns the new list; `getTags` returns its tag index, or the old index when rebuilding threw; no other key changes |
| Storage.NoteStore.GetNotes | frontend/src/utils/storage.js:7-10 | the stored notes, or [] when the key is absent |
| Storage.NoteStore.SaveNotes | frontend/src/utils/storage.js:12-16 | only the notes key changes, and reading it back gives the saved list |
| Storage.NoteStore.GetTags | frontend/src/utils/storage.js:55-58 | the stored tag index, or [] when the key is absent |
| Storage.NoteStore.SaveTags | frontend/src/utils/storage.js:60-64 | only the tag key changes, and reading it back gives the saved list |
| Storage.NoteStore.UpdateTagsFromNotes | frontend/src/utils/storage.js:67-73 | the index is rewritten to the notes' tag index exactly when every note has tags; otherwise storage is untouched and the call fails |
| Storage.NoteStore.AddNote | frontend/src/utils/storage.js:18-31 | the note gets id `now` and goes in front of the stored notes; notes and tag index are committed; the returned note is the stored one |
| Storage.NoteStore.UpdateNote | frontend/src/utils/storage.js:33-43 | with a note of that id the first one is replaced and committed; without one storage is unchanged |
| Storage.NoteStore.DeleteNote | frontend/src/utils/storage.js:45-52 | every note with the id is removed and the rest committed |
| CardLibrary.Keys | frontend/src/pages/FlashcardsPage.jsx:91 | one content key per card, in order |
| CardLibrary.UniqueKeys | frontend/src/pages/FlashcardsPage.jsx:89-111 | the kept cards' keys are the stored keys without repeats, in order of first occurrence |
| CardLibrary.AbsorbKeys | frontend/src/pages/FlashcardsPage.jsx:93-95 | one step of the mount loop adds the card's key to the keys exactly as a `Map` does |
| CardLibrary.UniqueSpec | frontend/src/pages/FlashcardsPage.jsx:89-111 | after the mount loop no two cards share a key, every stored key is held by exactly one card, none is invented, and the cards come in order of first occurrence |
| CardLibrary.AbsorbDuplicate | frontend/src/pages/FlashcardsPage.jsx:102-107 | a duplicate only merges its tags into the first card with its key; nothing else changes and the list does not grow |
| CardLibrary.MergedTagsOrder | frontend/src/pages/FlashcardsPage.jsx:105 | merged tags are the kept card's tags in order, then the new tags not yet present, each once |
| CardLibrary.UniqueKeepsFirst | frontend/src/pages/FlashcardsPage.jsx:93-95 | each kept card is the first stored card with its key, except for the tags |
| CardLibrary.UniqueTags | frontend/src/pages/FlashcardsPage.jsx:102-107 | each kept card's tags are its own when its key occurs once, and otherwise the tags of all copies, each once, in order of first occurrence |
| CardLibrary.DeckRowsSpec | frontend/src/pages/FlashcardsPage.jsx:97-101 | each deck appears in one row, with id equal to name and the number of its cards (at least 1), names never repeat, and the counts add up to the number of cards |
| CardLibrary.LibraryDecksSpec | frontend/src/pages/FlashcardsPage.jsx:114-127 | 'All Decks' comes first and counts every card; the other rows are the deck rows, sorted by name when `localeCompare` answers consistently for swapped names, and their counts add up to the same number |
| CardLibrary.RowsFromDeckMap | frontend/src/pages/FlashcardsPage.jsx:121-125 | the rows read off the deck map are the deck rows of the kept cards |
| CardLibrary.AbsorbCard | frontend/src/pages/FlashcardsPage.jsx:89-108 | the `forEach` body on the `Map` and the deck map computes one step of the merge and keeps both maps in step with the kept cards |
| CardLibrary.BuildLibrary | frontend/src/pages/FlashcardsPage.jsx:85-111 | the mount loop yields exactly the merged cards and their deck rows |
| CardLibrary.BuildLibraryAsWritten | frontend/src/pages/FlashcardsPage.jsx:85-111 | the mount loop with `deckMap` as a plain object fails exactly when a kept card's deck is named after an `Object.prototype` property, and otherwise gives the merged cards and deck rows |
| CardLibrary.InheritedDeckNameFails | frontend/src/pages/FlashcardsPage.jsx:97-101 | one card in a deck named "toString" makes the loop as written fail, while the corrected loop gives it a row of its own |
| CardLibrary.DecksGrow | frontend/src/pages/FlashcardsPage.jsx:85-104 | every deck of the cards kept from a prefix of the stored cards is a deck of the cards kept from all of them |
| CardLibrary.FilterCards | frontend/src/pages/FlashcardsPage.jsx:186-199 | a card is listed exactly when it passes the filter of the selected deck (with 'All Decks', front, back, deck or a tag mentions the query; otherwise same deck, and front, back or a tag mentions it); order is kept |
| CardLibrary.FilteredFlashcards | frontend/src/pages/FlashcardsPage.jsx:184-199 | a study session shows exactly its own cards; otherwise the filtered library, never more cards than the library |
| CardLibrary.EmptyQueryKeepsDeck | frontend/src/pages/FlashcardsPage.jsx:186-199 | with an empty query every card of the selected deck is listed (every card with 'All Decks') |
| CardLibrary.FilterDecks | frontend/src/pages/FlashcardsPage.jsx:204-206 | a deck is listed exactly when its name mentions the query |
| CardLibrary.ExportedCards | frontend/src/pages/FlashcardsPage.jsx:210-212 | 'All Decks' exports every card, otherwise exactly the cards of the selected deck, in order |
| CardLibrary.AnkiLineFields | frontend/src/pages/FlashcardsPage.jsx:217 | a line of a card without tabs or newlines splits back into front, back and space-joined tags, and contains no newline |
| CardLibrary.AnkiExportSpec | frontend/src/pages/FlashcardsPage.jsx:215-218 | the export splits back at newlines into one line per exported card, each holding that card's fields |
| CardLibrary.CursorSpec | frontend/src/pages/FlashcardsPage.jsx:145-153 | next and previous land in range, undo each other, and wrap at both ends |
| CardLibrary.CountUp | frontend/src/pages/FlashcardsPage.jsx:252-254 | every row with the deck's id gains one card and the others are untouched |
| CardLibrary.BumpDecksSpec | frontend/src/pages/FlashcardsPage.jsx:249-255 | after a card is created its deck is listed; the list grows only for a new deck; the counts grow by one per row with that id (one in all for a new deck); rows with another id are unchanged |
| Flashcards.ExportFileNameClash | frontend/src/pages/FlashcardsPage.jsx:225 | two selections get the same file name exactly when they are equal or are 'All Decks' and a deck named `all_decks` |
| Flashcards.FlashcardsPage.constructor | frontend/src/pages/FlashcardsPage.jsx:46-64 | the initial state of every hook |
| Flashcards.FlashcardsPage.Mount | frontend/src/pages/FlashcardsPage.jsx:66-131 | a note session starts study mode on its cards and is removed from storage; otherwise the merged cards and the deck list are set, 'All Decks' counting every card and the other counts adding up to it, and storage is unchanged |
| Flashcards.FlashcardsPage.HandleTabChange | frontend/src/pages/FlashcardsPage.jsx:133-135 | only the tab changes |
| Flashcards.FlashcardsPage.HandleNextCard | frontend/src/pages/FlashcardsPage.jsx:145-148 | the answer is hidden and the cursor moves forward with wrap-around, staying on a card |
| Flashcards.FlashcardsPage.HandlePrevCard | frontend/src/pages/FlashcardsPage.jsx:150-153 | the answer is hidden and the cursor moves back with wrap-around, staying on a card |
| Flashcards.FlashcardsPage.ToggleAnswer | frontend/src/pages/FlashcardsPage.jsx:155-157 | only the answer's visibility flips |
| Flashcards.FlashcardsPage.ResetAnswer | frontend/src/pages/FlashcardsPage.jsx:806-809 | the study view's 'Reset' button hides the answer and changes nothing else |
| Flashcards.FlashcardsPage.StartStudyMode | frontend/src/pages/FlashcardsPage.jsx:159-163 | study mode from the first card, answer hidden; the empty-deck screen shows exactly when the list is empty |
| Flashcards.FlashcardsPage.EndStudyMode | frontend/src/pages/FlashcardsPage.jsx:165-168 | study mode and the session end, and the list falls back to the filtered library |
| Flashcards.FlashcardsPage.HandleViewDeck | frontend/src/pages/FlashcardsPage.jsx:170-174 | the deck is selected and the card tab shown |
| Flashcards.FlashcardsPage.HandleStudyDeck | frontend/src/pages/FlashcardsPage.jsx:176-182 | the deck is studied from its first card, and outside a session every studied card is in it |
| Flashcards.FlashcardsPage.SetSearchQuery | frontend/src/pages/FlashcardsPage.jsx:481 | only the query changes |
| Flashcards.FlashcardsPage.SetCreateDialogOpen | frontend/src/pages/FlashcardsPage.jsx:352 | only the dialog flag changes |
| Flashcards.FlashcardsPage.EditDraft | frontend/src/pages/FlashcardsPage.jsx:382-404 | only the draft's front, back and deck change |
| Flashcards.FlashcardsPage.SetCurrentTag | frontend/src/pages/FlashcardsPage.jsx:417 | only the tag field changes |
| Flashcards.FlashcardsPage.HandleAddTag | frontend/src/pages/FlashcardsPage.jsx:263-271 | the draft's tags and the tag field follow the tag-entry rule; nothing else changes |
| Flashcards.FlashcardsPage.HandleRemoveTag | frontend/src/pages/FlashcardsPage.jsx:273-278 | every copy of the tag leaves the draft |
| Flashcards.FlashcardsPage.HandleCreateFlashcard | frontend/src/pages/FlashcardsPage.jsx:232-261 | without front, back or deck nothing changes; otherwise the card is appended to storage and to the page, its deck row is bumped or added, and the dialog is reset and closed |
| Flashcards.FlashcardsPage.ExportToAnki | frontend/src/pages/FlashcardsPage.jsx:208-230 | the export text and the file name for the selected deck |
| Search.RecordSearchSpec | frontend/src/pages/SearchPage.jsx:96-106 | the query comes first and occurs once, at most five entries are kept, the others keep their order, a history under five entries loses nothing, and a duplicate-free history stays so |
| Search.RecordSearchTwice | frontend/src/pages/SearchPage.jsx:99-102 | recording the same query again changes nothing |
| Search.AllTagsSpec | frontend/src/pages/SearchPage.jsx:109-112 | the tag list has no repeats and holds exactly the tags of some note or card |
| Search.NoteResultsSpec | frontend/src/pages/SearchPage.jsx:147-184 | exactly the matching notes are results, in the order of the notes and as often as they occur there; with notes switched off there are none |
| Search.CardResultsSpec | frontend/src/pages/SearchPage.jsx:187-226 | exactly the matching cards are results, in the order of the cards and as often as they occur there, each titled by its front and summarised by its back; with cards switched off there are none |
| Search.SearchOrder | frontend/src/pages/SearchPage.jsx:143-238 | every tab shows its notes and its cards in the order of the data, each matching one as often as it occurs; 'Notes' shows no card and 'Flashcards' no note |
| Search.SearchSpec | frontend/src/pages/SearchPage.jsx:143-238 | every result matches; the 'Notes' tab shows only notes and the 'Flashcards' tab only cards; notes come before cards; every match of the tab is shown; a kind that is switched off never appears |
| Search.TabChangeKeepsOldTab | frontend/src/pages/SearchPage.jsx:254-259 | a search that finds one note on the 'All' tab finds nothing on 'Flashcards', so a handler searching under the old tab shows the wrong results |
| Search.SearchPage.constructor | frontend/src/pages/SearchPage.jsx:51-64 | the initial state of every hook |
| Search.SearchPage.Mount | frontend/src/pages/SearchPage.jsx:67-94 | history, notes and raw cards are read; coming back from a result restores query, tab and selected tags and re-runs the search effect |
| Search.SearchPage.SetSearchQuery | frontend/src/pages/SearchPage.jsx:88-94 | a new query refreshes the results (none for a blank query); the same query changes nothing |
| Search.SearchPage.UpdateRecentSearches | frontend/src/pages/SearchPage.jsx:96-106 | a query that is not blank is recorded and the history written to storage; a blank query changes nothing |
| Search.SearchPage.SetFilterDialogOpen | frontend/src/pages/SearchPage.jsx:114-120 | only the dialog flag changes |
| Search.SearchPage.HandleFilterApply | frontend/src/pages/SearchPage.jsx:122-125 | the dialog closes and the results become the search of the current state, even for a blank query |
| Search.SearchPage.SetKindFilters | frontend/src/pages/SearchPage.jsx:550-559 | only the two kind switches change |
| Search.SearchPage.HandleDateRangeChange | frontend/src/pages/SearchPage.jsx:136-141 | only the date range changes |
| Search.SearchPage.HandleTagFilterChange | frontend/src/pages/SearchPage.jsx:127-134 | the tag is toggled in the filter tags and no other tag changes |
| Search.SearchPage.HandleTagClick | frontend/src/pages/SearchPage.jsx:240-246 | the tag is toggled in the selected tags and the search effect runs |
| Search.SearchPage.HandleClearSearch | frontend/src/pages/SearchPage.jsx:248-252 | query, selected tags and results are emptied, which is what the effect would leave |
| Search.SearchPage.HandleTabChange | frontend/src/pages/SearchPage.jsx:254-259 | as written: the tab changes, but for a query that is not blank the results are searched under the old tab |
| Search.SearchPage.HandleTabChangeCorrected | frontend/src/pages/SearchPage.jsx:228-235 | the results are those of the new tab: only notes on 'Notes', only cards on 'Flashcards' |
| Search.SearchPage.HandleSearchSubmit | frontend/src/pages/SearchPage.jsx:286-291 | Enter on a query that is not blank searches and records the query; anything else changes nothing |
| Search.SearchPage.HandleResultClick | frontend/src/pages/SearchPage.jsx:261-284 | a query that is not blank is recorded, and navigation goes to the note or card with the state that restores the page |
| Search.SearchPage.HandleClearHistory | frontend/src/pages/SearchPage.jsx:293-296 | the history is emptied and its key removed from storage |
| NoteDialog.SaveDataSpec | frontend/src/components/NewNoteDialog.jsx:104-117 | a draft is saved exactly when neither title nor content is blank; both come trimmed, tags and date are as given, it is recent, and an empty summary becomes the content's first 150 characters plus "..." |
| NoteDialog.TypedTagIsLost | frontend/src/components/NewNoteDialog.jsx:31-38 | adding through the always-empty `currentTag` leaves the tags unchanged, while the typed text would have been added |
| NoteDialog.NewNoteDialog.constructor | frontend/src/components/NewNoteDialog.jsx:23-29 | every field starts empty |
| NoteDialog.NewNoteDialog.Edit | frontend/src/components/NewNoteDialog.jsx:169-202 | only title, content and tag field change |
| NoteDialog.NewNoteDialog.HandleAddTag | frontend/src/components/NewNoteDialog.jsx:31-38 | as written: the tag-entry rule applied to `currentTag`, which changes nothing |
| NoteDialog.NewNoteDialog.HandleTagKeyPress | frontend/src/components/NewNoteDialog.jsx:53-58 | Enter calls the add handler, so the dialog is unchanged |
| NoteDialog.NewNoteDialog.HandleAddTypedTag | frontend/src/components/NewNoteDialog.jsx:199-203 | the tag-entry rule applied to the tag field: a new non-blank tag is appended and the field cleared |
| NoteDialog.NewNoteDialog.HandleRemoveTag | frontend/src/components/NewNoteDialog.jsx:40-44 | every copy of the tag goes and the others keep their order |
| NoteDialog.NewNoteDialog.HandleClose | frontend/src/components/NewNoteDialog.jsx:124-133 | every field is emptied and the parent is told to close |
| NoteDialog.NewNoteDialog.HandleSave | frontend/src/components/NewNoteDialog.jsx:104-122 | with a title and content that are not blank the draft is handed over and the dialog reset and closed; otherwise nothing happens |
| Notes.DateOrderConsistent | frontend/src/pages/NotesPage.jsx:139 | the date comparison, with NaN counted as 0, answers consistently for swapped notes |
| Notes.DateOrderPreorder | frontend/src/pages/NotesPage.jsx:139 | when every date parses, the date comparison is a total preorder, so same-date notes keep their order |
| Notes.DateOrderNotTransitive | frontend/src/pages/NotesPage.jsx:139 | an unparsable date ties with every note, so the comparison is not transitive and ECMA-262 leaves the order to the engine |
| Notes.FilterNotes | frontend/src/pages/NotesPage.jsx:128-149 | the list holds exactly the notes of the tab (only the recent ones on 'Recent'), as often as they occur; it is newest first for 'recent', in title order for 'title' when `localeCompare` answers consistently for swapped titles, and unsorted otherwise; under a total-preorder comparison, notes that tie keep their order |
| Notes.WithCreatedSpec | frontend/src/pages/NotesPage.jsx:153-160 | one note is put in front with id n+1, the draft's text, tags and date and the content's preview as summary; the old notes follow and the ids stay 1..n+1 |
| Notes.WithImportedSpec | frontend/src/pages/NotesPage.jsx:162-177 | k files give k notes in front, in file order, with ids n+1..n+k, the file name as title, the upper-cased type as tag, today's date, marked recent; the old notes follow and the ids stay 1..n+k |
| Notes.NotesPage.constructor | frontend/src/pages/NotesPage.jsx:41-48 | grid view, first tab, sorted by date, dialogs closed, the sample notes |
| Notes.NotesPage.HandleSortChange | frontend/src/pages/NotesPage.jsx:115-118 | only the sort key changes |
| Notes.NotesPage.HandleTabChange | frontend/src/pages/NotesPage.jsx:120-122 | only the tab changes |
| Notes.NotesPage.HandleViewChange | frontend/src/pages/NotesPage.jsx:124-126 | only the view mode changes |
| Notes.NotesPage.SetDialogsOpen | frontend/src/pages/NotesPage.jsx:187-199 | only the two dialog flags change |
| Notes.NotesPage.HandleCreateNote | frontend/src/pages/NotesPage.jsx:153-160 | the created note is put in front, and the ids stay 1..n |
| Notes.NotesPage.HandleImportFiles | frontend/src/pages/NotesPage.jsx:162-177 | the imported notes are put in front, and the ids stay 1..n |
| Dashboard.DistinctCardKeys | frontend/src/pages/Dashboard.jsx:36-44 | the loop collects the cards' content keys without repeats, in order of first occurrence |
| Dashboard.DistinctNoteTags | frontend/src/pages/Dashboard.jsx:47-51 | the nested loop collects the notes' tags without repeats; an untagged note adds none |
| Dashboard.StatsSpec | frontend/src/pages/Dashboard.jsx:54-59 | the counts are the stored notes, the distinct note tags and the distinct card keys; the last is at most the stored cards and equals the flashcards page's 'All Decks' count |
| Dashboard.RecentNotesSpec | frontend/src/pages/Dashboard.jsx:61-67 | the list holds the first min(4, n) notes in order, with id, title, date and tags, `[]` for an untagged note; later notes never matter |
| Dashboard.DashboardPage.constructor | frontend/src/pages/Dashboard.jsx:26-28 | everything starts empty |
| Dashboard.DashboardPage.Mount | frontend/src/pages/Dashboard.jsx:30-52 | the stored notes, the distinct card keys and the distinct note tags are set; storage is only read |

## Left out

- The backend is not part of this model: its summary, tag and flashcard
  generation calls a language model over the network.
- JSON text is not modelled. Each storage key holds the parsed value its
  readers expect, and a malformed stored string (where `JSON.parse` throws)
  is not modelled.
- The `smart_notes_updated` events of storage.js are left out. They are
  notifications with no state.
- `Date.now()`, `Math.random()`, `new Date()` and `toLocaleDateString` are
  parameters, because they depend on the clock and the locale:
  - ids are given to the handlers;
  - today's date comes as a formatted string;
  - the date-range test of the search filter is a function;
  - date parsing for the 'recent' sort is a function.
- `toLowerCase`, `toUpperCase` and `localeCompare` are uninterpreted
  parameters. They use Unicode tables and locale data.
- `Array.prototype.sort` is modelled on values, as a stable insertion sort
  that returns a new list. NotesPage sorts its own copy in place, so nobody
  sees the aliasing. ECMA-262 fixes the order only for a consistent
  comparator: one whose signs agree for swapped arguments and that is
  transitive. For any other comparison function the engine's order is
  implementation-defined, and the model promises only a permutation, plus
  an order wherever the signs agree for swapped arguments. The date order
  with an unparsable date is such a case (`Notes.DateOrderNotTransitive`).
- `Object.keys(deckMap)` is taken in insertion order. JavaScript lists
  integer-like keys first, but the following sort by name makes that
  visible only for names that `localeCompare` calls equal.
- These are not modelled, because nothing renders or reads them: the
  `cards` field of a deck row, `viewingDeck`, the menu anchor elements,
  `viewMode`'s layout and every JSX element.
- `generateTagsAndSummary` and `isLoading` in the new-note dialog are left
  out. They are network calls to the backend.
- File processing in the import dialog (PDF and image text) is left out.
  The notes page receives the processed `{ name, content, type }`.
- The text of the six sample notes is not reproduced. The notes page's
  constructor takes them as a parameter, and the model requires their ids
  to be 1..n, as they are. Sample and imported notes have no `content`.
  The model writes it as "".
- Navigation (`navigate`) is returned as a `Destination` value. Router
  state with missing fields (the `|| ''` defaults) is not modelled.
- React batching and rendering are not modelled. Each handler is one
  atomic update, and the effect it triggers is folded into it.
- `handleKeyPress` in the new-note dialog is never attached to an element.
  It is identical to `handleTagKeyPress`, and only that one is modelled.
- Notes.FilterNotes: the title order is proved sorted only for a
  `localeCompare` that answers consistently for swapped arguments.
- CardLibrary.LibraryDecksSpec: the deck rows are proved sorted only for a
  `localeCompare` that answers consistently for swapped arguments.
- Text.Preview: lengths and indices count Unicode scalar values (Dafny
  `char`s), while JavaScript's `substring` and `length` count UTF-16 code
  units. Text outside the Basic Multilingual Plane is therefore cut at a
  different place, and the source can cut a surrogate pair in half. The
  same holds for every other length and slice of text in the model.
- Rendering is not modelled, and with it the list view of the notes page:
  NotesPage.jsx:413 uses `<Avatar>`, which the file does not import, so
  that view throws when it renders. `Notes.NotesPage.HandleViewChange`
  models only the change of `viewMode`.
- Flashcards.FlashcardsPage.Mount: the mount loads the library with the
  corrected loop, `CardLibrary.BuildLibrary`. In the source the mount
  effect throws a `TypeError` for a stored card with a new key whose deck
  is named after an `Object.prototype` property (the second row of the
  Findings table); it then sets neither the cards nor the decks. That
  failure is modelled only by `CardLibrary.BuildLibraryAsWritten`, and the
  model does not promise what the page shows after it.
- CardLibrary.AnkiExportSpec: the round trip is stated only for cards
  whose fields hold no tab or newline. Other cards give a file that does
  not split back, which is the source's behaviour.

These are modelled as the code has them:

- `performSearch` filters by `filterOptions.tags` and not by
  `selectedTags`.
- `handleTagClick` is attached to no element.
- `handleFilterApply` searches even for a blank query.
- NotesPage replaces a saved summary with the content's preview.
- A card has no `date`, so any named date range hides every card.
- A deck named "all" is counted into the 'All Decks' row when a card is
  created.

## Findings

| source | as written | input that shows it | evidently intended | confidence | as-written member | corrected member |
|---|---|---|---|---|---|---|
| frontend/src/components/NewNoteDialog.jsx:31-38 | `handleAddTag` adds `currentTag.trim()`, but the tag field writes `tagInput` (line 202) and `currentTag` is only ever set to '' | type "physics" in the tag field and press Enter: the tags stay `[]` | add the trimmed text of the tag field when it is new, then clear the field | high; not executed | NoteDialog.NewNoteDialog.HandleAddTag, NoteDialog.TypedTagIsLost | NoteDialog.NewNoteDialog.HandleAddTypedTag |
| frontend/src/pages/FlashcardsPage.jsx:97-101 | `deckMap` is a plain `{}`, so `!deckMap[card.deck]` is false for a deck named after an `Object.prototype` property, and `deckMap[card.deck].push(card)` then throws a `TypeError` in the mount effect | one stored card in a deck named "toString" | a deck map without inherited keys (a `Map` or `Object.create(null)`), giving that deck its own row | high; not executed | CardLibrary.BuildLibraryAsWritten, CardLibrary.InheritedDeckNameFails | CardLibrary.BuildLibrary |
| frontend/src/pages/SearchPage.jsx:254-259 | `handleTabChange` calls `performSearch()` right after `setActiveTab`; the closure still holds the old tab, and the search effect (lines 88-94) does not depend on the tab | one note titled "a", no cards, query "a" on the 'All' tab; switch to 'Flashcards': the note is still shown | the results of the new tab | high; not executed | Search.SearchPage.HandleTabChange, Search.TabChangeKeepsOldTab | Search.SearchPage.HandleTabChangeCorrected |
