/** The flashcards page (FlashcardsPage.jsx): its React state as the fields
    of a class, the mount effect that either opens a study session left by a
    note page or builds the library from storage, and the event handlers. */
module Flashcards {
  import opened Lists
  import opened Text
  import opened Sorting
  import opened Entities
  import opened Browser
  import opened CardLibrary

  /** Everything the page holds in `useState`, as one value. The filter
      menu's anchor element and `viewingDeck`, which nothing reads, are not
      part of it. */
  datatype PageState = PageState(
    activeTab: int, selectedDeck: string, currentCardIndex: int, showAnswer: bool,
    studyMode: bool, decks: seq<Deck>, flashcards: seq<Card>, createDialogOpen: bool,
    session: Option<Session>, newCard: CardDraft, currentTag: string, searchQuery: string)

  /** The draft the create dialog starts from and returns to. */
  const EMPTY_DRAFT: CardDraft := CardDraft("", "", "", [])

  /** The session the mount effect picks up: one is stored and it comes
      from a note. A stored session from elsewhere is ignored and left in
      storage. */
  function PendingSession(items: map<string, Value>): (r: Option<Session>)
    requires WellFormed(items)
    ensures r.Some? <==> SESSION_KEY in items && items[SESSION_KEY].session.source == "note"
    ensures r.Some? ==> items[SESSION_KEY] == SessionValue(r.value)
  {
    if SESSION_KEY in items && items[SESSION_KEY].session.source == "note" then
      Some(items[SESSION_KEY].session)
    else None
  }

  /** `anki_export_${selectedDeck === 'all' ? 'all_decks' : selectedDeck}.txt`. */
  function ExportFileName(selectedDeck: string): (name: string)
    ensures |name| >= 16 && "anki_export_" <= name && name[|name| - 4..] == ".txt"
    ensures name[12..|name| - 4] == if selectedDeck == "all" then "all_decks" else selectedDeck
  {
    var middle := if selectedDeck == "all" then "all_decks" else selectedDeck;
    var name := "anki_export_" + middle + ".txt";
    assert name[12..|name| - 4] == middle;
    name
  }

  /** Two selections export under the same file name exactly when they are
      the same selection, or when one is every deck ('all') and the other a
      deck named "all_decks". */
  lemma ExportFileNameClash(a: string, b: string)
    ensures ExportFileName(a) == ExportFileName(b) <==> a == b || {a, b} == {"all", "all_decks"}
  {
    var na, nb := ExportFileName(a), ExportFileName(b);
    if na == nb {
      assert na[12..|na| - 4] == nb[12..|nb| - 4];
    }
    if {a, b} == {"all", "all_decks"} {
      assert a == "all" || a == "all_decks";
      assert b == "all" || b == "all_decks";
    }
  }

  class FlashcardsPage {
    const ls: LocalStorage
    const loc: Locale

    var activeTab: int
    var selectedDeck: string
    var currentCardIndex: int
    var showAnswer: bool
    var studyMode: bool
    var decks: seq<Deck>
    var flashcards: seq<Card>
    var createDialogOpen: bool
    var session: Option<Session>
    var newCard: CardDraft
    var currentTag: string
    var searchQuery: string

    /** The cursor never goes below zero and the draft's tags never
        repeat. */
    ghost predicate Valid()
      reads this, ls
    {
      ls.Valid() && currentCardIndex >= 0 && NoDuplicates(newCard.tags)
    }

    function State(): PageState
      reads this
    {
      PageState(activeTab, selectedDeck, currentCardIndex, showAnswer, studyMode, decks,
                flashcards, createDialogOpen, session, newCard, currentTag, searchQuery)
    }

    /** `filteredFlashcards`. */
    function Filtered(): seq<Card>
      reads this
    {
      FilteredFlashcards(session, flashcards, selectedDeck, searchQuery, loc)
    }

    /** `filteredDecks`. */
    function FilteredDeckList(): seq<Deck>
      reads this
    {
      FilterDecks(decks, searchQuery, loc)
    }

    /** `currentCard`: `filteredFlashcards[currentCardIndex]`, undefined
        past the end. */
    function CurrentCard(): (c: Option<Card>)
      reads this, ls
      requires Valid()
      ensures c.Some? <==> currentCardIndex < |Filtered()|
      ensures c.Some? ==> c.value == Filtered()[currentCardIndex]
    {
      if currentCardIndex < |Filtered()| then Some(Filtered()[currentCardIndex]) else None
    }

    /** Study mode with nothing to show renders the 'No flashcards
        available in this deck.' screen instead of a card. */
    predicate ShowsEmptyStudy()
      reads this, ls
      requires Valid()
    {
      studyMode && (|Filtered()| == 0 || CurrentCard().None?)
    }

    constructor(ls: LocalStorage, loc: Locale)
      requires ls.Valid()
      ensures this.ls == ls && this.loc == loc && Valid()
      ensures State() == PageState(0, "all", 0, false, false, [], [], false, None, EMPTY_DRAFT, "", "")
    {
      this.ls := ls;
      this.loc := loc;
      activeTab, selectedDeck, currentCardIndex, showAnswer := 0, "all", 0, false;
      studyMode, decks, flashcards, createDialogOpen := false, [], [], false;
      session, newCard, currentTag, searchQuery := None, EMPTY_DRAFT, "", "";
    }

    /** The mount effect. A pending note session becomes the current
        session: study mode starts, its cards are shown and the stored
        session is removed. Otherwise the stored cards are merged and
        grouped into decks, 'All Decks' first and the rest by name; the
        'All Decks' count is the number of kept cards and the other counts
        add up to it. */
    method Mount()
      requires Valid()
      modifies this, ls
      ensures Valid()
      ensures PendingSession(old(ls.items)).Some? ==>
                ls.items == old(ls.items) - {SESSION_KEY}
                && State() == old(State()).(session := PendingSession(old(ls.items)), studyMode := true,
                                            flashcards := PendingSession(old(ls.items)).value.flashcards)
      ensures PendingSession(old(ls.items)).None? ==>
                ls.items == old(ls.items)
                && State() == old(State()).(flashcards := Unique(StoredCards(old(ls.items))),
                                            decks := LibraryDecks(Unique(StoredCards(old(ls.items))), loc))
                && decks[0] == Deck("all", "All Decks", |flashcards|)
                && Sum(decks[1..], DeckCount) == |flashcards|
    {
      var pending := PendingSession(ls.items);
      if pending.Some? {
        session := pending;
        studyMode := true;
        flashcards := pending.value.flashcards;
        ls.RemoveItem(SESSION_KEY);
      } else {
        var cards, rows := BuildLibrary(StoredCards(ls.items));
        LibraryDecksSpec(cards, loc);
        decks := [AllDeck(cards)] + SortBy(rows, NameOrder(loc));
        flashcards := cards;
      }
    }

    /** `handleTabChange`. */
    method HandleTabChange(newValue: int)
      requires Valid()
      modifies this
      ensures Valid()
      ensures State() == old(State()).(activeTab := newValue)
    {
      activeTab := newValue;
    }

    /** `handleNextCard`: hides the answer and moves to the next card,
        wrapping from the last to the first. The button exists only in
        study mode over a non-empty list. The new index is in range. */
    method HandleNextCard()
      requires Valid() && |Filtered()| > 0
      modifies this
      ensures Valid()
      ensures State() == old(State()).(showAnswer := false,
                                       currentCardIndex := NextIndex(old(currentCardIndex), |old(Filtered())|))
      ensures currentCardIndex < |Filtered()| && CurrentCard().Some?
    {
      CursorSpec(currentCardIndex, |Filtered()|);
      showAnswer := false;
      currentCardIndex := NextIndex(currentCardIndex, |Filtered()|);
    }

    /** `handlePrevCard`: hides the answer and moves to the previous card,
        wrapping from the first to the last. The new index is in range. */
    method HandlePrevCard()
      requires Valid() && |Filtered()| > 0
      modifies this
      ensures Valid()
      ensures State() == old(State()).(showAnswer := false,
                                       currentCardIndex := PrevIndex(old(currentCardIndex), |old(Filtered())|))
      ensures currentCardIndex < |Filtered()| && CurrentCard().Some?
    {
      CursorSpec(currentCardIndex, |Filtered()|);
      showAnswer := false;
      currentCardIndex := PrevIndex(currentCardIndex, |Filtered()|);
    }

    /** `toggleAnswer`. */
    method ToggleAnswer()
      requires Valid()
      modifies this
      ensures Valid()
      ensures State() == old(State()).(showAnswer := !old(showAnswer))
    {
      showAnswer := !showAnswer;
    }

    /** The study view's 'Reset' button: the answer is hidden again. */
    method ResetAnswer()
      requires Valid()
      modifies this
      ensures Valid()
      ensures State() == old(State()).(showAnswer := false)
    {
      showAnswer := false;
    }

    /** `startStudyMode`: study from the first card, answer hidden. */
    method StartStudyMode()
      requires Valid()
      modifies this
      ensures Valid()
      ensures State() == old(State()).(studyMode := true, currentCardIndex := 0, showAnswer := false)
      ensures |Filtered()| > 0 <==> !ShowsEmptyStudy()
    {
      studyMode := true;
      currentCardIndex := 0;
      showAnswer := false;
    }

    /** `endStudyMode`: leaves study mode and forgets the note session; the
        session's cards stay in `flashcards`. */
    method EndStudyMode()
      requires Valid()
      modifies this
      ensures Valid()
      ensures State() == old(State()).(studyMode := false, session := None)
      ensures Filtered() == FilterCards(flashcards, selectedDeck, searchQuery, loc)
    {
      studyMode := false;
      session := None;
    }

    /** `handleViewDeck`: select the deck and switch to the card list. */
    method HandleViewDeck(deckId: string)
      requires Valid()
      modifies this
      ensures Valid()
      ensures State() == old(State()).(selectedDeck := deckId, activeTab := 0)
    {
      selectedDeck := deckId;
      activeTab := 0;
    }

    /** `handleStudyDeck`: select the deck and study it from its first
        card. Outside a session, every card studied is in that deck. */
    method HandleStudyDeck(deckId: string)
      requires Valid()
      modifies this
      ensures Valid()
      ensures State() == old(State()).(selectedDeck := deckId, studyMode := true,
                                       currentCardIndex := 0, showAnswer := false)
      ensures session.None? && deckId != "all" ==>
                forall i :: 0 <= i < |Filtered()| ==> Filtered()[i].deck == deckId
    {
      selectedDeck := deckId;
      studyMode := true;
      currentCardIndex := 0;
      showAnswer := false;
    }

    /** The search field's `onChange`. */
    method SetSearchQuery(query: string)
      requires Valid()
      modifies this
      ensures Valid()
      ensures State() == old(State()).(searchQuery := query)
    {
      searchQuery := query;
    }

    /** Opening (the Create button) or closing (Cancel) the dialog. */
    method SetCreateDialogOpen(open: bool)
      requires Valid()
      modifies this
      ensures Valid()
      ensures State() == old(State()).(createDialogOpen := open)
    {
      createDialogOpen := open;
    }

    /** The front, back and deck fields of the dialog. */
    method EditDraft(front: string, back: string, deck: string)
      requires Valid()
      modifies this
      ensures Valid()
      ensures State() == old(State()).(newCard := old(newCard).(front := front, back := back, deck := deck))
    {
      newCard := newCard.(front := front, back := back, deck := deck);
    }

    /** The tag field's `onChange`. */
    method SetCurrentTag(text: string)
      requires Valid()
      modifies this
      ensures Valid()
      ensures State() == old(State()).(currentTag := text)
    {
      currentTag := text;
    }

    /** `handleAddTag`: the trimmed tag joins the draft when it is
        non-empty and new, and the field is cleared; otherwise nothing
        changes. */
    method HandleAddTag()
      requires Valid()
      modifies this
      ensures Valid()
      ensures State() == old(State()).(newCard := old(newCard).(tags := AddDraftTag(old(newCard.tags), old(currentTag)).tags),
                                       currentTag := AddDraftTag(old(newCard.tags), old(currentTag)).typed)
    {
      var entry := AddDraftTag(newCard.tags, currentTag);
      newCard := newCard.(tags := entry.tags);
      currentTag := entry.typed;
    }

    /** `handleRemoveTag`: every copy of the tag leaves the draft. */
    method HandleRemoveTag(tag: string)
      requires Valid()
      modifies this
      ensures Valid()
      ensures State() == old(State()).(newCard := old(newCard).(tags := RemoveAll(old(newCard.tags), tag)))
      ensures tag !in newCard.tags
    {
      newCard := newCard.(tags := RemoveAll(newCard.tags, tag));
    }

    /** `handleCreateFlashcard`. With a front, a back and a deck the card
        gets the id `id` (`Date.now() + Math.random()`), is appended to the
        stored cards and to the page's cards, its deck row gains a card (or
        is added), and the dialog is reset and closed. Otherwise nothing
        happens. The 'All Decks' row is a row like any other here: its
        count does not change unless the deck is called "all". */
    method HandleCreateFlashcard(id: real)
      requires Valid()
      modifies this, ls
      ensures Valid()
      ensures !CanCreate(old(newCard)) ==> ls.items == old(ls.items) && State() == old(State())
      ensures CanCreate(old(newCard)) ==>
                ls.items == old(ls.items)[FLASHCARDS_KEY := CardList(StoredCards(old(ls.items)) + [CardFromDraft(id, old(newCard))])]
                && State() == old(State()).(flashcards := old(flashcards) + [CardFromDraft(id, old(newCard))],
                                            decks := BumpDecks(old(decks), old(newCard.deck)),
                                            newCard := EMPTY_DRAFT, currentTag := "", createDialogOpen := false)
    {
      if CanCreate(newCard) {
        var card := CardFromDraft(id, newCard);
        var existing := StoredCards(ls.items);
        flashcards := flashcards + [card];
        decks := BumpDecks(decks, card.deck);
        newCard := EMPTY_DRAFT;
        currentTag := "";
        createDialogOpen := false;
        ls.SetItem(FLASHCARDS_KEY, CardList(existing + [card]));
      }
    }

    /** `exportToAnki`: the text of the file and its name. The download
        itself is not modelled. */
    method ExportToAnki() returns (content: string, fileName: string)
      requires Valid()
      ensures content == AnkiExport(flashcards, selectedDeck)
      ensures fileName == ExportFileName(selectedDeck)
    {
      content := AnkiExport(flashcards, selectedDeck);
      fileName := ExportFileName(selectedDeck);
    }
  }
}
