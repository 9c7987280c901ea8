/** The search page (SearchPage.jsx): a short most-recent-first history of
    queries kept in storage, the tag list of the filter dialog, the search
    over notes and flashcards, and the page's state and event handlers. */
module Search {
  import opened Lists
  import opened Text
  import opened Entities
  import opened Browser
  import opened CardLibrary

  /** How many queries the history keeps. */
  const MAX_RECENT_SEARCHES: nat := 5

  // ---------------------------------------------------------------------
  // History
  // ---------------------------------------------------------------------

  /** The history `updateRecentSearches` makes for a query that is not
      blank: the query in front, then the other entries in their order, cut
      to five. */
  function RecordSearch(recent: seq<string>, query: string): seq<string> {
    Take([query] + RemoveAll(recent, query), MAX_RECENT_SEARCHES)
  }

  /** The recorded query comes first and occurs once, the history holds at
      most five entries, the others keep their relative order, and a short
      history loses nothing. */
  lemma RecordSearchSpec(recent: seq<string>, query: string)
    ensures var r := RecordSearch(recent, query);
            1 <= |r| <= MAX_RECENT_SEARCHES && r[0] == query && Count(r, query) == 1
            && IsSubsequence(r[1..], recent)
            && (|recent| < MAX_RECENT_SEARCHES ==> forall x :: x in recent ==> x in r)
            && (NoDuplicates(recent) ==> NoDuplicates(r))
  {
    var others := RemoveAll(recent, query);
    var r := RecordSearch(recent, query);
    var rest := r[1..];
    assert ([query] + others)[1..] == others;
    assert rest <= others;
    PrefixIsSubsequence(rest, others);
    SubsequenceTransitive(rest, others, recent);
    assert query !in rest;
    assert r == [query] + rest;
    assert multiset(r) == multiset{query} + multiset(rest);
    if |recent| < MAX_RECENT_SEARCHES {
      forall x | x in recent ensures x in r {
        if x != query {
          assert Count(others, x) == Count(recent, x);
          assert rest == others;
        }
      }
    }
    if NoDuplicates(recent) {
      RecordSearchDistinct(recent, query);
    }
  }

  /** A history without repeats stays without repeats. */
  lemma RecordSearchDistinct(recent: seq<string>, query: string)
    requires NoDuplicates(recent)
    ensures NoDuplicates(RecordSearch(recent, query))
  {
    var others := RemoveAll(recent, query);
    var r := RecordSearch(recent, query);
    assert r <= [query] + others;
    forall i, j | 0 <= i < j < |r| ensures r[i] != r[j] {
      assert r[j] == others[j - 1];
      if i > 0 {
        assert r[i] == others[i - 1];
      }
    }
  }

  /** Recording the same query again changes nothing. */
  lemma RecordSearchTwice(recent: seq<string>, query: string)
    ensures RecordSearch(RecordSearch(recent, query), query) == RecordSearch(recent, query)
  {
    var r := RecordSearch(recent, query);
    RecordSearchSpec(recent, query);
    var rest := r[1..];
    assert r == [query] + rest;
    assert multiset(r) == multiset{query} + multiset(rest);
    assert query !in rest;
    assert RemoveAll(r, query) == rest by {
      FilterConcat([query], rest, y => y != query);
      assert Filter([query], y => y != query) == [];
      RemoveAllAbsent(rest, query);
    }
  }

  // ---------------------------------------------------------------------
  // Tags and filters
  // ---------------------------------------------------------------------

  /** `allTags`: every tag of the notes and then of the cards, each once. */
  function AllTags(notes: seq<Note>, cards: seq<Card>): seq<string> {
    Dedup(NoteTags(notes) + CardTags(cards))
  }

  /** The tag list has no repeats and holds exactly the tags of some note
      or card; a note without tags contributes none. */
  lemma AllTagsSpec(notes: seq<Note>, cards: seq<Card>)
    ensures NoDuplicates(AllTags(notes, cards))
    ensures forall t :: t in AllTags(notes, cards) <==>
              (exists i :: 0 <= i < |notes| && t in TagsOrEmpty(notes[i]))
              || (exists i :: 0 <= i < |cards| && t in cards[i].tags)
  {
    DedupSpec(NoteTags(notes) + CardTags(cards));
    forall t
      ensures (t in NoteTags(notes) <==> exists i :: 0 <= i < |notes| && t in TagsOrEmpty(notes[i]))
              && (t in CardTags(cards) <==> exists i :: 0 <= i < |cards| && t in cards[i].tags)
    {
      NoteTagsMember(notes, t);
      CardTagsMember(cards, t);
    }
  }

  /** The options of the filter dialog. */
  datatype FilterOptions = FilterOptions(notes: bool, flashcards: bool, tags: seq<string>, dateRange: string)

  const DEFAULT_FILTERS: FilterOptions := FilterOptions(true, true, [], "all")

  /** The ranges the date filter compares against the clock. */
  const DATE_RANGES: seq<string> := ["today", "week", "month", "year"]

  /** Whether the date text of a note lies in a named range, measured from
      now. It depends on the clock and on `Date` parsing, so the model takes
      it as a parameter. */
  type DateTest = (string, string) -> bool

  /** `filterOptions.tags.every(tag => tags.includes(tag))`. */
  predicate HasAllTags(tags: seq<string>, wanted: seq<string>) {
    forall i :: 0 <= i < |wanted| ==> wanted[i] in tags
  }

  /** The note filter of `performSearch`: notes are searched, the title,
      the content or a tag mentions the query, the note has every filter
      tag (a note without tags has none), and its date is in the range. An
      unknown range lets everything through. */
  predicate NoteMatches(opts: FilterOptions, query: string, loc: Locale, inRange: DateTest, n: Note) {
    opts.notes
    && (Mentions(loc, n.title, query) || Mentions(loc, n.content, query)
        || (n.tags.Some? && AnyTagMentions(loc, n.tags.value, query)))
    && (|opts.tags| == 0 || (n.tags.Some? && HasAllTags(n.tags.value, opts.tags)))
    && (opts.dateRange == "all" || opts.dateRange !in DATE_RANGES || inRange(n.date, opts.dateRange))
  }

  /** The card filter of `performSearch`. A card has no date, so
      `new Date(card.date)` is an invalid date: it is never today and every
      comparison with it is false, and a known range other than 'all' lets
      no card through. */
  predicate CardMatches(opts: FilterOptions, query: string, loc: Locale, c: Card) {
    opts.flashcards
    && (Mentions(loc, c.front, query) || Mentions(loc, c.back, query) || AnyTagMentions(loc, c.tags, query))
    && (|opts.tags| == 0 || HasAllTags(c.tags, opts.tags))
    && (opts.dateRange == "all" || opts.dateRange !in DATE_RANGES)
  }

  // ---------------------------------------------------------------------
  // Results
  // ---------------------------------------------------------------------

  /** A result: a note (`type: 'note'`), or a card (`type: 'flashcard'`)
      shown with its front as title and its back as summary. */
  datatype SearchHit = NoteHit(note: Note) | CardHit(card: Card, title: string, summary: string)

  function NoteResults(notes: seq<Note>, opts: FilterOptions, query: string, loc: Locale, inRange: DateTest): seq<SearchHit> {
    var kept := Filter(notes, (n: Note) => NoteMatches(opts, query, loc, inRange, n));
    seq(|kept|, i requires 0 <= i < |kept| => NoteHit(kept[i]))
  }

  function CardResults(cards: seq<Card>, opts: FilterOptions, query: string, loc: Locale): seq<SearchHit> {
    var kept := Filter(cards, (c: Card) => CardMatches(opts, query, loc, c));
    seq(|kept|, i requires 0 <= i < |kept| => CardHit(kept[i], kept[i].front, kept[i].back))
  }

  /** The notes of the note hits, in order. */
  function HitNotes(r: seq<SearchHit>): seq<Note> {
    if r == [] then [] else (if r[0].NoteHit? then [r[0].note] else []) + HitNotes(r[1..])
  }

  /** The cards of the card hits, in order. */
  function HitCards(r: seq<SearchHit>): seq<Card> {
    if r == [] then [] else (if r[0].CardHit? then [r[0].card] else []) + HitCards(r[1..])
  }

  lemma {:induction false} HitsConcat(a: seq<SearchHit>, b: seq<SearchHit>)
    ensures HitNotes(a + b) == HitNotes(a) + HitNotes(b)
    ensures HitCards(a + b) == HitCards(a) + HitCards(b)
  {
    if a != [] {
      assert (a + b)[1..] == a[1..] + b;
      HitsConcat(a[1..], b);
    } else {
      assert a + b == b;
    }
  }

  lemma {:induction false} NoteHitsOf(kept: seq<Note>, r: seq<SearchHit>)
    requires |r| == |kept| && forall i :: 0 <= i < |r| ==> r[i] == NoteHit(kept[i])
    ensures HitNotes(r) == kept && HitCards(r) == []
  {
    if r != [] {
      NoteHitsOf(kept[1..], r[1..]);
    }
  }

  lemma {:induction false} CardHitsOf(kept: seq<Card>, r: seq<SearchHit>)
    requires |r| == |kept| && forall i :: 0 <= i < |r| ==> r[i] == CardHit(kept[i], kept[i].front, kept[i].back)
    ensures HitCards(r) == kept && HitNotes(r) == []
  {
    if r != [] {
      CardHitsOf(kept[1..], r[1..]);
    }
  }

  lemma NoteResultsOrder(notes: seq<Note>, opts: FilterOptions, query: string, loc: Locale, inRange: DateTest)
    ensures var r := NoteResults(notes, opts, query, loc, inRange);
            IsSubsequence(HitNotes(r), notes)
            && (forall n :: Count(HitNotes(r), n) == if NoteMatches(opts, query, loc, inRange, n) then Count(notes, n) else 0)
            && HitCards(r) == []
  {
    var p := (n: Note) => NoteMatches(opts, query, loc, inRange, n);
    NoteHitsOf(Filter(notes, p), NoteResults(notes, opts, query, loc, inRange));
    FilterIsSubsequence(notes, p);
    forall n ensures Count(Filter(notes, p), n) == if p(n) then Count(notes, n) else 0 {
      FilterCount(notes, p, n);
    }
  }

  lemma CardResultsOrder(cards: seq<Card>, opts: FilterOptions, query: string, loc: Locale)
    ensures var r := CardResults(cards, opts, query, loc);
            IsSubsequence(HitCards(r), cards)
            && (forall c :: Count(HitCards(r), c) == if CardMatches(opts, query, loc, c) then Count(cards, c) else 0)
            && HitNotes(r) == []
  {
    var p := (c: Card) => CardMatches(opts, query, loc, c);
    CardHitsOf(Filter(cards, p), CardResults(cards, opts, query, loc));
    FilterIsSubsequence(cards, p);
    forall c ensures Count(Filter(cards, p), c) == if p(c) then Count(cards, c) else 0 {
      FilterCount(cards, p, c);
    }
  }

  /** The note results are exactly the matching notes; with notes switched
      off there are none. */
  lemma NoteResultsMatch(notes: seq<Note>, opts: FilterOptions, query: string, loc: Locale, inRange: DateTest)
    ensures var r := NoteResults(notes, opts, query, loc, inRange);
            (forall i :: 0 <= i < |r| ==>
               r[i].NoteHit? && r[i].note in notes && NoteMatches(opts, query, loc, inRange, r[i].note))
            && (forall i :: 0 <= i < |notes| && NoteMatches(opts, query, loc, inRange, notes[i]) ==>
                  NoteHit(notes[i]) in r)
            && (!opts.notes ==> r == [])
  {
    var p := (n: Note) => NoteMatches(opts, query, loc, inRange, n);
    var kept := Filter(notes, p);
    var r := NoteResults(notes, opts, query, loc, inRange);
    forall i | 0 <= i < |notes| && p(notes[i]) ensures NoteHit(notes[i]) in r {
      var j :| 0 <= j < |kept| && kept[j] == notes[i];
      assert r[j] == NoteHit(notes[i]);
    }
    if !opts.notes {
      FilterNone(notes, p);
    }
  }

  /** The note results are exactly the matching notes, in the order of the
      notes and as often as they occur there; with notes switched off there
      are none. */
  lemma NoteResultsSpec(notes: seq<Note>, opts: FilterOptions, query: string, loc: Locale, inRange: DateTest)
    ensures var r := NoteResults(notes, opts, query, loc, inRange);
            (forall i :: 0 <= i < |r| ==>
               r[i].NoteHit? && r[i].note in notes && NoteMatches(opts, query, loc, inRange, r[i].note))
            && (forall i :: 0 <= i < |notes| && NoteMatches(opts, query, loc, inRange, notes[i]) ==>
                  NoteHit(notes[i]) in r)
            && IsSubsequence(HitNotes(r), notes)
            && (forall n :: Count(HitNotes(r), n) == if NoteMatches(opts, query, loc, inRange, n) then Count(notes, n) else 0)
            && (!opts.notes ==> r == [])
  {
    NoteResultsMatch(notes, opts, query, loc, inRange);
    NoteResultsOrder(notes, opts, query, loc, inRange);
  }

  /** The card results are exactly the matching cards, each with its front
      as title and its back as summary; with cards switched off there are
      none. */
  lemma CardResultsMatch(cards: seq<Card>, opts: FilterOptions, query: string, loc: Locale)
    ensures var r := CardResults(cards, opts, query, loc);
            (forall i :: 0 <= i < |r| ==>
               r[i].CardHit? && r[i].card in cards && CardMatches(opts, query, loc, r[i].card)
               && r[i].title == r[i].card.front && r[i].summary == r[i].card.back)
            && (forall i :: 0 <= i < |cards| && CardMatches(opts, query, loc, cards[i]) ==>
                  CardHit(cards[i], cards[i].front, cards[i].back) in r)
            && (!opts.flashcards ==> r == [])
  {
    var p := (c: Card) => CardMatches(opts, query, loc, c);
    var kept := Filter(cards, p);
    var r := CardResults(cards, opts, query, loc);
    forall i | 0 <= i < |cards| && p(cards[i]) ensures CardHit(cards[i], cards[i].front, cards[i].back) in r {
      var j :| 0 <= j < |kept| && kept[j] == cards[i];
      assert r[j] == CardHit(cards[i], cards[i].front, cards[i].back);
    }
    if !opts.flashcards {
      FilterNone(cards, p);
    }
  }

  /** The card results are exactly the matching cards, in the order of the
      cards and as often as they occur there, each with its front as title
      and its back as summary; with cards switched off there are none. */
  lemma CardResultsSpec(cards: seq<Card>, opts: FilterOptions, query: string, loc: Locale)
    ensures var r := CardResults(cards, opts, query, loc);
            (forall i :: 0 <= i < |r| ==>
               r[i].CardHit? && r[i].card in cards && CardMatches(opts, query, loc, r[i].card)
               && r[i].title == r[i].card.front && r[i].summary == r[i].card.back)
            && (forall i :: 0 <= i < |cards| && CardMatches(opts, query, loc, cards[i]) ==>
                  CardHit(cards[i], cards[i].front, cards[i].back) in r)
            && IsSubsequence(HitCards(r), cards)
            && (forall c :: Count(HitCards(r), c) == if CardMatches(opts, query, loc, c) then Count(cards, c) else 0)
            && (!opts.flashcards ==> r == [])
  {
    CardResultsMatch(cards, opts, query, loc);
    CardResultsOrder(cards, opts, query, loc);
  }

  /** The tab split: 'Notes', 'Flashcards', or both, notes first. */
  function TabResults(tab: int, noteHits: seq<SearchHit>, cardHits: seq<SearchHit>): seq<SearchHit> {
    if tab == 1 then noteHits else if tab == 2 then cardHits else noteHits + cardHits
  }

  /** `performSearch`. */
  function PerformSearch(notes: seq<Note>, cards: seq<Card>, opts: FilterOptions, query: string, tab: int,
                         loc: Locale, inRange: DateTest): seq<SearchHit> {
    TabResults(tab, NoteResults(notes, opts, query, loc, inRange), CardResults(cards, opts, query, loc))
  }

  /** A result is sound for given data and filters: a matching note, or a
      matching card shown by its front and back. */
  predicate Sound(notes: seq<Note>, cards: seq<Card>, opts: FilterOptions, query: string,
                  loc: Locale, inRange: DateTest, h: SearchHit) {
    match h
    case NoteHit(n) => n in notes && NoteMatches(opts, query, loc, inRange, n)
    case CardHit(c, title, summary) =>
      c in cards && CardMatches(opts, query, loc, c) && title == c.front && summary == c.back
  }

  /** Every result matches the query and carries every filter tag; the
      'Notes' tab shows only notes and the 'Flashcards' tab only cards, the
      other tabs show notes before cards; every matching note and card of a
      tab is shown; a kind switched off in the filters is never shown. */
  lemma SearchSpec(notes: seq<Note>, cards: seq<Card>, opts: FilterOptions, query: string, tab: int,
                   loc: Locale, inRange: DateTest)
    ensures var r := PerformSearch(notes, cards, opts, query, tab, loc, inRange);
            (forall i :: 0 <= i < |r| ==> Sound(notes, cards, opts, query, loc, inRange, r[i]))
            && (tab == 1 ==> forall i :: 0 <= i < |r| ==> r[i].NoteHit?)
            && (tab == 2 ==> forall i :: 0 <= i < |r| ==> r[i].CardHit?)
            && (forall i, j :: 0 <= i < j < |r| && r[i].CardHit? ==> r[j].CardHit?)
            && (tab != 2 ==> forall i :: 0 <= i < |notes| && NoteMatches(opts, query, loc, inRange, notes[i]) ==>
                               NoteHit(notes[i]) in r)
            && (tab != 1 ==> forall i :: 0 <= i < |cards| && CardMatches(opts, query, loc, cards[i]) ==>
                               CardHit(cards[i], cards[i].front, cards[i].back) in r)
            && (!opts.notes ==> forall i :: 0 <= i < |r| ==> r[i].CardHit?)
            && (!opts.flashcards ==> forall i :: 0 <= i < |r| ==> r[i].NoteHit?)
  {
    var nr := NoteResults(notes, opts, query, loc, inRange);
    var cr := CardResults(cards, opts, query, loc);
    NoteResultsMatch(notes, opts, query, loc, inRange);
    CardResultsMatch(cards, opts, query, loc);
    var r := PerformSearch(notes, cards, opts, query, tab, loc, inRange);
    assert forall i :: 0 <= i < |nr| ==> Sound(notes, cards, opts, query, loc, inRange, nr[i]);
    assert forall i :: 0 <= i < |cr| ==> Sound(notes, cards, opts, query, loc, inRange, cr[i]);
    if tab != 1 && tab != 2 {
      NotesThenCards(notes, cards, opts, query, loc, inRange, nr, cr);
    }
  }

  /** Each tab shows its kinds of result in the order of the data and as
      often as they occur there: on any tab but 'Flashcards' the notes of
      the results are the matching notes, on any tab but 'Notes' the cards
      are the matching cards, and a tab shows nothing of the other kind. */
  lemma SearchOrder(notes: seq<Note>, cards: seq<Card>, opts: FilterOptions, query: string, tab: int,
                    loc: Locale, inRange: DateTest)
    ensures var r := PerformSearch(notes, cards, opts, query, tab, loc, inRange);
            (tab != 2 ==> IsSubsequence(HitNotes(r), notes)
                          && forall n :: Count(HitNotes(r), n) == if NoteMatches(opts, query, loc, inRange, n) then Count(notes, n) else 0)
            && (tab != 1 ==> IsSubsequence(HitCards(r), cards)
                             && forall c :: Count(HitCards(r), c) == if CardMatches(opts, query, loc, c) then Count(cards, c) else 0)
            && (tab == 1 ==> HitCards(r) == [])
            && (tab == 2 ==> HitNotes(r) == [])
  {
    var nr := NoteResults(notes, opts, query, loc, inRange);
    var cr := CardResults(cards, opts, query, loc);
    NoteResultsOrder(notes, opts, query, loc, inRange);
    CardResultsOrder(cards, opts, query, loc);
    if tab != 1 && tab != 2 {
      HitsConcat(nr, cr);
      assert HitNotes(nr + cr) == HitNotes(nr) && HitCards(nr + cr) == HitCards(cr);
    }
  }

  /** Sound note hits followed by sound card hits are sound, with every
      note before every card. */
  lemma NotesThenCards(notes: seq<Note>, cards: seq<Card>, opts: FilterOptions, query: string,
                       loc: Locale, inRange: DateTest, nr: seq<SearchHit>, cr: seq<SearchHit>)
    requires forall i :: 0 <= i < |nr| ==> nr[i].NoteHit? && Sound(notes, cards, opts, query, loc, inRange, nr[i])
    requires forall i :: 0 <= i < |cr| ==> cr[i].CardHit? && Sound(notes, cards, opts, query, loc, inRange, cr[i])
    ensures forall i :: 0 <= i < |nr + cr| ==> Sound(notes, cards, opts, query, loc, inRange, (nr + cr)[i])
    ensures forall i, j :: 0 <= i < j < |nr + cr| && (nr + cr)[i].CardHit? ==> (nr + cr)[j].CardHit?
  {
    var r := nr + cr;
    forall i | 0 <= i < |r| ensures Sound(notes, cards, opts, query, loc, inRange, r[i]) {
      if i < |nr| {
        assert r[i] == nr[i];
      } else {
        assert r[i] == cr[i - |nr|];
      }
    }
    forall i, j | 0 <= i < j < |r| && r[i].CardHit? ensures r[j].CardHit? {
      assert i >= |nr| && r[j] == cr[j - |nr|];
    }
  }

  /** The results after switching from one tab to another, when the query
      is not blank, as `handleTabChange` computes them: `performSearch` runs
      inside the same handler as `setActiveTab`, so it still sees the old
      tab, and the search effect does not depend on the tab. */
  lemma TabChangeKeepsOldTab()
    ensures var loc := Locale(s => s, s => s, (a, b) => 0);
            var n := Note(1, "a", "", "", "", None, false);
            var inRange: DateTest := (d, r) => true;
            PerformSearch([n], [], DEFAULT_FILTERS, "a", 0, loc, inRange) == [NoteHit(n)]
            && PerformSearch([n], [], DEFAULT_FILTERS, "a", 2, loc, inRange) == []
  {
    var loc := Locale(s => s, s => s, (a, b) => 0);
    var n := Note(1, "a", "", "", "", None, false);
    var inRange: DateTest := (d, r) => true;
    assert Mentions(loc, n.title, "a") by {
      assert OccursAt("a", "a", 0);
    }
    assert Filter([n], (x: Note) => NoteMatches(DEFAULT_FILTERS, "a", loc, inRange, x)) == [n];
  }

  // ---------------------------------------------------------------------
  // The page
  // ---------------------------------------------------------------------

  /** The router state a result view hands back to the search page. */
  datatype NavState = NavState(fromSearch: bool, searchQuery: string, activeTab: int, selectedTags: seq<string>)

  /** Where a click on a result navigates: `/notes/<id>` or
      `/flashcards/<id>`, with the state to come back to. */
  datatype Destination = NoteView(noteId: int, back: NavState) | CardView(cardId: real, back: NavState)

  /** Everything the page holds in `useState`, as one value. */
  datatype SearchState = SearchState(
    searchQuery: string, activeTab: int, selectedTags: seq<string>, searchResults: seq<SearchHit>,
    recentSearches: seq<string>, notes: seq<Note>, flashcards: seq<Card>,
    filterDialogOpen: bool, filterOptions: FilterOptions)

  class SearchPage {
    const ls: LocalStorage
    const loc: Locale
    const inRange: DateTest

    var searchQuery: string
    var activeTab: int
    var selectedTags: seq<string>
    var searchResults: seq<SearchHit>
    var recentSearches: seq<string>
    var notes: seq<Note>
    var flashcards: seq<Card>
    var filterDialogOpen: bool
    var filterOptions: FilterOptions

    /** The filter tags never repeat. */
    ghost predicate Valid()
      reads this, ls
    {
      ls.Valid() && NoDuplicates(filterOptions.tags)
    }

    function State(): SearchState
      reads this
    {
      SearchState(searchQuery, activeTab, selectedTags, searchResults, recentSearches, notes,
                  flashcards, filterDialogOpen, filterOptions)
    }

    /** What `performSearch` computes from the current state. */
    function Results(): seq<SearchHit>
      reads this
    {
      PerformSearch(notes, flashcards, filterOptions, searchQuery, activeTab, loc, inRange)
    }

    /** What the effect on the query and the selected tags leaves in
        `searchResults`: the search for a query that is not blank, nothing
        otherwise. */
    function Refreshed(): seq<SearchHit>
      reads this
    {
      if Trim(searchQuery) != "" then Results() else []
    }

    /** `allTags`, shown in the filter dialog. */
    function Tags(): seq<string>
      reads this
    {
      AllTags(notes, flashcards)
    }

    constructor(ls: LocalStorage, loc: Locale, inRange: DateTest)
      requires ls.Valid()
      ensures this.ls == ls && this.loc == loc && this.inRange == inRange && Valid()
      ensures State() == SearchState("", 0, [], [], [], [], [], false, DEFAULT_FILTERS)
    {
      this.ls := ls;
      this.loc := loc;
      this.inRange := inRange;
      searchQuery, activeTab, selectedTags, searchResults := "", 0, [], [];
      recentSearches, notes, flashcards := [], [], [];
      filterDialogOpen, filterOptions := false, DEFAULT_FILTERS;
    }

    /** The mount effect: the history, the notes and the raw stored cards
        are read. Coming back from a result view restores the query, the tab
        and the selected tags; the selected tags are a new array, so the
        search effect runs again. */
    method Mount(nav: Option<NavState>)
      requires Valid()
      modifies this
      ensures Valid()
      ensures !(nav.Some? && nav.value.fromSearch) ==>
                State() == old(State()).(recentSearches := StoredStrings(ls.items, RECENT_SEARCHES_KEY),
                                         notes := StoredNotes(ls.items), flashcards := StoredCards(ls.items))
      ensures nav.Some? && nav.value.fromSearch ==>
                State() == old(State()).(recentSearches := StoredStrings(ls.items, RECENT_SEARCHES_KEY),
                                         notes := StoredNotes(ls.items), flashcards := StoredCards(ls.items),
                                         searchQuery := nav.value.searchQuery, activeTab := nav.value.activeTab,
                                         selectedTags := nav.value.selectedTags, searchResults := Refreshed())
    {
      LoadStorage();
      if nav.Some? && nav.value.fromSearch {
        Restore(nav.value);
      }
    }

    /** The first half of the mount effect: what storage holds. */
    method LoadStorage()
      requires Valid()
      modifies this
      ensures Valid()
      ensures State() == old(State()).(recentSearches := StoredStrings(ls.items, RECENT_SEARCHES_KEY),
                                       notes := StoredNotes(ls.items), flashcards := StoredCards(ls.items))
    {
      recentSearches := StoredStrings(ls.items, RECENT_SEARCHES_KEY);
      notes := StoredNotes(ls.items);
      flashcards := StoredCards(ls.items);
    }

    /** The second half, on coming back from a result: the query, the tab
        and the selected tags, after which the search effect runs. */
    method Restore(back: NavState)
      requires Valid()
      modifies this
      ensures Valid()
      ensures State() == old(State()).(searchQuery := back.searchQuery, activeTab := back.activeTab,
                                       selectedTags := back.selectedTags, searchResults := Refreshed())
    {
      searchQuery, activeTab, selectedTags := back.searchQuery, back.activeTab, back.selectedTags;
      searchResults := Refreshed();
    }

    /** The search field's `onChange`, and a click on a recent search. A
        new query makes the search effect run: a blank query clears the
        results. The same query again renders nothing new. */
    method SetSearchQuery(query: string)
      requires Valid()
      modifies this
      ensures Valid()
      ensures query == old(searchQuery) ==> State() == old(State())
      ensures query != old(searchQuery) ==>
                State() == old(State()).(searchQuery := query, searchResults := Refreshed())
      ensures query != old(searchQuery) && Trim(query) == "" ==> searchResults == []
    {
      if query != searchQuery {
        searchQuery := query;
        searchResults := Refreshed();
      }
    }

    /** `updateRecentSearches`: a query that is not blank is recorded and
        the history is written to storage. */
    method UpdateRecentSearches(query: string)
      requires Valid()
      modifies this, ls
      ensures Valid()
      ensures Trim(query) == "" ==> ls.items == old(ls.items) && State() == old(State())
      ensures Trim(query) != "" ==>
                State() == old(State()).(recentSearches := RecordSearch(old(recentSearches), query))
                && ls.items == old(ls.items)[RECENT_SEARCHES_KEY := StringList(recentSearches)]
    {
      if Trim(query) != "" {
        var updated := RecordSearch(recentSearches, query);
        recentSearches := updated;
        ls.SetItem(RECENT_SEARCHES_KEY, StringList(updated));
      }
    }

    /** Opening and closing the filter dialog. */
    method SetFilterDialogOpen(open: bool)
      requires Valid()
      modifies this
      ensures Valid()
      ensures State() == old(State()).(filterDialogOpen := open)
    {
      filterDialogOpen := open;
    }

    /** `handleFilterApply`: closes the dialog and searches, even with a
        blank query. */
    method HandleFilterApply()
      requires Valid()
      modifies this
      ensures Valid()
      ensures State() == old(State()).(filterDialogOpen := false, searchResults := Results())
    {
      filterDialogOpen := false;
      searchResults := Results();
    }

    /** The two check boxes of the filter dialog. */
    method SetKindFilters(notesOn: bool, cardsOn: bool)
      requires Valid()
      modifies this
      ensures Valid()
      ensures State() == old(State()).(filterOptions := old(filterOptions).(notes := notesOn, flashcards := cardsOn))
    {
      filterOptions := filterOptions.(notes := notesOn, flashcards := cardsOn);
    }

    /** `handleDateRangeChange`. */
    method HandleDateRangeChange(range: string)
      requires Valid()
      modifies this
      ensures Valid()
      ensures State() == old(State()).(filterOptions := old(filterOptions).(dateRange := range))
    {
      filterOptions := filterOptions.(dateRange := range);
    }

    /** `handleTagFilterChange`: the tag leaves the filter tags when it is
        there and joins them at the end otherwise; no other tag changes. */
    method HandleTagFilterChange(tag: string)
      requires Valid()
      modifies this
      ensures Valid()
      ensures State() == old(State()).(filterOptions := old(filterOptions).(tags := Toggle(old(filterOptions.tags), tag)))
      ensures tag in filterOptions.tags <==> tag !in old(filterOptions.tags)
      ensures forall t :: t != tag ==> (t in filterOptions.tags <==> t in old(filterOptions.tags))
    {
      filterOptions := filterOptions.(tags := Toggle(filterOptions.tags, tag));
    }

    /** `handleTagClick`: toggles a selected tag, which makes the search
        effect run. */
    method HandleTagClick(tag: string)
      requires Valid()
      modifies this
      ensures Valid()
      ensures State() == old(State()).(selectedTags := Toggle(old(selectedTags), tag), searchResults := Refreshed())
      ensures tag in selectedTags <==> tag !in old(selectedTags)
    {
      selectedTags := Toggle(selectedTags, tag);
      searchResults := Refreshed();
    }

    /** `handleClearSearch`: no query, no selected tags, no results. */
    method HandleClearSearch()
      requires Valid()
      modifies this
      ensures Valid()
      ensures State() == old(State()).(searchQuery := "", selectedTags := [], searchResults := [])
      ensures searchResults == Refreshed()
    {
      searchQuery := "";
      selectedTags := [];
      searchResults := [];
    }

    /** `handleTabChange` as written: the tab changes, but for a query that
        is not blank the results are searched again under the old tab. */
    method HandleTabChange(newValue: int)
      requires Valid()
      modifies this
      ensures Valid()
      ensures State() == old(State()).(activeTab := newValue,
                                       searchResults := if Trim(old(searchQuery)) != "" then old(Results())
                                                        else old(searchResults))
    {
      if Trim(searchQuery) != "" {
        searchResults := Results();
      }
      activeTab := newValue;
    }

    /** The tab change the page evidently intends: for a query that is not
        blank the results are those of the new tab, so the 'Notes' tab shows
        only notes and the 'Flashcards' tab only cards. */
    method HandleTabChangeCorrected(newValue: int)
      requires Valid()
      modifies this
      ensures Valid()
      ensures Trim(searchQuery) != "" ==> State() == old(State()).(activeTab := newValue, searchResults := Results())
      ensures Trim(searchQuery) == "" ==> State() == old(State()).(activeTab := newValue)
      ensures Trim(searchQuery) != "" && newValue == 1 ==> forall i :: 0 <= i < |searchResults| ==> searchResults[i].NoteHit?
      ensures Trim(searchQuery) != "" && newValue == 2 ==> forall i :: 0 <= i < |searchResults| ==> searchResults[i].CardHit?
    {
      activeTab := newValue;
      if Trim(searchQuery) != "" {
        searchResults := Results();
        SearchSpec(notes, flashcards, filterOptions, searchQuery, activeTab, loc, inRange);
      }
    }

    /** `handleSearchSubmit`: Enter on a query that is not blank searches
        and records the query. */
    method HandleSearchSubmit(enter: bool)
      requires Valid()
      modifies this, ls
      ensures Valid()
      ensures !(enter && Trim(old(searchQuery)) != "") ==> ls.items == old(ls.items) && State() == old(State())
      ensures enter && Trim(old(searchQuery)) != "" ==>
                State() == old(State()).(searchResults := old(Results()),
                                         recentSearches := RecordSearch(old(recentSearches), old(searchQuery)))
                && ls.items == old(ls.items)[RECENT_SEARCHES_KEY := StringList(recentSearches)]
    {
      if enter && Trim(searchQuery) != "" {
        searchResults := Results();
        UpdateRecentSearches(searchQuery);
      }
    }

    /** `handleResultClick`: records a query that is not blank and navigates
        to the note or the card, handing over what restores the page when
        the user comes back. */
    method HandleResultClick(result: SearchHit) returns (dest: Destination)
      requires Valid()
      modifies this, ls
      ensures Valid()
      ensures Trim(old(searchQuery)) == "" ==> ls.items == old(ls.items) && State() == old(State())
      ensures Trim(old(searchQuery)) != "" ==>
                State() == old(State()).(recentSearches := RecordSearch(old(recentSearches), old(searchQuery)))
                && ls.items == old(ls.items)[RECENT_SEARCHES_KEY := StringList(recentSearches)]
      ensures dest.back == NavState(true, searchQuery, activeTab, selectedTags)
      ensures result.NoteHit? ==> dest == NoteView(result.note.id, dest.back)
      ensures result.CardHit? ==> dest == CardView(result.card.id, dest.back)
    {
      if Trim(searchQuery) != "" {
        UpdateRecentSearches(searchQuery);
      }
      var back := NavState(true, searchQuery, activeTab, selectedTags);
      match result
      case NoteHit(n) => dest := NoteView(n.id, back);
      case CardHit(c, _, _) => dest := CardView(c.id, back);
    }

    /** `handleClearHistory`: the history is emptied and its key removed. */
    method HandleClearHistory()
      requires Valid()
      modifies this, ls
      ensures Valid()
      ensures State() == old(State()).(recentSearches := [])
      ensures ls.items == old(ls.items) - {RECENT_SEARCHES_KEY}
    {
      recentSearches := [];
      ls.RemoveItem(RECENT_SEARCHES_KEY);
    }
  }
}
