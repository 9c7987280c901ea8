/** The notes page (NotesPage.jsx): the list it shows (a tab filter and a
    sort over a copy of the notes), and the notes it adds from the new-note
    dialog and from imported files. The page keeps its notes in its own
    state, starting from sample notes; it does not read or write storage. */
module Notes {
  import opened Lists
  import opened Text
  import opened Sorting
  import opened Entities

  /** `new Date(text)` as a number of milliseconds, or `None` for a text
      `Date` cannot parse (NaN). Parsing depends on the engine, so the model
      takes it as a parameter. */
  type DateParser = string -> Option<int>

  /** `(a, b) => new Date(b.date) - new Date(a.date)`: newest first. A NaN
      difference counts as 0, as the sort of section 23.1.3.30.2 of
      ECMA-262 (SortCompare) treats it. */
  function DateOrder(parseDate: DateParser): (Note, Note) -> int {
    (a: Note, b: Note) =>
      match (parseDate(b.date), parseDate(a.date))
      case (Some(tb), Some(ta)) => tb - ta
      case _ => 0
  }

  /** `(a, b) => a.title.localeCompare(b.title)`. */
  function TitleOrder(loc: Locale): (Note, Note) -> int {
    (a: Note, b: Note) => loc.compare(a.title, b.title)
  }

  /** The date order answers consistently for swapped notes, whatever the
      dates, so the 'recent' sort is always in order. */
  lemma DateOrderConsistent(parseDate: DateParser)
    ensures Consistent(DateOrder(parseDate))
  {
    var cmp := DateOrder(parseDate);
    forall a: Note, b: Note ensures cmp(a, b) >= 0 ==> cmp(b, a) <= 0 {
      if parseDate(a.date).Some? && parseDate(b.date).Some? {
        assert cmp(b, a) == -cmp(a, b);
      }
    }
  }

  /** When every note's date parses, the date order is a total preorder on
      the notes, so the 'recent' sort keeps notes of the same date in their
      order. */
  lemma DateOrderPreorder(notes: seq<Note>, parseDate: DateParser)
    requires forall n :: n in notes ==> parseDate(n.date).Some?
    ensures TotalPreorderOn(notes, DateOrder(parseDate))
  {
    var cmp := DateOrder(parseDate);
    forall a, b | a in notes && b in notes ensures cmp(a, b) < 0 <==> cmp(b, a) > 0 {
      assert cmp(b, a) == -cmp(a, b);
    }
    forall a, b, c | a in notes && b in notes && c in notes && cmp(a, b) <= 0 && cmp(b, c) <= 0
      ensures cmp(a, c) <= 0
    {
      assert cmp(a, c) == cmp(a, b) + cmp(b, c);
    }
  }

  /** An unparsable date ties with every note, which breaks transitivity:
      two dated notes in the wrong order both tie with an undated one. */
  lemma DateOrderNotTransitive(parseDate: DateParser)
    requires parseDate("2024-01-01") == Some(1) && parseDate("2024-01-02") == Some(2)
    requires parseDate("someday") == None
    ensures !TotalPreorderOn([NoteOn("2024-01-01"), NoteOn("someday"), NoteOn("2024-01-02")], DateOrder(parseDate))
  {
    var older, undated, newer := NoteOn("2024-01-01"), NoteOn("someday"), NoteOn("2024-01-02");
    var cmp := DateOrder(parseDate);
    assert cmp(older, undated) == 0 && cmp(undated, newer) == 0;
    assert cmp(older, newer) == 1;
  }

  /** A note with nothing but a date. */
  function NoteOn(date: string): Note {
    Note(0, "", "", "", date, None, false)
  }

  /** The notes the tab shows: only the recent ones on 'Recent', all of
      them otherwise. */
  function TabNotes(notes: seq<Note>, activeTab: int): seq<Note> {
    if activeTab == 1 then Filter(notes, (n: Note) => n.recent) else notes
  }

  /** `filterNotes`: a copy of the notes, cut down to the recent ones on
      the 'Recent' tab and sorted by date ('recent') or by title ('title');
      any other sort key keeps the order. The result holds exactly the notes
      of the tab, as often as they occur there. */
  method FilterNotes(notes: seq<Note>, activeTab: int, sortBy: string, loc: Locale, parseDate: DateParser)
    returns (filtered: seq<Note>)
    ensures multiset(filtered) == multiset(TabNotes(notes, activeTab))
    ensures forall n :: n in filtered <==> n in notes && (activeTab == 1 ==> n.recent)
    ensures sortBy == "recent" ==> Sorted(filtered, DateOrder(parseDate))
    ensures sortBy == "title" && Consistent(TitleOrder(loc)) ==> Sorted(filtered, TitleOrder(loc))
    ensures sortBy != "recent" && sortBy != "title" ==> filtered == TabNotes(notes, activeTab)
    ensures sortBy == "recent" && TotalPreorderOn(TabNotes(notes, activeTab), DateOrder(parseDate))
            ==> KeepsTieOrder(filtered, TabNotes(notes, activeTab), DateOrder(parseDate))
    ensures sortBy == "title" && TotalPreorderOn(TabNotes(notes, activeTab), TitleOrder(loc))
            ==> KeepsTieOrder(filtered, TabNotes(notes, activeTab), TitleOrder(loc))
  {
    filtered := notes;
    if activeTab == 1 {
      filtered := Filter(filtered, (n: Note) => n.recent);
    }
    ghost var kept := filtered;
    assert forall n :: n in kept <==> n in notes && (activeTab == 1 ==> n.recent);
    if sortBy == "recent" {
      SortPermutes(filtered, DateOrder(parseDate));
      DateOrderConsistent(parseDate);
      SortSorts(filtered, DateOrder(parseDate));
      if TotalPreorderOn(filtered, DateOrder(parseDate)) {
        SortStable(filtered, DateOrder(parseDate));
      }
      filtered := SortBy(filtered, DateOrder(parseDate));
    } else if sortBy == "title" {
      SortPermutes(filtered, TitleOrder(loc));
      if Consistent(TitleOrder(loc)) {
        SortSorts(filtered, TitleOrder(loc));
      }
      if TotalPreorderOn(filtered, TitleOrder(loc)) {
        SortStable(filtered, TitleOrder(loc));
      }
      filtered := SortBy(filtered, TitleOrder(loc));
    }
    assert forall n :: n in filtered <==> n in multiset(kept);
  }

  /** The ids are 1 to the number of notes, each once. The sample notes
      start that way, and every note the page adds keeps it so. */
  ghost predicate IdsOneToN(notes: seq<Note>) {
    (forall i :: 0 <= i < |notes| ==> 1 <= notes[i].id <= |notes|)
    && (forall i, j :: 0 <= i < j < |notes| ==> notes[i].id != notes[j].id)
  }

  /** `handleCreateNote`: the draft with id `notes.length + 1` and the
      preview of its content as summary (a generated summary is replaced),
      put in front. */
  function WithCreated(notes: seq<Note>, draft: NoteDraft): seq<Note> {
    [Note(|notes| + 1, draft.title, draft.content, Preview(draft.content), draft.date, Some(draft.tags), draft.recent)]
    + notes
  }

  /** Exactly one note is added, in front, with the next id, the draft's
      text, tags and date, and the preview as summary; the others follow
      unchanged and the ids stay 1 to n. */
  lemma WithCreatedSpec(notes: seq<Note>, draft: NoteDraft)
    ensures var r := WithCreated(notes, draft);
            |r| == |notes| + 1 && r[1..] == notes
            && r[0].id == |notes| + 1 && r[0].title == draft.title && r[0].content == draft.content
            && r[0].tags == Some(draft.tags) && r[0].date == draft.date
            && r[0].summary[..|r[0].summary| - 3] <= draft.content && r[0].summary[|r[0].summary| - 3..] == "..."
            && (IdsOneToN(notes) ==> IdsOneToN(r))
  {
    var r := WithCreated(notes, draft);
    if IdsOneToN(notes) {
      forall i, j | 0 <= i < j < |r| ensures r[i].id != r[j].id {
        assert r[j] == notes[j - 1];
        if i > 0 {
          assert r[i] == notes[i - 1];
        }
      }
    }
  }

  /** A file the import dialog hands over. */
  datatype ImportedFile = ImportedFile(name: string, content: string, fileType: string)

  /** The notes `handleImportFiles` makes, in file order: ids after the
      current count, the file name as title, the preview of the text as
      summary, the upper-cased file type as the only tag, marked recent.
      They carry no content, which the model writes as "". */
  function ImportedNotes(count: nat, files: seq<ImportedFile>, date: string, loc: Locale): seq<Note> {
    seq(|files|, i requires 0 <= i < |files| =>
      Note(count + i + 1, files[i].name, "", Preview(files[i].content), date, Some([loc.upper(files[i].fileType)]), true))
  }

  /** `handleImportFiles`: the new notes, then the old ones. */
  function WithImported(notes: seq<Note>, files: seq<ImportedFile>, date: string, loc: Locale): seq<Note> {
    ImportedNotes(|notes|, files, date, loc) + notes
  }

  /** Importing k files puts k notes in front, in file order, with ids
      n + 1 to n + k, the upper-cased type as tag and marked recent; the old
      notes follow unchanged and the ids stay 1 to n + k. */
  lemma WithImportedSpec(notes: seq<Note>, files: seq<ImportedFile>, date: string, loc: Locale)
    ensures var r := WithImported(notes, files, date, loc);
            |r| == |notes| + |files| && r[|files|..] == notes
            && (forall i :: 0 <= i < |files| ==>
                  r[i].id == |notes| + i + 1 && r[i].title == files[i].name
                  && r[i].tags == Some([loc.upper(files[i].fileType)]) && r[i].recent && r[i].date == date)
            && (IdsOneToN(notes) ==> IdsOneToN(r))
  {
    var k := |files|;
    var made := ImportedNotes(|notes|, files, date, loc);
    var r := WithImported(notes, files, date, loc);
    assert r[k..] == notes;
    if IdsOneToN(notes) {
      forall i | 0 <= i < |r| ensures 1 <= r[i].id <= |r| {
        if i >= k {
          assert r[i] == notes[i - k];
        }
      }
      forall i, j | 0 <= i < j < |r| ensures r[i].id != r[j].id {
        if j < k {
          assert r[i] == made[i] && r[j] == made[j];
        } else if i < k {
          assert r[i] == made[i] && r[j] == notes[j - k];
        } else {
          assert r[i] == notes[i - k] && r[j] == notes[j - k];
        }
      }
    }
  }

  /** Everything the page holds in `useState`, except the menu anchors. */
  datatype NotesState = NotesState(viewMode: string, activeTab: int, sortBy: string,
                                   importDialogOpen: bool, newNoteDialogOpen: bool, notes: seq<Note>)

  class NotesPage {
    const loc: Locale

    var viewMode: string
    var activeTab: int
    var sortBy: string
    var importDialogOpen: bool
    var newNoteDialogOpen: bool
    var notes: seq<Note>

    /** The ids are 1 to the number of notes, each once. */
    ghost predicate Valid()
      reads this
    {
      IdsOneToN(notes)
    }

    function State(): NotesState
      reads this
    {
      NotesState(viewMode, activeTab, sortBy, importDialogOpen, newNoteDialogOpen, notes)
    }

    /** The page starts in grid view on 'All Notes', sorted by date, with
        its sample notes. */
    constructor(loc: Locale, samples: seq<Note>)
      requires IdsOneToN(samples)
      ensures this.loc == loc && Valid()
      ensures State() == NotesState("grid", 0, "recent", false, false, samples)
    {
      this.loc := loc;
      viewMode, activeTab, sortBy := "grid", 0, "recent";
      importDialogOpen, newNoteDialogOpen, notes := false, false, samples;
    }

    /** `handleSortChange`: the sort key changes and the menu closes. */
    method HandleSortChange(value: string)
      requires Valid()
      modifies this
      ensures Valid() && State() == old(State()).(sortBy := value)
    {
      sortBy := value;
    }

    /** `handleTabChange`. */
    method HandleTabChange(newValue: int)
      requires Valid()
      modifies this
      ensures Valid() && State() == old(State()).(activeTab := newValue)
    {
      activeTab := newValue;
    }

    /** `handleViewChange`. */
    method HandleViewChange(mode: string)
      requires Valid()
      modifies this
      ensures Valid() && State() == old(State()).(viewMode := mode)
    {
      viewMode := mode;
    }

    /** The Import and New Note buttons, and the dialogs' `onClose`. */
    method SetDialogsOpen(importOpen: bool, newNoteOpen: bool)
      requires Valid()
      modifies this
      ensures Valid() && State() == old(State()).(importDialogOpen := importOpen, newNoteDialogOpen := newNoteOpen)
    {
      importDialogOpen, newNoteDialogOpen := importOpen, newNoteOpen;
    }

    /** `handleCreateNote`, the new-note dialog's `onSave`. */
    method HandleCreateNote(draft: NoteDraft)
      requires Valid()
      modifies this
      ensures Valid() && State() == old(State()).(notes := WithCreated(old(notes), draft))
    {
      WithCreatedSpec(notes, draft);
      notes := WithCreated(notes, draft);
    }

    /** `handleImportFiles`, the import dialog's `onImport`; `date` is
        today's date, formatted. */
    method HandleImportFiles(files: seq<ImportedFile>, date: string)
      requires Valid()
      modifies this
      ensures Valid() && State() == old(State()).(notes := WithImported(old(notes), files, date, loc))
    {
      WithImportedSpec(notes, files, date, loc);
      notes := WithImported(notes, files, date, loc);
    }
  }
}
