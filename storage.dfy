/** The note store of storage.js: notes and the derived tag index kept in
    `localStorage`, rebuilt after every change to the notes. */
module Storage {
  import opened Lists
  import opened Entities
  import opened Browser

  /** The tag index the store keeps: every tag of every note, without
      repeats, in order of first occurrence. */
  function TagIndex(notes: seq<Note>): seq<string> {
    Dedup(NoteTags(notes))
  }

  /** The index has no repeats and holds exactly the tags of the notes;
      untagged notes contribute none. */
  lemma TagIndexSpec(notes: seq<Note>)
    ensures NoDuplicates(TagIndex(notes))
    ensures forall t :: t in TagIndex(notes) <==> exists i :: 0 <= i < |notes| && t in TagsOrEmpty(notes[i])
  {
    DedupSpec(NoteTags(notes));
    forall t ensures t in TagIndex(notes) <==> exists i :: 0 <= i < |notes| && t in TagsOrEmpty(notes[i]) {
      NoteTagsMember(notes, t);
    }
  }

  /** Every note has a `tags` array; otherwise `note.tags.forEach` throws. */
  predicate AllTagged(notes: seq<Note>) {
    forall i :: 0 <= i < |notes| ==> notes[i].tags.Some?
  }

  /** The set-building loop of `updateTagsFromNotes`. It stops with
      `ok == false` at the first note without tags, where the JavaScript
      throws a TypeError. */
  method CollectTags(notes: seq<Note>) returns (tags: seq<string>, ok: bool)
    ensures ok <==> AllTagged(notes)
    ensures ok ==> tags == TagIndex(notes)
  {
    tags := [];
    var i := 0;
    while i < |notes|
      invariant 0 <= i <= |notes|
      invariant forall k :: 0 <= k < i ==> notes[k].tags.Some?
      invariant tags == Dedup(NoteTags(notes[..i]))
    {
      var note := notes[i];
      if note.tags.None? {
        return tags, false;
      }
      tags := AddEach(tags, NoteTags(notes[..i]), note.tags.value);
      NoteStep(notes, i);
      i := i + 1;
    }
    assert notes[..i] == notes;
    ok := true;
  }

  /** The inner `note.tags.forEach(tag => allTags.add(tag))`: adding each
      tag of `ts` to the set built from `seen`. */
  method AddEach(tags: seq<string>, ghost seen: seq<string>, ts: seq<string>) returns (r: seq<string>)
    requires tags == Dedup(seen)
    ensures r == Dedup(seen + ts)
  {
    r := tags;
    var j := 0;
    assert seen + ts[..0] == seen;
    while j < |ts|
      invariant 0 <= j <= |ts|
      invariant r == Dedup(seen + ts[..j])
    {
      AddStep(seen, ts, j);
      r := AddIfAbsent(r, ts[j]);
      j := j + 1;
    }
    assert ts[..j] == ts;
  }

  lemma AddStep(seen: seq<string>, ts: seq<string>, j: nat)
    requires j < |ts|
    ensures Dedup(seen + ts[..j + 1]) == AddIfAbsent(Dedup(seen + ts[..j]), ts[j])
  {
    assert seen + ts[..j + 1] == seen + ts[..j] + [ts[j]];
    DedupSnoc(seen + ts[..j], ts[j]);
  }

  lemma NoteStep(notes: seq<Note>, i: nat)
    requires i < |notes|
    ensures NoteTags(notes[..i + 1]) == NoteTags(notes[..i]) + TagsOrEmpty(notes[i])
  {
    assert notes[..i + 1] == notes[..i] + [notes[i]];
    NoteTagsSnoc(notes[..i], notes[i]);
  }

  /** Some note has the id. */
  predicate HasId(notes: seq<Note>, id: int) {
    exists i :: 0 <= i < |notes| && notes[i].id == id
  }

  /** `notes` with `newNote` put in front (`notes.unshift(newNote)`): the
      new note at index 0, the old notes after it in order. */
  function Unshift(notes: seq<Note>, newNote: Note): (r: seq<Note>)
    ensures |r| == |notes| + 1 && r[0] == newNote && r[1..] == notes
  {
    [newNote] + notes
  }

  /** `k` is the index `findIndex` reports for `id`: the first note with it. */
  predicate IsFirstMatch(notes: seq<Note>, id: int, k: int) {
    0 <= k < |notes| && notes[k].id == id && forall i :: 0 <= i < k ==> notes[i].id != id
  }

  /** What `updateNote` makes of the list: the first note with the id of
      `updated` is replaced by it. */
  function ReplaceFirst(notes: seq<Note>, updated: Note): (r: seq<Note>)
    ensures |r| == |notes|
  {
    if notes == [] then []
    else if notes[0].id == updated.id then [updated] + notes[1..]
    else [notes[0]] + ReplaceFirst(notes[1..], updated)
  }

  /** Without a note of that id nothing changes; otherwise exactly the first
      match is replaced and every other note stays where it was. */
  lemma {:induction false} ReplaceFirstSpec(notes: seq<Note>, updated: Note)
    ensures !HasId(notes, updated.id) ==> ReplaceFirst(notes, updated) == notes
    ensures forall k :: IsFirstMatch(notes, updated.id, k) ==> ReplaceFirst(notes, updated) == notes[k := updated]
  {
    if notes != [] {
      ReplaceFirstSpec(notes[1..], updated);
      if notes[0].id != updated.id {
        forall k | IsFirstMatch(notes, updated.id, k) ensures ReplaceFirst(notes, updated) == notes[k := updated] {
          assert IsFirstMatch(notes[1..], updated.id, k - 1);
          assert notes[k := updated] == [notes[0]] + notes[1..][k - 1 := updated];
        }
        if !HasId(notes, updated.id) {
          forall i | 0 <= i < |notes[1..]| ensures notes[1..][i].id != updated.id {
            assert notes[1..][i] == notes[i + 1];
          }
          assert [notes[0]] + notes[1..] == notes;
        }
      } else {
        assert !IsFirstMatch(notes, updated.id, 0) || notes[0 := updated] == [updated] + notes[1..];
      }
    }
  }

  /** `notes.filter(note => note.id !== noteId)`. */
  function WithoutId(notes: seq<Note>, noteId: int): (r: seq<Note>)
    ensures forall i :: 0 <= i < |r| ==> r[i].id != noteId
    ensures IsSubsequence(r, notes)
    ensures forall n: Note :: n.id != noteId ==> Count(r, n) == Count(notes, n)
  {
    var r := Filter(notes, (n: Note) => n.id != noteId);
    FilterIsSubsequence(notes, (n: Note) => n.id != noteId);
    forall n: Note | n.id != noteId ensures Count(r, n) == Count(notes, n) {
      FilterCount(notes, (n: Note) => n.id != noteId, n);
    }
    r
  }

  /** `notes.findIndex(note => note.id === id)`. */
  method FindIndex(notes: seq<Note>, id: int) returns (index: int)
    ensures index == -1 <==> !HasId(notes, id)
    ensures index != -1 ==> IsFirstMatch(notes, id, index)
  {
    index := 0;
    while index < |notes|
      invariant 0 <= index <= |notes|
      invariant forall i :: 0 <= i < index ==> notes[i].id != id
    {
      if notes[index].id == id {
        return;
      }
      index := index + 1;
    }
    index := -1;
  }

  /** The storage after a change to the notes: the notes written, then the
      tag index rebuilt, unless rebuilding throws on an untagged note. */
  function Committed(items: map<string, Value>, notes: seq<Note>): map<string, Value> {
    var written := items[NOTES_KEY := NoteList(notes)];
    if AllTagged(notes) then written[TAGS_KEY := StringList(TagIndex(notes))] else written
  }

  /** Only the notes key and the tag index key may differ between `before`
      and `after`. */
  ghost predicate OnlyNotesAndTags(before: map<string, Value>, after: map<string, Value>) {
    forall k :: k != NOTES_KEY && k != TAGS_KEY ==>
      (k in after <==> k in before) && (k in after ==> after[k] == before[k])
  }

  /** After a change `getNotes` returns the new list; `getTags` returns the
      index of the new list when rebuilding succeeded, the old index when it
      threw; nothing else in storage changes. */
  lemma CommittedSpec(items: map<string, Value>, notes: seq<Note>)
    requires WellFormed(items)
    ensures WellFormed(Committed(items, notes))
    ensures StoredNotes(Committed(items, notes)) == notes
    ensures AllTagged(notes) ==> StoredStrings(Committed(items, notes), TAGS_KEY) == TagIndex(notes)
    ensures !AllTagged(notes) ==> StoredStrings(Committed(items, notes), TAGS_KEY) == StoredStrings(items, TAGS_KEY)
    ensures OnlyNotesAndTags(items, Committed(items, notes))
  {
  }

  /** The whole store: everything storage.js reads and writes is in `ls`. */
  class NoteStore {
    const ls: LocalStorage

    ghost predicate Valid()
      reads this, ls
    {
      ls.Valid()
    }

    /** The notes stored now, as `getNotes` reads them. */
    function Notes(): seq<Note>
      reads this, ls
      requires Valid()
    {
      StoredNotes(ls.items)
    }

    /** The tag index stored now, as `getTags` reads it. */
    function Tags(): seq<string>
      reads this, ls
      requires Valid()
    {
      StoredStrings(ls.items, TAGS_KEY)
    }

    constructor(ls: LocalStorage)
      requires ls.Valid()
      ensures this.ls == ls && Valid()
    {
      this.ls := ls;
    }

    /** `getNotes`: the stored list, or `[]` when nothing is stored. */
    method GetNotes() returns (notes: seq<Note>)
      requires Valid()
      ensures notes == Notes()
      ensures NOTES_KEY !in ls.items ==> notes == []
    {
      notes := StoredNotes(ls.items);
    }

    /** `saveNotes`: afterwards `getNotes` returns `notes`; no other key
        changes. */
    method SaveNotes(notes: seq<Note>)
      requires Valid()
      modifies ls
      ensures Valid()
      ensures ls.items == old(ls.items)[NOTES_KEY := NoteList(notes)]
      ensures Notes() == notes
    {
      ls.SetItem(NOTES_KEY, NoteList(notes));
    }

    /** `getTags`: the stored index, or `[]` when nothing is stored. */
    method GetTags() returns (tags: seq<string>)
      requires Valid()
      ensures tags == Tags()
      ensures TAGS_KEY !in ls.items ==> tags == []
    {
      tags := StoredStrings(ls.items, TAGS_KEY);
    }

    /** `saveTags`: afterwards `getTags` returns `tags`; no other key
        changes. */
    method SaveTags(tags: seq<string>)
      requires Valid()
      modifies ls
      ensures Valid()
      ensures ls.items == old(ls.items)[TAGS_KEY := StringList(tags)]
      ensures Tags() == tags
    {
      ls.SetItem(TAGS_KEY, StringList(tags));
    }

    /** `updateTagsFromNotes`: on success the stored index becomes
        `TagIndex(notes)`; when a note lacks tags it throws before writing,
        reported here as `ok == false`. */
    method UpdateTagsFromNotes(notes: seq<Note>) returns (ok: bool)
      requires Valid()
      modifies ls
      ensures Valid()
      ensures ok <==> AllTagged(notes)
      ensures ls.items == if ok then old(ls.items)[TAGS_KEY := StringList(TagIndex(notes))] else old(ls.items)
    {
      var tags;
      tags, ok := CollectTags(notes);
      if ok {
        SaveTags(tags);
      }
    }

    /** Saving a list and rebuilding the index from it. */
    method Commit(notes: seq<Note>) returns (ok: bool)
      requires Valid()
      modifies ls
      ensures Valid()
      ensures ok <==> AllTagged(notes)
      ensures ls.items == Committed(old(ls.items), notes)
    {
      SaveNotes(notes);
      ok := UpdateTagsFromNotes(notes);
    }

    /** `addNote`: the note gets the id `now` (`Date.now()`) and goes in
        front of the stored notes, then the tag index is rebuilt. `ok` is
        false when rebuilding the index throws, after the notes were saved. */
    method AddNote(note: Note, now: int) returns (newNote: Note, ok: bool)
      requires Valid()
      modifies ls
      ensures Valid()
      ensures newNote == note.(id := now)
      ensures ls.items == Committed(old(ls.items), Unshift(old(Notes()), newNote))
      ensures ok <==> AllTagged(Unshift(old(Notes()), newNote))
    {
      var notes := GetNotes();
      newNote := note.(id := now);
      notes := Unshift(notes, newNote);
      ok := Commit(notes);
    }

    /** `updateNote`: when some stored note has the id of `updated`, the
        first such note is replaced, the list saved and the tag index
        rebuilt; otherwise nothing is written. */
    method UpdateNote(updated: Note) returns (ok: bool)
      requires Valid()
      modifies ls
      ensures Valid()
      ensures !HasId(old(Notes()), updated.id) ==> ls.items == old(ls.items) && ok
      ensures HasId(old(Notes()), updated.id) ==>
                ls.items == Committed(old(ls.items), ReplaceFirst(old(Notes()), updated))
                && (ok <==> AllTagged(ReplaceFirst(old(Notes()), updated)))
    {
      var notes := GetNotes();
      var index := FindIndex(notes, updated.id);
      ok := true;
      if index != -1 {
        ReplaceFirstSpec(notes, updated);
        notes := notes[index := updated];
        ok := Commit(notes);
      }
    }

    /** `deleteNote`: every note with the id goes, the rest stay in order;
        then the tag index is rebuilt. */
    method DeleteNote(noteId: int) returns (ok: bool)
      requires Valid()
      modifies ls
      ensures Valid()
      ensures ls.items == Committed(old(ls.items), WithoutId(old(Notes()), noteId))
      ensures ok <==> AllTagged(WithoutId(old(Notes()), noteId))
    {
      var notes := GetNotes();
      var filtered := WithoutId(notes, noteId);
      ok := Commit(filtered);
    }
  }

  /** Deleting keeps every note that has another id. */
  lemma DeleteKeepsOthers(notes: seq<Note>, noteId: int, n: Note)
    requires n in notes && n.id != noteId
    ensures n in WithoutId(notes, noteId)
  {
    assert Count(notes, n) > 0;
  }

  /** Deleting an id that is absent changes nothing. */
  lemma DeleteAbsent(notes: seq<Note>, noteId: int)
    requires !HasId(notes, noteId)
    ensures WithoutId(notes, noteId) == notes
  {
    FilterKeepsAll(notes, (n: Note) => n.id != noteId);
  }

  /** Replacing with the same note again changes nothing more. */
  lemma {:induction false} ReplaceFirstTwice(notes: seq<Note>, updated: Note)
    ensures ReplaceFirst(ReplaceFirst(notes, updated), updated) == ReplaceFirst(notes, updated)
  {
    if notes != [] && notes[0].id != updated.id {
      ReplaceFirstTwice(notes[1..], updated);
      assert ReplaceFirst(notes, updated)[1..] == ReplaceFirst(notes[1..], updated);
    } else if notes != [] {
      assert ([updated] + notes[1..])[1..] == notes[1..];
    }
  }
}
