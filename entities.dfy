/** The records the frontend passes around (notes, flashcards, the draft of a
    note a dialog produces) and the locale-dependent string functions, which
    the model leaves uninterpreted. */
module Entities {
  import opened Lists
  import opened Text

  datatype Option<T> = None | Some(value: T)

  /** `toLowerCase`, `toUpperCase` and `localeCompare`. Their behaviour
      depends on the locale and on Unicode tables, so the model takes them as
      parameters and assumes nothing about them unless a lemma says so. */
  datatype Locale = Locale(lower: string -> string, upper: string -> string, compare: (string, string) -> int)

  /** A stored note. `tags` is `None` when the record has no `tags` property,
      a case the pages guard with `note.tags || []`. */
  datatype Note = Note(id: int, title: string, content: string, summary: string,
                       date: string, tags: Option<seq<string>>, recent: bool)

  /** `note.tags || []`. */
  function TagsOrEmpty(n: Note): seq<string> {
    match n.tags
    case Some(ts) => ts
    case None => []
  }

  /** `notes.flatMap(note => note.tags || [])`. */
  function NoteTags(notes: seq<Note>): seq<string> {
    if notes == [] then [] else NoteTags(notes[..|notes| - 1]) + TagsOrEmpty(notes[|notes| - 1])
  }

  lemma {:induction false} NoteTagsMember(notes: seq<Note>, t: string)
    ensures t in NoteTags(notes) <==> exists i :: 0 <= i < |notes| && t in TagsOrEmpty(notes[i])
  {
    if notes != [] {
      var init, last := notes[..|notes| - 1], notes[|notes| - 1];
      NoteTagsMember(init, t);
      assert NoteTags(notes) == NoteTags(init) + TagsOrEmpty(last);
      if t in NoteTags(notes) {
        if t in NoteTags(init) {
          var i :| 0 <= i < |init| && t in TagsOrEmpty(init[i]);
          assert notes[i] == init[i];
        } else {
          assert t in TagsOrEmpty(notes[|init|]);
        }
      }
      if exists i :: 0 <= i < |notes| && t in TagsOrEmpty(notes[i]) {
        var i :| 0 <= i < |notes| && t in TagsOrEmpty(notes[i]);
        if i < |init| {
          assert notes[i] == init[i];
          assert t in NoteTags(init);
        } else {
          assert notes[i] == last;
        }
      }
    }
  }

  lemma NoteTagsSnoc(notes: seq<Note>, n: Note)
    ensures NoteTags(notes + [n]) == NoteTags(notes) + TagsOrEmpty(n)
  {
    assert (notes + [n])[..|notes + [n]| - 1] == notes;
  }

  /** A flashcard. Cards always carry a tag list: every producer in the
      frontend supplies one. */
  datatype Card = Card(id: real, front: string, back: string, deck: string, tags: seq<string>)

  /** The content key `${card.front}-${card.back}` that identifies duplicate
      cards. It is a string, so different front/back pairs can share it. */
  function CardKey(c: Card): string {
    c.front + "-" + c.back
  }

  /** Two cards with different fronts and backs can share a key, so the
      pages treat them as one card. */
  lemma CardKeyCollision()
    ensures var a := Card(1.0, "a-", "b", "d", []);
            var b := Card(2.0, "a", "-b", "d", []);
            CardKey(a) == CardKey(b) && a.front != b.front && a.back != b.back
  {
    assert "a-" + "-" + "b" == "a" + "-" + "-b";
  }

  /** `cards.flatMap(card => card.tags || [])`. */
  function CardTags(cards: seq<Card>): seq<string> {
    if cards == [] then [] else CardTags(cards[..|cards| - 1]) + cards[|cards| - 1].tags
  }

  lemma {:induction false} CardTagsMember(cards: seq<Card>, t: string)
    ensures t in CardTags(cards) <==> exists i :: 0 <= i < |cards| && t in cards[i].tags
  {
    if cards != [] {
      var init, last := cards[..|cards| - 1], cards[|cards| - 1];
      CardTagsMember(init, t);
      assert CardTags(cards) == CardTags(init) + last.tags;
      if t in CardTags(cards) {
        if t in CardTags(init) {
          var i :| 0 <= i < |init| && t in init[i].tags;
          assert cards[i] == init[i];
        } else {
          assert t in cards[|init|].tags;
        }
      }
      if exists i :: 0 <= i < |cards| && t in cards[i].tags {
        var i :| 0 <= i < |cards| && t in cards[i].tags;
        if i < |init| {
          assert cards[i] == init[i];
          assert t in CardTags(init);
        } else {
          assert cards[i] == last;
        }
      }
    }
  }

  /** The note a dialog hands to its `onSave` callback; it has no id yet. */
  datatype NoteDraft = NoteDraft(title: string, content: string, tags: seq<string>,
                                 summary: string, date: string, recent: bool)

  /** The tag list of a draft and the text typed into its tag field. */
  datatype TagEntry = TagEntry(tags: seq<string>, typed: string)

  /** The tag-entry rule both dialogs use: the trimmed text is appended when
      it is non-empty and not yet in the list, and the field is then cleared;
      otherwise nothing changes. A duplicate-free list stays duplicate-free. */
  function AddDraftTag(tags: seq<string>, typed: string): (r: TagEntry)
    ensures NoDuplicates(tags) ==> NoDuplicates(r.tags)
    ensures r.tags == tags || (r.tags == tags + [Trim(typed)] && Trim(typed) !in tags)
    ensures r.tags != tags <==> Trim(typed) != "" && Trim(typed) !in tags
    ensures r.typed == (if r.tags == tags then typed else "")
  {
    var t := Trim(typed);
    if t != "" && t !in tags then TagEntry(tags + [t], "") else TagEntry(tags, typed)
  }

  /** With nothing typed, adding a tag changes nothing. */
  lemma AddDraftTagEmpty(tags: seq<string>)
    ensures AddDraftTag(tags, "") == TagEntry(tags, "")
  {
    assert Trim("") == "";
  }
}
