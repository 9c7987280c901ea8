/** The dialog that writes a new note (NewNoteDialog.jsx): its fields as the
    fields of a class, the tag handlers, and the save that hands a note draft
    to the page and resets the dialog. */
module NoteDialog {
  import opened Lists
  import opened Text
  import opened Entities

  /** What `handleSave` hands to `onSave`, if anything: a draft only when
      both the trimmed title and the trimmed content are non-empty. The
      title and content are trimmed, and an empty summary falls back to the
      preview of the untrimmed content. `date` is today's date, formatted. */
  function SaveData(title: string, content: string, tags: seq<string>, summary: string, date: string): Option<NoteDraft> {
    if Trim(title) != "" && Trim(content) != "" then
      Some(NoteDraft(Trim(title), Trim(content), tags,
                     if summary != "" then summary else Preview(content), date, true))
    else None
  }

  /** A draft is saved exactly when title and content are not blank. Its
      title and content are non-empty and neither start nor end with
      whitespace, its tags are the dialog's, it is marked recent, and its
      summary is never empty: the one given, or at most 150 characters from
      the start of the content followed by '...'. */
  lemma SaveDataSpec(title: string, content: string, tags: seq<string>, summary: string, date: string)
    ensures var r := SaveData(title, content, tags, summary, date);
            (r.Some? <==> !AllWhitespace(title) && !AllWhitespace(content))
            && (r.Some? ==>
                  r.value.title != [] && !IsWhitespace(r.value.title[0]) && !IsWhitespace(r.value.title[|r.value.title| - 1])
                  && r.value.content != [] && !IsWhitespace(r.value.content[0])
                  && !IsWhitespace(r.value.content[|r.value.content| - 1])
                  && r.value.tags == tags && r.value.recent && r.value.date == date && r.value.summary != ""
                  && (summary != "" ==> r.value.summary == summary)
                  && (summary == "" ==> r.value.summary[..|r.value.summary| - 3] <= content
                                        && r.value.summary[|r.value.summary| - 3..] == "..."
                                        && |r.value.summary| <= 153))
  {
    TrimmedEnds(title);
    TrimmedEnds(content);
  }

  /** The trim of a text that is not blank is non-empty with no whitespace
      at either end. */
  lemma TrimmedEnds(s: string)
    ensures Trim(s) != [] <==> !AllWhitespace(s)
    ensures Trim(s) != [] ==> !IsWhitespace(Trim(s)[0]) && !IsWhitespace(Trim(s)[|Trim(s)| - 1])
  {
    TrimEmpty(s);
    TrimSpec(s);
  }

  /** What the tag field holds never reaches the tags: adding through the
      empty `currentTag` leaves them as they are, while adding the typed
      text would append it. */
  lemma TypedTagIsLost(tags: seq<string>, typed: string)
    requires Trim(typed) != "" && Trim(typed) !in tags
    ensures AddDraftTag(tags, "").tags == tags
    ensures AddDraftTag(tags, typed).tags == tags + [Trim(typed)]
  {
    AddDraftTagEmpty(tags);
  }

  /** The dialog's fields, as one value. */
  datatype DialogState = DialogState(title: string, content: string, tags: seq<string>,
                                     currentTag: string, summary: string, tagInput: string)

  const EMPTY_DIALOG: DialogState := DialogState("", "", [], "", "", "")

  class NewNoteDialog {
    var title: string
    var content: string
    var tags: seq<string>
    var currentTag: string
    var summary: string
    var tagInput: string

    /** The tags never repeat, and `currentTag` is never anything but
        empty: no element of the dialog writes to it. The tags stay
        distinct because the handlers modelled here only add a tag that is
        not there yet; `generateTagsAndSummary`, which replaces the tags with
        the list the backend returns, is not part of this model. */
    ghost predicate Valid()
      reads this
    {
      NoDuplicates(tags) && currentTag == ""
    }

    function State(): DialogState
      reads this
    {
      DialogState(title, content, tags, currentTag, summary, tagInput)
    }

    constructor()
      ensures Valid() && State() == EMPTY_DIALOG
    {
      title, content, tags, currentTag, summary, tagInput := "", "", [], "", "", "";
    }

    /** The title, content and tag fields' `onChange`. */
    method Edit(newTitle: string, newContent: string, newTagInput: string)
      requires Valid()
      modifies this
      ensures Valid()
      ensures State() == old(State()).(title := newTitle, content := newContent, tagInput := newTagInput)
    {
      title, content, tagInput := newTitle, newContent, newTagInput;
    }

    /** `handleAddTag` as written: it reads `currentTag`, which is always
        empty, so nothing changes, whatever the tag field holds. */
    method HandleAddTag()
      requires Valid()
      modifies this
      ensures Valid()
      ensures State() == old(State()).(tags := AddDraftTag(old(tags), old(currentTag)).tags,
                                       currentTag := AddDraftTag(old(tags), old(currentTag)).typed)
      ensures State() == old(State())
    {
      var entry := AddDraftTag(tags, currentTag);
      AddDraftTagEmpty(tags);
      tags := entry.tags;
      currentTag := entry.typed;
    }

    /** Enter in the tag field (`handleTagKeyPress`) calls `handleAddTag`. */
    method HandleTagKeyPress(enter: bool)
      requires Valid()
      modifies this
      ensures Valid()
      ensures State() == old(State())
    {
      if enter {
        HandleAddTag();
      }
    }

    /** The tag entry the dialog evidently intends: the trimmed text of the
        tag field joins the tags when it is non-empty and new, and the field
        is cleared; otherwise nothing changes. */
    method HandleAddTypedTag()
      requires Valid()
      modifies this
      ensures Valid()
      ensures State() == old(State()).(tags := AddDraftTag(old(tags), old(tagInput)).tags,
                                       tagInput := AddDraftTag(old(tags), old(tagInput)).typed)
      ensures Trim(old(tagInput)) != "" && Trim(old(tagInput)) !in old(tags) ==>
                tags == old(tags) + [Trim(old(tagInput))] && tagInput == ""
      ensures Trim(old(tagInput)) == "" || Trim(old(tagInput)) in old(tags) ==> State() == old(State())
    {
      var entry := AddDraftTag(tags, tagInput);
      tags := entry.tags;
      tagInput := entry.typed;
    }

    /** `handleRemoveTag`: every copy of the tag goes, the others stay in
        order. */
    method HandleRemoveTag(tag: string)
      requires Valid()
      modifies this
      ensures Valid()
      ensures State() == old(State()).(tags := RemoveAll(old(tags), tag))
      ensures tag !in tags && IsSubsequence(tags, old(tags))
      ensures forall t :: t != tag ==> (t in tags <==> t in old(tags))
    {
      tags := RemoveAll(tags, tag);
    }

    /** `handleClose`: every field is emptied. The parent's `onClose` is
        told by `closed`. */
    method HandleClose() returns (closed: bool)
      requires Valid()
      modifies this
      ensures Valid() && State() == EMPTY_DIALOG && closed
    {
      title, content, tags, currentTag, summary, tagInput := "", "", [], "", "", "";
      closed := true;
    }

    /** `handleSave`: with a title and content that are not blank the draft
        goes to `onSave` and the dialog is emptied and closed; otherwise
        nothing happens. */
    method HandleSave(date: string) returns (saved: Option<NoteDraft>, closed: bool)
      requires Valid()
      modifies this
      ensures Valid()
      ensures saved == SaveData(old(title), old(content), old(tags), old(summary), date)
      ensures saved.Some? ==> State() == EMPTY_DIALOG && closed
      ensures saved.None? ==> State() == old(State()) && !closed
    {
      saved := SaveData(title, content, tags, summary, date);
      closed := false;
      if saved.Some? {
        closed := HandleClose();
      }
    }
  }
}
