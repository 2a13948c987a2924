/**
 * The day edit dialog: a working copy of one day's entries and attachments,
 * changed by the dialog's handlers and sent back as a whole on save.
 */
module DayEditModal {
  import opened Wrappers
  import opened Types
  import opened Views
  import opened Editing

  /** `attachments.filter((a) => a.id !== attachmentId)` */
  function WithoutAttachment(attachments: seq<Attachment>, attachmentId: string): (r: seq<Attachment>)
    ensures |r| <= |attachments|
    ensures forall a :: a in r <==> a in attachments && a.id != attachmentId
  {
    var keep := (a: Attachment) => a.id != attachmentId;
    FilterMembers(attachments, keep);
    Filter(attachments, keep)
  }

  /** Removing an id no attachment has changes nothing. */
  lemma RemoveAbsentId(attachments: seq<Attachment>, attachmentId: string)
    requires forall i :: 0 <= i < |attachments| ==> attachments[i].id != attachmentId
    ensures WithoutAttachment(attachments, attachmentId) == attachments
  {
    FilterAll(attachments, (a: Attachment) => a.id != attachmentId);
  }

  /** Removing the same id twice removes no more than removing it once. */
  lemma RemoveTwice(attachments: seq<Attachment>, attachmentId: string)
    ensures WithoutAttachment(WithoutAttachment(attachments, attachmentId), attachmentId)
            == WithoutAttachment(attachments, attachmentId)
  {
    var once := WithoutAttachment(attachments, attachmentId);
    forall i | 0 <= i < |once| ensures once[i].id != attachmentId {
      assert once[i] in once;
    }
    RemoveAbsentId(once, attachmentId);
  }

  /**
   * Removing an attachment keeps the others in order: removing from a list
   * that was extended by an upload removes from each part.
   */
  lemma RemoveFromUpload(attachments: seq<Attachment>, files: seq<Attachment>, attachmentId: string)
    ensures WithoutAttachment(attachments + files, attachmentId)
            == WithoutAttachment(attachments, attachmentId) + WithoutAttachment(files, attachmentId)
  {
    FilterAppend(attachments, files, (a: Attachment) => a.id != attachmentId);
  }

  /** What `handleSave` leads to: the day sent with the `PUT`, and whether the dialog closes. */
  datatype SaveResult = SaveResult(sent: Option<Day>, closes: bool)

  /** The dialog's working copy. */
  class DayEditor {
    var entries: seq<DayEntry>
    var attachments: seq<Attachment>

    /** The initial state: `day?.entries || []` and `day?.attachments || []`. */
    constructor (day: Option<Day>)
      ensures day.Some? ==> entries == day.value.entries && attachments == AttachmentsOf(day.value)
      ensures day.None? ==> entries == [] && attachments == []
    {
      if day.Some? {
        entries := day.value.entries;
        attachments := AttachmentsOf(day.value);
      } else {
        entries := [];
        attachments := [];
      }
    }

    /** The effect on a change of `day`: reload the copy from a day, keep it for none. */
    method Load(day: Option<Day>)
      modifies this
      ensures day.Some? ==> entries == day.value.entries && attachments == AttachmentsOf(day.value)
      ensures day.None? ==> entries == old(entries) && attachments == old(attachments)
    {
      if day.Some? {
        entries := day.value.entries;
        attachments := AttachmentsOf(day.value);
      }
    }

    /** `handleAddEntry`: one blank entry at the end. */
    method AddEntry(id: string)
      modifies this
      ensures entries == old(entries) + [BlankEntry(id)]
      ensures attachments == old(attachments)
    {
      entries := entries + [BlankEntry(id)];
    }

    /** `handleUpdateEntry(index, field, value)`; the inputs only ever pass the index of a shown entry. */
    method UpdateEntry(index: nat, field: EntryField, value: string)
      requires index < |entries|
      modifies this
      ensures entries == UpdatedAt(old(entries), index, field, value)
      ensures attachments == old(attachments)
    {
      var newEntries := entries;
      newEntries := newEntries[index := WithField(newEntries[index], field, value)];
      entries := newEntries;
    }

    /** `handleRemoveEntry(index)` */
    method RemoveEntry(index: nat)
      modifies this
      ensures entries == RemovedAt(old(entries), index)
      ensures attachments == old(attachments)
    {
      entries := RemovedAt(entries, index);
    }

    /** `handleFilesUploaded(files)`: the new files after the existing ones. */
    method FilesUploaded(files: seq<Attachment>)
      modifies this
      ensures attachments == old(attachments) + files
      ensures entries == old(entries)
    {
      attachments := attachments + files;
    }

    /**
     * `handleRemoveAttachment(attachmentId)`: `returned` is whether the
     * `DELETE` call came back (with any status); a thrown error keeps the list.
     */
    method RemoveAttachment(attachmentId: string, returned: bool)
      modifies this
      ensures returned ==> attachments == WithoutAttachment(old(attachments), attachmentId)
      ensures !returned ==> attachments == old(attachments)
      ensures entries == old(entries)
    {
      if returned {
        attachments := WithoutAttachment(attachments, attachmentId);
      }
    }

    /**
     * `handleSave()`: nothing without a day; otherwise the day is sent with
     * the working entries (blank ones included) and attachments, and the
     * dialog closes only on an ok answer (`ok` is false for a thrown error).
     */
    method Save(day: Option<Day>, ok: bool) returns (result: SaveResult)
      ensures day.None? ==> result == SaveResult(None, false)
      ensures day.Some? ==> result.closes == ok
                            && result.sent == Some(day.value.(entries := entries, attachments := Some(attachments)))
    {
      if day.None? {
        return SaveResult(None, false);
      }
      var updatedDay := day.value.(entries := entries, attachments := Some(attachments));
      result := SaveResult(Some(updatedDay), ok);
    }
  }
}
