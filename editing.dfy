/**
 * The editing state the side panel and the activities list share: which
 * months are expanded, which day is being edited, its working copy of
 * entries, and the list operations the editors apply to that copy. The
 * entry operations are also those of the day edit dialog.
 */
module Editing {
  import opened Wrappers
  import opened Text
  import opened Types
  import opened Sorting
  import opened Views

  /** A copy of the set with `id` deleted when present and added otherwise. */
  function Toggled(s: set<string>, id: string): (r: set<string>)
    ensures id in r <==> id !in s
    ensures forall x :: x != id ==> (x in r <==> x in s)
  {
    if id in s then s - {id} else s + {id}
  }

  /** Toggling the same month twice restores the set. */
  lemma ToggleTwice(s: set<string>, id: string)
    ensures Toggled(Toggled(s, id), id) == s
  {
  }

  /** `new Set(yearMonths.map((m) => m.id))` */
  function MonthIds(yearMonths: seq<Month>): (r: set<string>)
    ensures forall id :: id in r <==> exists i :: 0 <= i < |yearMonths| && yearMonths[i].id == id
  {
    set i | 0 <= i < |yearMonths| :: yearMonths[i].id
  }

  function DateKey(d: Day): string {
    d.date
  }

  /**
   * `getMonthDays(monthId)`: the days recorded for the month, sorted by
   * their date strings (a stable sort, so records of one date keep their order).
   */
  function SortedMonthDays(days: seq<Day>, monthId: string): (r: seq<Day>)
    ensures multiset(r) == multiset(MonthDays(days, monthId)) && |r| == |MonthDays(days, monthId)|
    ensures forall d :: d in r <==> d in days && d.monthId == monthId
    ensures SortedBy(r, DateKey)
  {
    var r := SortBy(MonthDays(days, monthId), DateKey);
    SortBySorted(MonthDays(days, monthId), DateKey);
    assert forall d :: d in r <==> d in multiset(MonthDays(days, monthId));
    r
  }

  /** The value of one field of an entry. */
  function FieldOf(e: DayEntry, f: EntryField): string {
    match f
    case IdField => e.id
    case DetailField => e.detail
    case ResponsibleField => e.responsible
  }

  /** Writing a field sets that field and no other. */
  lemma WithFieldOnly(e: DayEntry, f: EntryField, v: string)
    ensures FieldOf(WithField(e, f, v), f) == v
    ensures forall g :: g != f ==> FieldOf(WithField(e, f, v), g) == FieldOf(e, g)
    ensures WithField(e, f, FieldOf(e, f)) == e
  {
  }

  /** `newEntries[index] = { ...newEntries[index], [field]: value }` on a copy. */
  function UpdatedAt(entries: seq<DayEntry>, i: nat, f: EntryField, v: string): (r: seq<DayEntry>)
    requires i < |entries|
    ensures |r| == |entries|
    ensures r[i] == WithField(entries[i], f, v)
    ensures forall j :: 0 <= j < |r| && j != i ==> r[j] == entries[j]
  {
    entries[i := WithField(entries[i], f, v)]
  }

  /** Writing back the value a field had undoes an update. */
  lemma UpdateUndone(entries: seq<DayEntry>, i: nat, f: EntryField, v: string)
    requires i < |entries|
    ensures UpdatedAt(UpdatedAt(entries, i, f, v), i, f, FieldOf(entries[i], f)) == entries
  {
    WithFieldOnly(entries[i], f, v);
    var back := UpdatedAt(UpdatedAt(entries, i, f, v), i, f, FieldOf(entries[i], f));
    assert back[i] == WithField(WithField(entries[i], f, v), f, FieldOf(entries[i], f));
    assert back[i] == entries[i] by {
      match f
      case IdField =>
      case DetailField =>
      case ResponsibleField =>
    }
  }

  /** `entries.filter((_, j) => j !== i)`: an index past the end removes nothing. */
  function RemovedAt(entries: seq<DayEntry>, i: nat): (r: seq<DayEntry>)
    ensures i < |entries| ==> |r| == |entries| - 1
                              && forall j :: 0 <= j < |r| ==> r[j] == if j < i then entries[j] else entries[j + 1]
    ensures i >= |entries| ==> r == entries
  {
    if i < |entries| then entries[..i] + entries[i + 1..] else entries
  }

  /** Removing the entry just added restores the list. */
  lemma RemoveAdded(entries: seq<DayEntry>, e: DayEntry)
    ensures RemovedAt(entries + [e], |entries|) == entries
  {
    assert (entries + [e])[..|entries|] == entries;
  }

  /** An entry worth saving: `e.detail.trim() !== ''`. */
  predicate Filled(e: DayEntry) {
    Trim(e.detail) != ""
  }

  /** An entry is worth saving exactly when its detail has a character that is not white space. */
  lemma FilledIffVisible(e: DayEntry)
    ensures Filled(e) <==> exists i :: 0 <= i < |e.detail| && !IsSpace(e.detail[i])
  {
    TrimEmptyIffAllSpace(e.detail);
  }

  /** `editEntries.filter((e) => e.detail.trim() !== '')` */
  function SavedEntries(entries: seq<DayEntry>): (r: seq<DayEntry>)
    ensures |r| <= |entries|
    ensures forall e :: e in r <==> e in entries && Filled(e)
  {
    FilterMembers(entries, Filled);
    Filter(entries, Filled)
  }

  /** The filter works piecewise, so the saved entries keep their order. */
  lemma SavedEntriesAppend(a: seq<DayEntry>, b: seq<DayEntry>)
    ensures SavedEntries(a + b) == SavedEntries(a) + SavedEntries(b)
  {
    FilterAppend(a, b, Filled);
  }

  /** A list whose entries are all filled is saved as it is. */
  lemma SavedAllFilled(entries: seq<DayEntry>)
    requires forall i :: 0 <= i < |entries| ==> Filled(entries[i])
    ensures SavedEntries(entries) == entries
  {
    FilterAll(entries, Filled);
  }

  /** Saving what was saved saves the same entries. */
  lemma SavedIdempotent(entries: seq<DayEntry>)
    ensures SavedEntries(SavedEntries(entries)) == SavedEntries(entries)
  {
    SavedAllFilled(SavedEntries(entries));
  }

  /** The blank entry an editor starts with is never saved. */
  lemma BlankNotSaved(entries: seq<DayEntry>, id: string)
    ensures SavedEntries(entries + [BlankEntry(id)]) == SavedEntries(entries)
  {
    assert Trim("") == "";
    assert [BlankEntry(id)][..0] == [];
    SavedEntriesAppend(entries, [BlankEntry(id)]);
  }

  /**
   * The state of the month list of the side panel and of the activities
   * list: the expanded months, the day being edited and its working copy.
   */
  class MonthEditor {
    var expanded: set<string>
    var editingDay: Option<string>
    var editEntries: seq<DayEntry>

    constructor ()
      ensures expanded == {} && editingDay == None && editEntries == []
    {
      expanded := {};
      editingDay := None;
      editEntries := [];
    }

    /** `toggleMonth`: flips the month in a copy of the set. */
    method ToggleMonth(monthId: string)
      modifies this
      ensures expanded == Toggled(old(expanded), monthId)
      ensures editingDay == old(editingDay) && editEntries == old(editEntries)
    {
      var newExpanded := expanded;
      if monthId in newExpanded {
        newExpanded := newExpanded - {monthId};
      } else {
        newExpanded := newExpanded + {monthId};
      }
      expanded := newExpanded;
    }

    /** `expandAll`: every month of the selected year. */
    method ExpandAll(yearMonths: seq<Month>)
      modifies this
      ensures expanded == MonthIds(yearMonths)
      ensures editingDay == old(editingDay) && editEntries == old(editEntries)
    {
      expanded := MonthIds(yearMonths);
    }

    /** `collapseAll` */
    method CollapseAll()
      modifies this
      ensures expanded == {}
      ensures editingDay == old(editingDay) && editEntries == old(editEntries)
    {
      expanded := {};
    }

    /** `startEditing(day)`: a copy of the day's entries, or one blank entry with the id `blankId`. */
    method StartEditing(day: Day, blankId: string)
      modifies this
      ensures editingDay == Some(day.id)
      ensures |day.entries| > 0 ==> editEntries == day.entries
      ensures |day.entries| == 0 ==> editEntries == [BlankEntry(blankId)]
      ensures expanded == old(expanded)
    {
      editingDay := Some(day.id);
      if |day.entries| > 0 {
        editEntries := day.entries;
      } else {
        editEntries := [BlankEntry(blankId)];
      }
    }

    /** `cancelEditing` */
    method CancelEditing()
      modifies this
      ensures editingDay == None && editEntries == []
      ensures expanded == old(expanded)
    {
      editingDay := None;
      editEntries := [];
    }

    /** `addEntry`: one blank entry at the end. */
    method AddEntry(id: string)
      modifies this
      ensures editEntries == old(editEntries) + [BlankEntry(id)]
      ensures expanded == old(expanded) && editingDay == old(editingDay)
    {
      editEntries := editEntries + [BlankEntry(id)];
    }

    /** `updateEntry(index, field, value)`; the inputs only ever pass the index of a shown entry. */
    method UpdateEntry(index: nat, field: EntryField, value: string)
      requires index < |editEntries|
      modifies this
      ensures editEntries == UpdatedAt(old(editEntries), index, field, value)
      ensures expanded == old(expanded) && editingDay == old(editingDay)
    {
      var newEntries := editEntries;
      newEntries := newEntries[index := WithField(newEntries[index], field, value)];
      editEntries := newEntries;
    }

    /** `removeEntry(index)` */
    method RemoveEntry(index: nat)
      modifies this
      ensures editEntries == RemovedAt(old(editEntries), index)
      ensures expanded == old(expanded) && editingDay == old(editingDay)
    {
      editEntries := RemovedAt(editEntries, index);
    }

    /**
     * `saveChanges(day)`: sends the day with only the filled entries of the
     * working copy; `ok` is whether the `PUT` answered with an ok status (a
     * thrown error counts as not ok). An ok answer refreshes the shared
     * data, whose loading screen replaces the whole page, so the panel comes
     * back in its initial state: no month expanded, nothing in edit.
     */
    method SaveChanges(day: Day, ok: bool) returns (sent: Day)
      modifies this
      ensures sent == day.(entries := SavedEntries(old(editEntries)))
      ensures ok ==> expanded == {} && editingDay == None && editEntries == []
      ensures !ok ==> expanded == old(expanded) && editingDay == old(editingDay) && editEntries == old(editEntries)
    {
      var filteredEntries := SavedEntries(editEntries);
      sent := day.(entries := filteredEntries);
      if ok {
        expanded := {};
        editingDay := None;
        editEntries := [];
      }
    }
  }

  /**
   * The day a save sends keeps its id, month, date and attachments, and
   * every entry it carries is a filled entry of the working copy.
   */
  lemma SavedDayShape(day: Day, editEntries: seq<DayEntry>)
    ensures var sent := day.(entries := SavedEntries(editEntries));
            sent.id == day.id && sent.monthId == day.monthId && sent.date == day.date
            && sent.attachments == day.attachments
            && forall i :: 0 <= i < |sent.entries| ==> Filled(sent.entries[i]) && sent.entries[i] in editEntries
  {
    var r := SavedEntries(editEntries);
    forall i | 0 <= i < |r| ensures r[i] in editEntries {
      assert r[i] in r;
    }
  }
}
