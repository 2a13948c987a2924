/** The records of the calendar application (one datatype per interface of src/lib/types.ts). */
module Types {
  import opened Wrappers

  datatype Settings = Settings(schoolName: string, educationOffice: string, schoolLogo: string)

  datatype User = User(id: string, username: string, password: string, fullname: string)

  datatype Year = Year(id: string, name: string, startDate: string, endDate: string, isCurrent: bool)

  /** `month` is a `yyyy-MM` value. */
  datatype Month = Month(id: string, yearId: string, month: string, name: string)

  datatype DayEntry = DayEntry(id: string, detail: string, responsible: string)

  datatype Attachment = Attachment(id: string, name: string, url: string, thumbnailUrl: string,
                                   mimeType: string, size: nat)

  /** `date` is a `yyyy-MM-dd` value; `attachments` is optional in the source. */
  datatype Day = Day(id: string, monthId: string, date: string, entries: seq<DayEntry>,
                     attachments: Option<seq<Attachment>>)

  /** `day.attachments || []` */
  function AttachmentsOf(d: Day): seq<Attachment> {
    d.attachments.GetOr([])
  }

  /** The entry fields an editor may change (`keyof DayEntry`). */
  datatype EntryField = IdField | DetailField | ResponsibleField

  /** `{ ...e, [field]: value }` */
  function WithField(e: DayEntry, f: EntryField, v: string): DayEntry {
    match f
    case IdField => e.(id := v)
    case DetailField => e.(detail := v)
    case ResponsibleField => e.(responsible := v)
  }

  /** A fresh blank entry, as the editors create it (`{ id: Date.now().toString(), detail: '', responsible: '' }`). */
  function BlankEntry(id: string): DayEntry {
    DayEntry(id, "", "")
  }
}
