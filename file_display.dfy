/**
 * How an attachment is shown: the icon chosen from its MIME type and the size
 * text. The upload form and the attachment gallery use the same two rules.
 */
module FileDisplay {
  import opened Text

  /** The seven icons, in the order the rules test them (🖼️ 📄 📝 📊 🎬 🎵 📎). */
  datatype Icon = ImageIcon | PdfIcon | DocumentIcon | SpreadsheetIcon | VideoIcon | AudioIcon | GenericIcon

  /** The first rule that matches decides: image prefix, pdf, word/document, excel/spreadsheet, video, audio. */
  function FileIcon(mime: string): (r: Icon)
    ensures r == ImageIcon <==> StartsWith(mime, "image/")
    ensures r == PdfIcon <==> !StartsWith(mime, "image/") && Contains(mime, "pdf")
    ensures r == DocumentIcon <==> !StartsWith(mime, "image/") && !Contains(mime, "pdf")
                                   && (Contains(mime, "word") || Contains(mime, "document"))
    ensures r == SpreadsheetIcon <==> !StartsWith(mime, "image/") && !Contains(mime, "pdf")
                                      && !Contains(mime, "word") && !Contains(mime, "document")
                                      && (Contains(mime, "excel") || Contains(mime, "spreadsheet"))
    ensures r == VideoIcon <==> !StartsWith(mime, "image/") && !Contains(mime, "pdf")
                                && !Contains(mime, "word") && !Contains(mime, "document")
                                && !Contains(mime, "excel") && !Contains(mime, "spreadsheet")
                                && Contains(mime, "video")
    ensures r == AudioIcon <==> !StartsWith(mime, "image/") && !Contains(mime, "pdf")
                                && !Contains(mime, "word") && !Contains(mime, "document")
                                && !Contains(mime, "excel") && !Contains(mime, "spreadsheet")
                                && !Contains(mime, "video") && Contains(mime, "audio")
    ensures r == GenericIcon <==> !StartsWith(mime, "image/") && !Contains(mime, "pdf")
                                  && !Contains(mime, "word") && !Contains(mime, "document")
                                  && !Contains(mime, "excel") && !Contains(mime, "spreadsheet")
                                  && !Contains(mime, "video") && !Contains(mime, "audio")
  {
    if StartsWith(mime, "image/") then ImageIcon
    else if Contains(mime, "pdf") then PdfIcon
    else if Contains(mime, "word") || Contains(mime, "document") then DocumentIcon
    else if Contains(mime, "excel") || Contains(mime, "spreadsheet") then SpreadsheetIcon
    else if Contains(mime, "video") then VideoIcon
    else if Contains(mime, "audio") then AudioIcon
    else GenericIcon
  }

  /** An earlier rule wins: an `image/` type that mentions pdf still gets the image icon. */
  lemma IconPriority()
    ensures FileIcon("image/pdf") == ImageIcon
    ensures FileIcon("application/pdf") == PdfIcon
  {
    var a, b := "image/pdf", "application/pdf";
    assert a[..6] == "image/";
    assert b[12..15] == "pdf";
    assert OccursAt(b, "pdf", 12);
    assert b[..6] != "image/" by { assert b[0] != 'i'; }
  }

  /**
   * `(bytes / unit).toFixed(1)` as a count of tenths. The quotient is exact in
   * binary for the two units (powers of two), and `toFixed` takes the nearest
   * tenth, the larger one on a tie.
   */
  function Tenths(bytes: nat, unit: nat): (n: nat)
    requires unit > 0
    ensures 2 * unit * n <= 20 * bytes + unit < 2 * unit * (n + 1)
  {
    var a, b := 20 * bytes + unit, 2 * unit;
    var q := a / b;
    assert b * q <= a < b * (q + 1) by {
      assert a == b * q + a % b;
    }
    q
  }

  /** A count of tenths written with one decimal place. */
  function DecimalText(n: nat): string {
    NatToString(n / 10) + "." + [DigitChar(n % 10)]
  }

  const KiB: nat := 1024
  const MiB: nat := 1024 * 1024

  datatype SizeUnit = Bytes | Kilobytes | Megabytes

  function UnitOf(bytes: nat): SizeUnit {
    if bytes < KiB then Bytes else if bytes < MiB then Kilobytes else Megabytes
  }

  function UnitName(u: SizeUnit): string {
    match u
    case Bytes => " B"
    case Kilobytes => " KB"
    case Megabytes => " MB"
  }

  /** `formatFileSize`: whole bytes below 1 KiB, tenths of KiB below 1 MiB, tenths of MiB above. */
  function FormatFileSize(bytes: nat): (r: string)
    ensures UnitOf(bytes) == Bytes ==> r == NatToString(bytes) + UnitName(Bytes)
    ensures UnitOf(bytes) == Kilobytes ==> r == DecimalText(Tenths(bytes, KiB)) + UnitName(Kilobytes)
    ensures UnitOf(bytes) == Megabytes ==> r == DecimalText(Tenths(bytes, MiB)) + UnitName(Megabytes)
  {
    match UnitOf(bytes)
    case Bytes => NatToString(bytes) + " B"
    case Kilobytes => DecimalText(Tenths(bytes, KiB)) + " KB"
    case Megabytes => DecimalText(Tenths(bytes, MiB)) + " MB"
  }

  /** The KB and MB texts never show less than 1.0, and the KB text never more than 1024.0. */
  lemma ShownSizeBounds(bytes: nat)
    ensures UnitOf(bytes) == Kilobytes ==> 10 <= Tenths(bytes, KiB) <= 10240
    ensures UnitOf(bytes) == Megabytes ==> 10 <= Tenths(bytes, MiB)
  {
    if UnitOf(bytes) == Kilobytes {
      var n := Tenths(bytes, KiB);
      assert 2 * KiB * (n + 1) > 20 * KiB + KiB;
      assert 2 * KiB * n <= 20 * (MiB - 1) + KiB;
    }
    if UnitOf(bytes) == Megabytes {
      var n := Tenths(bytes, MiB);
      assert 2 * MiB * (n + 1) > 20 * MiB + MiB;
    }
  }

  /** Just under 1 MiB the KB text rounds up to 1024.0: the unit switch is on bytes, not on the rounded value. */
  lemma KilobyteTextReaches1024()
    ensures Tenths(MiB - 1, KiB) == 10240
  {
  }
}
