/**
 * The text stored in the entries and attachments cells of the Days table.
 * The application writes these cells with `JSON.stringify` and reads them with
 * `JSON.parse`. Here they are a concrete length-prefixed encoding, and its
 * round trip is proved, so that decoding what was written gives back the lists.
 */
module CellCodec {
  import opened Wrappers
  import opened Text
  import opened Types

  /** `n:` */
  function EncNat(n: nat): string {
    NatToString(n) + ":"
  }

  function DecNat(s: string): Option<(nat, string)> {
    var k := DigitRun(s);
    if k == 0 || k == |s| || s[k] != ':' then None
    else Some((DigitsValue(s[..k]), s[k + 1..]))
  }

  lemma DecNatEnc(n: nat, rest: string)
    ensures DecNat(EncNat(n) + rest) == Some((n, rest))
  {
    var ds := NatToString(n);
    NatToStringShape(n);
    assert EncNat(n) + rest == ds + (":" + rest);
    DigitRunOf(ds, ":" + rest);
    assert (ds + (":" + rest))[..|ds|] == ds;
    assert (ds + (":" + rest))[|ds| + 1..] == rest;
  }

  lemma EncNatNonEmpty(n: nat)
    ensures |EncNat(n)| > 0
  {
    assert EncNat(n)[|EncNat(n)| - 1] == ':';
  }

  /** `len:text` */
  function EncStr(s: string): string {
    EncNat(|s|) + s
  }

  function DecStr(s: string): Option<(string, string)> {
    match DecNat(s)
    case None => None
    case Some((n, r)) => if n <= |r| then Some((r[..n], r[n..])) else None
  }

  lemma DecStrEnc(x: string, rest: string)
    ensures DecStr(EncStr(x) + rest) == Some((x, rest))
  {
    assert EncStr(x) + rest == EncNat(|x|) + (x + rest);
    DecNatEnc(|x|, x + rest);
    assert (x + rest)[..|x|] == x && (x + rest)[|x|..] == rest;
  }

  /** Several strings in a row. */
  function EncStrs(fs: seq<string>): string {
    if fs == [] then "" else EncStr(fs[0]) + EncStrs(fs[1..])
  }

  function DecStrs(k: nat, s: string): (r: Option<(seq<string>, string)>)
    ensures r.Some? ==> |r.value.0| == k
  {
    if k == 0 then Some(([], s))
    else
      match DecStr(s)
      case None => None
      case Some((f, rest)) =>
        match DecStrs(k - 1, rest)
        case None => None
        case Some((fs, rest2)) => Some(([f] + fs, rest2))
  }

  lemma {:induction false} DecStrsEnc(fs: seq<string>, rest: string)
    ensures DecStrs(|fs|, EncStrs(fs) + rest) == Some((fs, rest))
  {
    if fs == [] {
      assert EncStrs(fs) + rest == rest;
    } else {
      assert [fs[0]] + fs[1..] == fs;
      var tail := EncStrs(fs[1..]) + rest;
      assert EncStrs(fs) + rest == EncStr(fs[0]) + tail;
      DecStrEnc(fs[0], tail);
      DecStrsEnc(fs[1..], rest);
    }
  }

  function EncEntry(e: DayEntry): string {
    EncStrs([e.id, e.detail, e.responsible])
  }

  function DecEntry(s: string): Option<(DayEntry, string)> {
    match DecStrs(3, s)
    case None => None
    case Some((fs, r)) => Some((DayEntry(fs[0], fs[1], fs[2]), r))
  }

  lemma DecEntryEnc(e: DayEntry, rest: string)
    ensures DecEntry(EncEntry(e) + rest) == Some((e, rest))
  {
    DecStrsEnc([e.id, e.detail, e.responsible], rest);
  }

  function EncAttachment(a: Attachment): string {
    EncStrs([a.id, a.name, a.url, a.thumbnailUrl, a.mimeType]) + EncNat(a.size)
  }

  function DecAttachment(s: string): Option<(Attachment, string)> {
    match DecStrs(5, s)
    case None => None
    case Some((fs, r)) =>
      match DecNat(r)
      case None => None
      case Some((size, r2)) => Some((Attachment(fs[0], fs[1], fs[2], fs[3], fs[4], size), r2))
  }

  lemma DecAttachmentEnc(a: Attachment, rest: string)
    ensures DecAttachment(EncAttachment(a) + rest) == Some((a, rest))
  {
    var fs := [a.id, a.name, a.url, a.thumbnailUrl, a.mimeType];
    assert EncAttachment(a) + rest == EncStrs(fs) + (EncNat(a.size) + rest);
    DecStrsEnc(fs, EncNat(a.size) + rest);
    DecNatEnc(a.size, rest);
  }

  lemma EntryEncodingNonEmpty(e: DayEntry)
    ensures |EncEntry(e)| > 0
  {
    EncNatNonEmpty(|e.id|);
    assert EncEntry(e) == EncStr(e.id) + EncStrs([e.detail, e.responsible]);
  }

  function EncEntryItems(es: seq<DayEntry>): string {
    if es == [] then "" else EncEntry(es[0]) + EncEntryItems(es[1..])
  }

  function DecEntryItems(n: nat, s: string): Option<(seq<DayEntry>, string)> {
    if n == 0 then Some(([], s))
    else
      match DecEntry(s)
      case None => None
      case Some((e, r)) =>
        if |r| < |s| then
          match DecEntryItems(n - 1, r)
          case None => None
          case Some((es, r2)) => Some(([e] + es, r2))
        else None
  }

  lemma DecEntryItemsStep(n: nat, s: string, e: DayEntry, tail: string, es: seq<DayEntry>, rest: string)
    requires n > 0 && DecEntry(s) == Some((e, tail)) && |tail| < |s|
    requires DecEntryItems(n - 1, tail) == Some((es, rest))
    ensures DecEntryItems(n, s) == Some(([e] + es, rest))
  {
  }

  lemma {:induction false} DecEntryItemsCons(es: seq<DayEntry>, rest: string)
    requires es != []
    requires DecEntryItems(|es| - 1, EncEntryItems(es[1..]) + rest) == Some((es[1..], rest))
    ensures DecEntryItems(|es|, EncEntryItems(es) + rest) == Some((es, rest))
  {
    var tail := EncEntryItems(es[1..]) + rest;
    assert EncEntryItems(es) + rest == EncEntry(es[0]) + tail;
    DecEntryItemsHead(|es|, es[0], tail, es[1..], rest);
    assert [es[0]] + es[1..] == es;
  }

  lemma DecEntryItemsHead(n: nat, e: DayEntry, tail: string, es: seq<DayEntry>, rest: string)
    requires n > 0 && DecEntryItems(n - 1, tail) == Some((es, rest))
    ensures DecEntryItems(n, EncEntry(e) + tail) == Some(([e] + es, rest))
  {
    DecEntryEnc(e, tail);
    EntryEncodingNonEmpty(e);
    DecEntryItemsStep(n, EncEntry(e) + tail, e, tail, es, rest);
  }

  lemma {:induction false} DecEntryItemsEnc(es: seq<DayEntry>, rest: string)
    ensures DecEntryItems(|es|, EncEntryItems(es) + rest) == Some((es, rest))
  {
    if es == [] {
      assert EncEntryItems(es) + rest == rest;
    } else {
      DecEntryItemsEnc(es[1..], rest);
      DecEntryItemsCons(es, rest);
    }
  }


  lemma AttachmentEncodingNonEmpty(a: Attachment)
    ensures |EncAttachment(a)| > 0
  {
    EncNatNonEmpty(a.size);
  }

  function EncAttachmentItems(xs: seq<Attachment>): string {
    if xs == [] then "" else EncAttachment(xs[0]) + EncAttachmentItems(xs[1..])
  }

  function DecAttachmentItems(n: nat, s: string): Option<(seq<Attachment>, string)> {
    if n == 0 then Some(([], s))
    else
      match DecAttachment(s)
      case None => None
      case Some((a, r)) =>
        if |r| < |s| then
          match DecAttachmentItems(n - 1, r)
          case None => None
          case Some((xs, r2)) => Some(([a] + xs, r2))
        else None
  }

  lemma DecAttachmentItemsStep(n: nat, s: string, a: Attachment, tail: string, xs: seq<Attachment>, rest: string)
    requires n > 0 && DecAttachment(s) == Some((a, tail)) && |tail| < |s|
    requires DecAttachmentItems(n - 1, tail) == Some((xs, rest))
    ensures DecAttachmentItems(n, s) == Some(([a] + xs, rest))
  {
  }

  lemma {:induction false} DecAttachmentItemsCons(xs: seq<Attachment>, rest: string)
    requires xs != []
    requires DecAttachmentItems(|xs| - 1, EncAttachmentItems(xs[1..]) + rest) == Some((xs[1..], rest))
    ensures DecAttachmentItems(|xs|, EncAttachmentItems(xs) + rest) == Some((xs, rest))
  {
    var tail := EncAttachmentItems(xs[1..]) + rest;
    assert EncAttachmentItems(xs) + rest == EncAttachment(xs[0]) + tail;
    DecAttachmentItemsHead(|xs|, xs[0], tail, xs[1..], rest);
    assert [xs[0]] + xs[1..] == xs;
  }

  lemma DecAttachmentItemsHead(n: nat, a: Attachment, tail: string, xs: seq<Attachment>, rest: string)
    requires n > 0 && DecAttachmentItems(n - 1, tail) == Some((xs, rest))
    ensures DecAttachmentItems(n, EncAttachment(a) + tail) == Some(([a] + xs, rest))
  {
    DecAttachmentEnc(a, tail);
    AttachmentEncodingNonEmpty(a);
    DecAttachmentItemsStep(n, EncAttachment(a) + tail, a, tail, xs, rest);
  }

  lemma {:induction false} DecAttachmentItemsEnc(xs: seq<Attachment>, rest: string)
    ensures DecAttachmentItems(|xs|, EncAttachmentItems(xs) + rest) == Some((xs, rest))
  {
    if xs == [] {
      assert EncAttachmentItems(xs) + rest == rest;
    } else {
      DecAttachmentItemsEnc(xs[1..], rest);
      DecAttachmentItemsCons(xs, rest);
    }
  }


  /** `JSON.stringify(entries)`: never the empty text, even for no entries. */
  function EncodeEntries(es: seq<DayEntry>): (r: string)
    ensures r != []
  {
    EncNat(|es|) + EncEntryItems(es)
  }

  /** `JSON.parse(cell)`; None stands for the exception thrown on malformed text. */
  function DecodeEntries(s: string): Option<seq<DayEntry>> {
    match DecNat(s)
    case None => None
    case Some((n, r)) =>
      match DecEntryItems(n, r)
      case Some((es, rest)) => if rest == [] then Some(es) else None
      case None => None
  }

  function EncodeAttachments(xs: seq<Attachment>): (r: string)
    ensures r != []
  {
    EncNat(|xs|) + EncAttachmentItems(xs)
  }

  function DecodeAttachments(s: string): Option<seq<Attachment>> {
    match DecNat(s)
    case None => None
    case Some((n, r)) =>
      match DecAttachmentItems(n, r)
      case Some((xs, rest)) => if rest == [] then Some(xs) else None
      case None => None
  }

  /** Reading an entries cell gives back exactly the entries written to it. */
  lemma EntriesRoundTrip(es: seq<DayEntry>)
    ensures DecodeEntries(EncodeEntries(es)) == Some(es)
  {
    DecEntryItemsEnc(es, "");
    assert EncEntryItems(es) + "" == EncEntryItems(es);
    DecNatEnc(|es|, EncEntryItems(es));
  }

  /** Reading an attachments cell gives back exactly the attachments written to it. */
  lemma AttachmentsRoundTrip(xs: seq<Attachment>)
    ensures DecodeAttachments(EncodeAttachments(xs)) == Some(xs)
  {
    DecAttachmentItemsEnc(xs, "");
    assert EncAttachmentItems(xs) + "" == EncAttachmentItems(xs);
    DecNatEnc(|xs|, EncAttachmentItems(xs));
  }
}
