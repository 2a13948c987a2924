/**
 * The attachment gallery: the page's list of attachments to show and its
 * open flag, and the gallery's selected index, moved by the arrows (cyclically)
 * and by the thumbnails. Icons and sizes are those of `FileDisplay`.
 */
module AttachmentGallery {
  import opened Wrappers
  import opened Text
  import opened Types
  import opened FileDisplay

  /**
   * `goNext`: `(prev + 1) % n`. The index is never negative, so the
   * remainder of the source and Dafny's agree.
   */
  function Next(i: nat, n: nat): (r: nat)
    requires n > 0
    ensures r < n
    ensures i + 1 < n ==> r == i + 1
    ensures i + 1 == n ==> r == 0
  {
    (i + 1) % n
  }

  /** `goPrev`: `(prev - 1 + n) % n`. */
  function Prev(i: nat, n: nat): (r: nat)
    requires n > 0
    ensures r < n
    ensures 0 < i < n ==> r == i - 1
    ensures i == 0 ==> r == n - 1
  {
    (i - 1 + n) % n
  }

  /** The two arrows undo each other. */
  lemma ArrowsAreInverse(i: nat, n: nat)
    requires i < n
    ensures Prev(Next(i, n), n) == i
    ensures Next(Prev(i, n), n) == i
  {
  }

  /** The index after pressing ▶ `k` times. */
  function NextTimes(i: nat, k: nat, n: nat): (r: nat)
    requires n > 0 && i < n
    ensures r < n
    decreases k
  {
    if k == 0 then i else NextTimes(Next(i, n), k - 1, n)
  }

  lemma {:induction false} NextTimesAdd(i: nat, a: nat, b: nat, n: nat)
    requires n > 0 && i < n
    ensures NextTimes(i, a + b, n) == NextTimes(NextTimes(i, a, n), b, n)
    decreases a
  {
    if a > 0 {
      NextTimesAdd(Next(i, n), a - 1, b, n);
    }
  }

  /** From `i`, pressing ▶ `j - i` times reaches a later index `j`. */
  lemma {:induction false} NextTimesForward(i: nat, j: nat, n: nat)
    requires i <= j < n
    ensures NextTimes(i, j - i, n) == j
    decreases j - i
  {
    if i < j {
      NextTimesForward(i + 1, j, n);
    }
  }

  /** Pressing ▶ often enough shows every attachment, whatever the current one. */
  lemma EveryAttachmentReachable(i: nat, j: nat, n: nat)
    requires i < n && j < n
    ensures exists k :: 0 <= k < n && NextTimes(i, k, n) == j
  {
    if i <= j {
      NextTimesForward(i, j, n);
      assert NextTimes(i, j - i, n) == j;
    } else {
      NextTimesForward(i, n - 1, n);
      NextTimesForward(0, j, n);
      NextTimesAdd(i, n - 1 - i, 1 + j, n);
      assert NextTimes(n - 1, 1 + j, n) == NextTimes(0, j, n);
      assert NextTimes(i, n - i + j, n) == j;
    }
  }

  /** The arrows are shown only for more than one attachment. */
  predicate ArrowsShown(n: nat) {
    n > 1
  }

  /**
   * A thumbnail: an image shows `thumbnailUrl || url`; any other file shows
   * its icon (None here).
   */
  function ThumbnailSource(a: Attachment): (r: Option<string>)
    ensures r.Some? <==> StartsWith(a.mimeType, "image/")
    ensures r.Some? && a.thumbnailUrl != "" ==> r.value == a.thumbnailUrl
    ensures r.Some? && a.thumbnailUrl == "" ==> r.value == a.url
  {
    if StartsWith(a.mimeType, "image/") then Some(if a.thumbnailUrl != "" then a.thumbnailUrl else a.url)
    else None
  }

  /** A file that gets no thumbnail image is shown by its icon, and that icon is never the image icon. */
  lemma IconForOtherFiles(a: Attachment)
    requires ThumbnailSource(a).None?
    ensures FileIcon(a.mimeType) != ImageIcon
  {
  }

  /**
   * The page's `galleryAttachments` and `showGallery`, with the gallery's
   * `selectedIndex`. The gallery stays mounted while closed, so the index
   * survives from one opening to the next.
   */
  class Gallery {
    var attachments: seq<Attachment>
    var isOpen: bool
    var selected: nat

    /** The index names an attachment whenever there is one. */
    predicate Valid()
      reads this
    {
      |attachments| > 0 ==> selected < |attachments|
    }

    /** `attachments[selectedIndex]`; None is `undefined`, whose `mimeType` the main view cannot read. */
    function Current(): (r: Option<Attachment>)
      reads this
      ensures r.Some? <==> selected < |attachments|
      ensures r.Some? ==> r.value == attachments[selected]
    {
      if selected < |attachments| then Some(attachments[selected]) else None
    }

    constructor ()
      ensures attachments == [] && !isOpen && selected == 0
      ensures Valid()
    {
      attachments := [];
      isOpen := false;
      selected := 0;
    }

    /** `handleViewAttachments(list)` as written: the list and the open flag change, the index does not. */
    method OpenAsWritten(list: seq<Attachment>)
      modifies this
      ensures attachments == list && isOpen && selected == old(selected)
    {
      attachments := list;
      isOpen := true;
    }

    /** `handleViewAttachments(list)` with the gallery starting at the first attachment. */
    method Open(list: seq<Attachment>)
      modifies this
      ensures attachments == list && isOpen && selected == 0
      ensures Valid()
      ensures |list| > 0 ==> Current() == Some(list[0])
    {
      attachments := list;
      isOpen := true;
      selected := 0;
    }

    /** `onClose`: only the flag changes. */
    method Close()
      modifies this
      ensures !isOpen && attachments == old(attachments) && selected == old(selected)
      ensures old(Valid()) ==> Valid()
    {
      isOpen := false;
    }

    /** The ▶ arrow, which exists only when `ArrowsShown`. Any index, even a stale one, lands in range. */
    method GoNext()
      requires ArrowsShown(|attachments|)
      modifies this
      ensures attachments == old(attachments) && isOpen == old(isOpen)
      ensures selected == Next(old(selected), |attachments|)
      ensures Valid()
    {
      selected := (selected + 1) % |attachments|;
    }

    /** The ◀ arrow. */
    method GoPrev()
      requires ArrowsShown(|attachments|)
      modifies this
      ensures attachments == old(attachments) && isOpen == old(isOpen)
      ensures selected == Prev(old(selected), |attachments|)
      ensures Valid()
    {
      selected := (selected - 1 + |attachments|) % |attachments|;
    }

    /** A thumbnail click selects that thumbnail's index. */
    method Select(index: nat)
      requires index < |attachments|
      modifies this
      ensures selected == index && attachments == old(attachments) && isOpen == old(isOpen)
      ensures Valid() && Current() == Some(attachments[index])
    {
      selected := index;
    }
  }

  /**
   * As written, opening the gallery for a day with one file after looking at
   * the third file of another day leaves the index past the end: the open
   * gallery has no current attachment.
   */
  method StaleIndexAsWritten(a: Attachment) returns (g: Gallery)
    ensures g.isOpen && g.attachments == [a] && g.Current().None? && !g.Valid()
  {
    g := new Gallery();
    g.OpenAsWritten([a, a, a]);
    g.GoNext();
    g.GoNext();
    g.Close();
    g.OpenAsWritten([a]);
  }

  /** With the index reset on opening, the same steps show the one file. */
  method SameStepsCorrected(a: Attachment) returns (g: Gallery)
    ensures g.isOpen && g.attachments == [a] && g.Current() == Some(a) && g.Valid()
  {
    g := new Gallery();
    g.Open([a, a, a]);
    g.GoNext();
    g.GoNext();
    g.Close();
    g.Open([a]);
  }
}
