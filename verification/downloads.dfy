/** A row of the legacy downloads list: how a download's size and received
    byte count are shown (a size label, its colour, a determinate and an
    indeterminate progress bar, the percentage) and the size reset for a
    server that reported too small a size. */
module Downloads {
  import opened Strings
  import Favicons

  /** A download record; the view and the download service may hold the
      same one. */
  class Download {
    var filename: string
    var size: int
    var bytesReceived: int

    constructor (filename: string, size: int, bytesReceived: int)
      ensures this.filename == filename && this.size == size && this.bytesReceived == bytesReceived
    {
      this.filename := filename;
      this.size := size;
      this.bytesReceived := bytesReceived;
    }
  }

  datatype Visibility = Visible | Invisible | Gone

  /** The text of the size label; sizes stand for their short formatting. */
  datatype SizeLabel =
    | NoLabel
    | CancelledLabel
    | ErrorLabel
    | Received(bytes: int)
    | Complete(size: int)
    | ReceivedOf(bytes: int, size: int)

  datatype Display = Display(text: SizeLabel, red: bool, bar: Visibility, bar2: Visibility)

  /** Kotlin's `/` on Long: the quotient truncated toward zero. */
  function TruncDiv(a: int, b: int): (q: int)
    requires b > 0
    ensures a >= 0 ==> q == a / b
    ensures a < 0 ==> q == -((-a) / b)
  {
    if a >= 0 then a / b else -((-a) / b)
  }

  /** The progress bar's value: `(bytesReceived * 100 / size).toInt()`. */
  function Percent(bytes: int, size: int): (p: Favicons.int32)
    requires size > 0
    ensures bytes >= 0 && bytes * 100 / size < 0x8000_0000 ==> p as int == bytes * 100 / size
    ensures bytes < 0 && -(bytes * -100 / size) >= -0x8000_0000 ==> p as int == -(bytes * -100 / size)
  {
    var q := TruncDiv(bytes * 100, size);
    Favicons.Wrap32(q)
  }

  /** A quotient below k: n < k * d gives n / d < k. */
  lemma DivBelow(n: int, d: int, k: int)
    requires d > 0 && 0 <= n && n < k * d
    ensures 0 <= n / d < k
  {
    assert n == n / d * d + n % d;
  }

  /** Multiplying by a non-negative number keeps the order. */
  lemma MulMonotone(x: int, y: int, d: int)
    requires x <= y && d >= 0
    ensures x * d <= y * d
  {
    var e := y - x;
    assert y * d == x * d + e * d;
  }

  /** Division by a positive number keeps the order. */
  lemma DivMonotone(a: int, b: int, d: int)
    requires d > 0 && 0 <= a <= b
    ensures a / d <= b / d
  {
    var qa, qb := a / d, b / d;
    assert a == qa * d + a % d;
    assert b == qb * d + b % d;
    if qa > qb {
      MulMonotone(qb + 1, qa, d);
      assert false;
    }
  }

  /** While some but not all bytes have arrived, the percentage lies in
      0..99. */
  lemma PercentRange(bytes: int, size: int)
    requires 0 <= bytes < size
    ensures 0 <= Percent(bytes, size) as int < 100
  {
    var n := bytes * 100;
    assert n < 100 * size;
    DivBelow(n, size, 100);
    assert TruncDiv(n, size) == n / size;
  }

  /** More bytes never show a smaller percentage. */
  lemma PercentMonotone(b1: int, b2: int, size: int)
    requires 0 <= b1 <= b2 < size
    ensures Percent(b1, size) <= Percent(b2, size)
  {
    var n1, n2 := b1 * 100, b2 * 100;
    assert n1 < 100 * size && n2 < 100 * size;
    DivBelow(n1, size, 100);
    DivBelow(n2, size, 100);
    DivMonotone(n1, n2, size);
    assert Percent(b1, size) as int == n1 / size;
    assert Percent(b2, size) as int == n2 / size;
  }

  /** What `updateUI` shows for a size and byte count; None for a negative
      size that is neither mark, for which nothing shown changes but the
      colour. */
  function Classify(size: int, bytes: int, cancelledMark: int, brokenMark: int): (r: Option<Display>)
    ensures r.None? <==> size != cancelledMark && size != brokenMark && size < 0
    ensures r.Some? ==> (r.value.red <==> size == brokenMark && size != cancelledMark)
    ensures r.Some? ==> (r.value.bar == Visible <==> size != cancelledMark && size != brokenMark && size > 0 && bytes != size)
    ensures r.Some? ==> (r.value.bar2 == Visible <==> size != cancelledMark && size != brokenMark && size == 0)
    ensures r.Some? && size == cancelledMark ==> r.value.text == CancelledLabel
    ensures r.Some? && r.value.text.Complete? ==> bytes == size && r.value.text.size == size
    ensures size != cancelledMark && size == brokenMark ==> r.Some? && r.value.text == ErrorLabel
    ensures size != cancelledMark && size != brokenMark && size == 0 ==> r.Some? && r.value.text == Received(bytes)
    ensures size != cancelledMark && size != brokenMark && size > 0 && bytes == size ==>
              r.Some? && r.value.text == Complete(size)
    ensures size != cancelledMark && size != brokenMark && size > 0 && bytes != size ==>
              r.Some? && r.value.text == ReceivedOf(bytes, size)
  {
    if size == cancelledMark then Some(Display(CancelledLabel, false, Invisible, Gone))
    else if size == brokenMark then Some(Display(ErrorLabel, true, Invisible, Gone))
    else if size == 0 then Some(Display(Received(bytes), false, Invisible, Visible))
    else if size > 0 then
      if size == bytes then Some(Display(Complete(size), false, Invisible, Gone))
      else Some(Display(ReceivedOf(bytes, size), false, Visible, Gone))
    else None
  }

  /** A download still in progress by its size: positive, not a mark, and
      not all received. */
  predicate InProgress(size: int, bytes: int, cancelledMark: int, brokenMark: int) {
    size != cancelledMark && size != brokenMark && size > 0 && size != bytes
  }

  class DownloadListItemView {
    /** The download the row was bound to, if any. */
    var held: Download?
    var title: string
    var sizeText: SizeLabel
    var red: bool
    var bar: Visibility
    var bar2: Visibility
    var progress: Favicons.int32

    constructor ()
      ensures held == null && title == "" && sizeText == NoLabel && !red
      ensures bar == Visible && bar2 == Visible && progress == 0
    {
      held := null;
      title := "";
      sizeText := NoLabel;
      red := false;
      bar := Visible;
      bar2 := Visible;
      progress := 0;
    }

    /** `updateUI(download)`. The bound download first takes the update's
        size and byte count; a download in progress that has received more
        than its size gets size 0, so later updates show it as of unknown
        size; otherwise the percentage is shown. `download` may be the bound
        download itself. */
    method UpdateUI(download: Download, cancelledMark: int, brokenMark: int)
      modifies this, held, download
      ensures held == old(held) && title == download.filename
      ensures var s := old(download.size); var b := old(download.bytesReceived);
        var shown := Classify(s, b, cancelledMark, brokenMark);
        (shown.Some? ==> sizeText == shown.value.text && red == shown.value.red
                         && bar == shown.value.bar && bar2 == shown.value.bar2)
        && (shown.None? ==> sizeText == old(sizeText) && !red && bar == old(bar) && bar2 == old(bar2))
        && progress == (if InProgress(s, b, cancelledMark, brokenMark) && b <= s then Percent(b, s) else old(progress))
        && download.size == (if InProgress(s, b, cancelledMark, brokenMark) && b > s then 0 else s)
        && download.bytesReceived == b
        && (held != null && held != download ==> held.size == s && held.bytesReceived == b)
      ensures download.filename == old(download.filename)
      ensures held != null ==> held.filename == old(held.filename)
    {
      title := download.filename;
      if held != null {
        held.size := download.size;
        held.bytesReceived := download.bytesReceived;
      }
      red := false;
      if download.size == cancelledMark {
        sizeText := CancelledLabel;
        bar := Invisible;
        bar2 := Gone;
      } else if download.size == brokenMark {
        sizeText := ErrorLabel;
        red := true;
        bar := Invisible;
        bar2 := Gone;
      } else if download.size == 0 {
        sizeText := Received(download.bytesReceived);
        bar := Invisible;
        bar2 := Visible;
      } else if download.size > 0 {
        if download.size == download.bytesReceived {
          sizeText := Complete(download.size);
          bar := Invisible;
          bar2 := Gone;
        } else {
          sizeText := ReceivedOf(download.bytesReceived, download.size);
          bar := Visible;
          bar2 := Gone;
          if download.bytesReceived > download.size {
            download.size := 0;
          } else {
            progress := Percent(download.bytesReceived, download.size);
          }
        }
      }
    }

    /** The `download` setter: the row holds the new download and, when it
        is one and the row shows a download item, shows its title and
        updates as `updateUI` does. Header rows show a date, which is not
        modelled. */
    method SetDownload(value: Download?, isItemRow: bool, cancelledMark: int, brokenMark: int)
      modifies this, value
      ensures held == value
      ensures value == null || !isItemRow ==>
        title == old(title) && sizeText == old(sizeText) && red == old(red) && bar == old(bar)
        && bar2 == old(bar2) && progress == old(progress)
      ensures value == null || !isItemRow ==> value == null || (value.size == old(value.size) && value.bytesReceived == old(value.bytesReceived))
      ensures value != null && isItemRow ==>
        var s := old(value.size); var b := old(value.bytesReceived);
        var shown := Classify(s, b, cancelledMark, brokenMark);
        title == value.filename
        && (shown.Some? ==> sizeText == shown.value.text && red == shown.value.red
                            && bar == shown.value.bar && bar2 == shown.value.bar2)
        && (shown.None? ==> sizeText == old(sizeText) && !red && bar == old(bar) && bar2 == old(bar2))
        && progress == (if InProgress(s, b, cancelledMark, brokenMark) && b <= s then Percent(b, s) else old(progress))
        && value.size == (if InProgress(s, b, cancelledMark, brokenMark) && b > s then 0 else s)
        && value.bytesReceived == b
      ensures value != null ==> value.filename == old(value.filename)
    {
      held := value;
      if value != null && isItemRow {
        UpdateUI(value, cancelledMark, brokenMark);
      }
    }
  }
}
