/** The paging links of an entity collection response: from the pager's
    (start, num, total) the response derives a link to the next page and a link
    to the previous page, each "path?start=S&num=N", or null. */
module EntityPager {
  import opened Wrappers
  import opened Strings

  /** A page of a collection: the first row, the page size and the total
      number of rows the query matches. */
  datatype Pager = Pager(start: nat, num: nat, total: nat)

  /** Where the next page starts; None once this page reaches the last row. */
  function NextStart(p: Pager): (r: Option<nat>)
    ensures r.None? <==> p.start + p.num >= p.total
    ensures r.Some? ==> r.value == p.start + p.num && r.value < p.total
  {
    if p.start + p.num < p.total then Some(p.start + p.num) else None
  }

  /** Where the previous page starts; None on the first page. A previous page
      that would begin before row 0 begins at row 0. */
  function PrevStart(p: Pager): (r: Option<nat>)
    ensures r.None? <==> p.start == 0
    ensures r.Some? ==> r.value <= p.start && (p.num > 0 ==> r.value < p.start)
    ensures r.Some? && p.start >= p.num ==> r.value + p.num == p.start
    ensures r.Some? && p.start < p.num ==> r.value == 0
  {
    if p.start == 0 then None
    else if p.start >= p.num then Some(p.start - p.num)
    else Some(0)
  }

  /** The text of a link to the page of num rows starting at start. */
  function LinkHref(path: string, start: nat, num: nat): string {
    path + "?start=" + NatToString(start) + "&num=" + NatToString(num)
  }

  function NextHref(path: string, p: Pager): (r: Option<string>)
    ensures r.None? <==> p.start + p.num >= p.total
    ensures r.Some? ==> r.value == LinkHref(path, p.start + p.num, p.num)
  {
    match NextStart(p)
    case None => None
    case Some(s) => Some(LinkHref(path, s, p.num))
  }

  function PrevHref(path: string, p: Pager): (r: Option<string>)
    ensures r.None? <==> p.start == 0
    ensures r.Some? && p.start >= p.num ==> r.value == LinkHref(path, p.start - p.num, p.num)
  {
    match PrevStart(p)
    case None => None
    case Some(s) => Some(LinkHref(path, s, p.num))
  }

  /** The previous link depends on start and num only, never on total. */
  lemma PrevHrefIgnoresTotal(path: string, start: nat, num: nat, total1: nat, total2: nat)
    ensures PrevHref(path, Pager(start, num, total1)) == PrevHref(path, Pager(start, num, total2))
  {
  }

  /** Stepping forward and then back returns to the same page. */
  lemma PrevOfNext(p: Pager)
    requires p.num > 0 && NextStart(p).Some?
    ensures PrevStart(Pager(NextStart(p).value, p.num, p.total)) == Some(p.start)
  {
  }

  /** Stepping back from a page past the first full page and then forward
      returns to the same page, as long as that page holds rows. */
  lemma NextOfPrev(p: Pager)
    requires p.start >= p.num > 0 && p.start < p.total
    ensures NextStart(Pager(PrevStart(p).value, p.num, p.total)) == Some(p.start)
  {
  }

  /** The starts of the pages visited by following next links from p. */
  function Walk(p: Pager): (w: seq<nat>)
    requires p.num > 0
    ensures |w| >= 1 && w[0] == p.start
    decreases p.total - p.start
  {
    match NextStart(p)
    case None => [p.start]
    case Some(n) => [p.start] + Walk(Pager(n, p.num, p.total))
  }

  /** Following next links pages through the collection without gaps or
      overlaps: each page begins where the previous one ended, every page but
      the last ends before the last row, and the last page reaches it. So the
      pages together hold exactly the rows from start on. */
  lemma {:induction false} WalkTilesRows(p: Pager)
    requires p.num > 0
    ensures var w := Walk(p);
      && (forall i :: 0 <= i < |w| - 1 ==> w[i + 1] == w[i] + p.num && w[i] + p.num < p.total)
      && w[|w| - 1] + p.num >= p.total
    decreases p.total - p.start
  {
    match NextStart(p)
    case None =>
    case Some(n) =>
      var q := Pager(n, p.num, p.total);
      WalkTilesRows(q);
      var w, v := Walk(p), Walk(q);
      assert w == [p.start] + v;
      forall i | 0 <= i < |w| - 1
        ensures w[i + 1] == w[i] + p.num && w[i] + p.num < p.total
      {
        if i > 0 {
          assert w[i] == v[i - 1] && w[i + 1] == v[i];
        }
      }
  }

  lemma RenderTen()
    ensures NatToString(10) == "10" && NatToString(20) == "20" && NatToString(0) == "0"
    ensures NatToString(15) == "15" && NatToString(25) == "25"
  {
    assert NatToString(1) == "1";
    assert NatToString(2) == "2";
  }

  /** The links the collection response gives for the pagers (0, 10, 25),
      (10, 10, 25) and (0, 25, 25) on path "/test". */
  lemma NextHrefExamples()
    ensures NextHref("/test", Pager(0, 10, 25)) == Some("/test?start=10&num=10")
    ensures NextHref("/test", Pager(10, 10, 25)) == Some("/test?start=20&num=10")
    ensures NextHref("/test", Pager(0, 25, 25)) == None
  {
    RenderTen();
    assert LinkHref("/test", 10, 10) == "/test?start=10&num=10";
    assert LinkHref("/test", 20, 10) == "/test?start=20&num=10";
  }

  /** The previous links for (0, 15, 30), (15, 15, 30) and (30, 15, 30). */
  lemma PrevHrefExamples()
    ensures PrevHref("/test", Pager(0, 15, 30)) == None
    ensures PrevHref("/test", Pager(15, 15, 30)) == Some("/test?start=0&num=15")
    ensures PrevHref("/test", Pager(30, 15, 30)) == Some("/test?start=15&num=15")
  {
    RenderTen();
    assert LinkHref("/test", 0, 15) == "/test?start=0&num=15";
    assert LinkHref("/test", 15, 15) == "/test?start=15&num=15";
  }
}
