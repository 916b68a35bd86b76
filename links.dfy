/**
 * The incremental link crawler: starting the day after the latest game in
 * the stored game table and ending today, it reads each day's scoreboard
 * page, keeps the "Box Score" anchors, and writes the distinct links in
 * sorted order to the link table (header `box_score_url`).  The HTTP fetch
 * is the function parameter `fetch`; `None` stands for a failed request.
 */
module Links {
  import opened Common
  import opened Dates
  import opened Ordering

  const SiteBase := "https://www.basketball-reference.com"
  const BoxScoreText := "Box Score"

  /** An `<a>` element: its text and its `href` attribute, if present. */
  datatype Anchor = Anchor(text: string, href: Option<string>)

  /** A Box Score anchor with a non-empty link. */
  predicate IsBoxScoreLink(a: Anchor)
  {
    a.text == BoxScoreText && a.href.Some? && a.href.value != ""
  }

  /** The absolute links of a page's Box Score anchors, in page order. */
  function PageLinks(anchors: seq<Anchor>): (r: seq<string>)
    ensures |r| <= |anchors|
  {
    if |anchors| == 0 then []
    else
      var a := anchors[|anchors| - 1];
      var rest := PageLinks(anchors[..|anchors| - 1]);
      if IsBoxScoreLink(a) then rest + [SiteBase + a.href.value] else rest
  }

  /** Every Box Score anchor with a link contributes it, and nothing else is kept. */
  lemma {:induction false} PageLinksContents(anchors: seq<Anchor>)
    ensures forall i :: 0 <= i < |anchors| && IsBoxScoreLink(anchors[i]) ==> SiteBase + anchors[i].href.value in PageLinks(anchors)
    ensures forall x :: x in PageLinks(anchors) ==>
      StartsWith(x, SiteBase) &&
      exists i :: 0 <= i < |anchors| && IsBoxScoreLink(anchors[i]) && x == SiteBase + anchors[i].href.value
  {
    if |anchors| > 0 {
      var init := anchors[..|anchors| - 1];
      PageLinksContents(init);
      assert forall i :: 0 <= i < |init| ==> init[i] == anchors[i];
      var a := anchors[|anchors| - 1];
      if IsBoxScoreLink(a) {
        assert (SiteBase + a.href.value)[..|SiteBase|] == SiteBase;
      }
    }
  }

  /** The links of one day; a failed request yields none. */
  function DayLinks(fetch: Date -> Option<seq<Anchor>>, d: Date): seq<string>
  {
    match fetch(d)
    case None => []
    case Some(page) => PageLinks(page)
  }

  /** One scoreboard request (`get_links_for_date`). */
  method LinksForDate(fetch: Date -> Option<seq<Anchor>>, d: Date) returns (links: seq<string>)
    ensures links == DayLinks(fetch, d)
  {
    var page := fetch(d);
    links := [];
    if page.Some? {
      var anchors := page.value;
      for i := 0 to |anchors|
        invariant links == PageLinks(anchors[..i])
      {
        assert anchors[..i + 1][..i] == anchors[..i];
        var a := anchors[i];
        if a.text == BoxScoreText && a.href.Some? && a.href.value != "" {
          links := links + [SiteBase + a.href.value];
        }
      }
      assert anchors[..|anchors|] == anchors;
    }
  }

  /** `d + timedelta(days = n)`. */
  function AddDays(d: Date, n: nat): (r: Date)
    requires ValidDate(d)
    ensures ValidDate(r) && DayNumber(r) == DayNumber(d) + n
  {
    if n == 0 then d else NextDay(AddDays(d, n - 1))
  }

  /** The `n` consecutive days starting at `start`. */
  function DatesFrom(start: Date, n: nat): (r: seq<Date>)
    requires ValidDate(start)
    ensures |r| == n
    ensures forall i :: 0 <= i < n ==> ValidDate(r[i]) && DayNumber(r[i]) == DayNumber(start) + i
  {
    seq(n, i requires 0 <= i < n && ValidDate(start) => AddDays(start, i))
  }

  /** Every calendar day of the window is visited, and no other. */
  lemma DatesFromCovers(start: Date, n: nat, d: Date)
    requires ValidDate(start) && ValidDate(d)
    ensures d in DatesFrom(start, n) <==> DayNumber(start) <= DayNumber(d) < DayNumber(start) + n
  {
    var r := DatesFrom(start, n);
    if DayNumber(start) <= DayNumber(d) < DayNumber(start) + n {
      var i := DayNumber(d) - DayNumber(start);
      DayNumberOrder(r[i], d);
    }
  }

  /** The days are visited in calendar order, so each one once. */
  lemma DatesFromAscending(start: Date, n: nat)
    requires ValidDate(start)
    ensures forall i, j :: 0 <= i < j < n ==> CalendarBefore(DatesFrom(start, n)[i], DatesFrom(start, n)[j])
  {
    var r := DatesFrom(start, n);
    forall i, j | 0 <= i < j < n ensures CalendarBefore(r[i], r[j]) {
      DayNumberOrder(r[i], r[j]);
    }
  }

  /** The links of all days, concatenated in day order. */
  function AllLinks(fetch: Date -> Option<seq<Anchor>>, days: seq<Date>): seq<string>
  {
    if |days| == 0 then []
    else AllLinks(fetch, days[..|days| - 1]) + DayLinks(fetch, days[|days| - 1])
  }

  lemma AllLinksSnoc(fetch: Date -> Option<seq<Anchor>>, days: seq<Date>, d: Date)
    ensures AllLinks(fetch, days + [d]) == AllLinks(fetch, days) + DayLinks(fetch, d)
  {
    assert (days + [d])[..|days|] == days;
  }

  lemma {:induction false} AllLinksContents(fetch: Date -> Option<seq<Anchor>>, days: seq<Date>)
    ensures forall x :: x in AllLinks(fetch, days) <==> exists k :: 0 <= k < |days| && x in DayLinks(fetch, days[k])
  {
    if |days| > 0 {
      var init := days[..|days| - 1];
      AllLinksContents(fetch, init);
      assert forall k :: 0 <= k < |init| ==> init[k] == days[k];
    }
  }

  lemma DatesFromSnoc(start: Date, n: nat)
    requires ValidDate(start)
    ensures DatesFrom(start, n + 1) == DatesFrom(start, n) + [AddDays(start, n)]
  {
  }

  /** The latest date in the stored column (`max()`). */
  function MaxDate(dates: seq<Date>): (m: Date)
    requires |dates| > 0
    ensures m in dates
    ensures forall i :: 0 <= i < |dates| ==> DayNumber(dates[i]) <= DayNumber(m)
  {
    if |dates| == 1 then dates[0]
    else
      var rest := MaxDate(dates[1..]);
      assert forall i :: 0 < i < |dates| ==> dates[i] == dates[1..][i - 1];
      if DayNumber(dates[0]) >= DayNumber(rest) then dates[0] else rest
  }

  /**
   * How a run ends: no game table (the crawler stops without writing), an
   * empty one (the latest date is undefined and formatting it fails), or the
   * link table written with the days queried and the links saved.
   */
  datatype LinksRun = MissingGameTable | EmptyGameTable | Written(queried: seq<Date>, urls: seq<string>)

  /** The number of days from `start` through `today`; none when `start` is later. */
  function WindowLength(start: Date, today: Date): (n: nat)
    ensures DayNumber(start) <= DayNumber(today) ==> n == DayNumber(today) - DayNumber(start) + 1
    ensures DayNumber(start) > DayNumber(today) ==> n == 0
  {
    if DayNumber(start) > DayNumber(today) then 0 else DayNumber(today) - DayNumber(start) + 1
  }

  /** The whole crawl over the stored game dates (`None`: the file is missing). */
  method UpdateLinks(table: Option<seq<Date>>, today: Date, fetch: Date -> Option<seq<Anchor>>)
    returns (run: LinksRun)
    requires table.Some? ==> forall i :: 0 <= i < |table.value| ==> ValidDate(table.value[i])
    requires ValidDate(today)
    ensures table.None? <==> run.MissingGameTable?
    ensures table.Some? && |table.value| == 0 <==> run.EmptyGameTable?
    ensures run.Written? ==>
      var start := NextDay(MaxDate(table.value));
      run.queried == DatesFrom(start, WindowLength(start, today)) &&
      run.urls == SortedUnique(AllLinks(fetch, run.queried))
  {
    if table.None? {
      return MissingGameTable;
    }
    var dates := table.value;
    if |dates| == 0 {
      return EmptyGameTable;
    }
    var last := MaxDate(dates);
    var start := NextDay(last);
    if DayNumber(start) > DayNumber(today) {
      return Written([], []);
    }
    var queried: seq<Date> := [];
    var all: seq<string> := [];
    var current := start;
    while DayNumber(current) <= DayNumber(today)
      invariant ValidDate(current)
      invariant DayNumber(current) <= DayNumber(today) + 1
      invariant queried == DatesFrom(start, |queried|)
      invariant current == AddDays(start, |queried|)
      invariant all == AllLinks(fetch, queried)
      decreases DayNumber(today) - DayNumber(current)
    {
      var links := LinksForDate(fetch, current);
      DatesFromSnoc(start, |queried|);
      AllLinksSnoc(fetch, queried, current);
      queried := queried + [current];
      if |links| > 0 {
        all := all + links;
      } else {
        assert all + links == all;
      }
      current := NextDay(current);
    }
    run := Written(queried, SortedUnique(all));
  }

  /**
   * What the link table holds: each link found on a queried day exactly
   * once, in increasing order, and the queried days are exactly those after
   * the latest stored game up to today.
   */
  lemma LinkTableContents(table: seq<Date>, today: Date, fetch: Date -> Option<seq<Anchor>>, queried: seq<Date>, urls: seq<string>)
    requires |table| > 0 && forall i :: 0 <= i < |table| ==> ValidDate(table[i])
    requires ValidDate(today)
    requires queried == DatesFrom(NextDay(MaxDate(table)), WindowLength(NextDay(MaxDate(table)), today))
    requires urls == SortedUnique(AllLinks(fetch, queried))
    ensures forall d :: ValidDate(d) ==>
      (d in queried <==> DayNumber(MaxDate(table)) < DayNumber(d) <= DayNumber(today))
    ensures forall d :: ValidDate(d) && d in queried ==> forall i :: 0 <= i < |table| ==> CalendarBefore(table[i], d)
    ensures StrictlyIncreasing(urls)
    ensures forall x :: x in urls <==> exists k :: 0 <= k < |queried| && x in DayLinks(fetch, queried[k])
  {
    var last := MaxDate(table);
    var start := NextDay(last);
    var n := WindowLength(start, today);
    AllLinksContents(fetch, queried);
    forall d | ValidDate(d)
      ensures d in queried <==> DayNumber(last) < DayNumber(d) <= DayNumber(today)
    {
      DatesFromCovers(start, n, d);
    }
    forall d | ValidDate(d) && d in queried
      ensures forall i :: 0 <= i < |table| ==> CalendarBefore(table[i], d)
    {
      forall i | 0 <= i < |table| ensures CalendarBefore(table[i], d) {
        DayNumberOrder(table[i], d);
      }
    }
  }
}
