/**
 * The filter options `_brfCreateJobData` derives from the job's page range
 * and orientation: a "page-ranges" option unless the whole document is
 * printed, and an "orientation-requested" option for a real orientation.
 * The option list is a map, since CUPS keeps at most one value per name.
 */
module JobOptions {
  import opened Wrappers
  import opened Decimal

  const IntMax: int := 0x7fff_ffff
  const IntMin: int := -0x8000_0000

  /** C `int`. */
  type Int32 = x: int | IntMin <= x <= IntMax

  /** `IPP_ORIENT_PORTRAIT` and `IPP_ORIENT_NONE`. */
  const OrientPortrait: int := 3
  const OrientNone: int := 7

  /** The job options this part reads (`pappl_pr_options_t`). */
  datatype PrintOptions = PrintOptions(firstPage: Int32, lastPage: Int32, orientationRequested: Int32)

  /**
   * The page range after `_brfCreateJobData` fills in the defaults it
   * writes back into the job options: a first page of 0 means page 1, a
   * last page of 0 means `INT_MAX`.
   */
  function NormalizePages(o: PrintOptions): (r: PrintOptions)
    ensures r.firstPage != 0 && r.lastPage != 0
    ensures r.orientationRequested == o.orientationRequested
    ensures o.firstPage != 0 ==> r.firstPage == o.firstPage
    ensures o.lastPage != 0 ==> r.lastPage == o.lastPage
    ensures o.firstPage == 0 ==> r.firstPage == 1
    ensures o.lastPage == 0 ==> r.lastPage == IntMax
  {
    o.(firstPage := if o.firstPage == 0 then 1 else o.firstPage,
       lastPage := if o.lastPage == 0 then IntMax else o.lastPage)
  }

  /** Filling in the defaults twice is filling them in once. */
  lemma NormalizePagesIdempotent(o: PrintOptions)
    ensures NormalizePages(NormalizePages(o)) == NormalizePages(o)
  {
  }

  /**
   * The "page-ranges" value: present exactly when the normalised range
   * does not cover every page, written as `%d-%d`.
   */
  function PageRanges(o: PrintOptions): (r: Option<string>)
    ensures var n := NormalizePages(o);
      && (r.Some? <==> n.firstPage > 1 || n.lastPage < IntMax)
      && (r.Some? ==> r.value == IntToString(n.firstPage) + "-" + IntToString(n.lastPage))
  {
    var n := NormalizePages(o);
    if n.firstPage > 1 || n.lastPage < IntMax then
      Some(IntToString(n.firstPage) + "-" + IntToString(n.lastPage))
    else None
  }

  /** Unset pages and the explicit range 1 to `INT_MAX` both mean the whole document. */
  lemma WholeDocumentNoRange(orientation: Int32)
    ensures PageRanges(PrintOptions(0, 0, orientation)) == None
    ensures PageRanges(PrintOptions(1, IntMax, orientation)) == None
    ensures PageRanges(PrintOptions(0, IntMax, orientation)) == None
  {
  }

  /** `a-b` written with `%d-%d` reads back as `a` before the dash and `b` after it. */
  lemma ReadDashed(a: nat, b: nat)
    ensures var s := NatToString(a) + "-" + NatToString(b);
      var d := |LeadingDigits(s)|;
      && d < |s| && s[d] == '-'
      && Atoi(s) == a
      && Atoi(s[d + 1..]) == b
  {
    var f, l := NatToString(a), NatToString(b);
    var s := f + "-" + l;
    DigitsBeforeDash(f, l);
    ParseNatToString(a);
    assert s[|f| + 1..] == l;
    DigitsBeforeDash(l, []);
    assert l + [] == l;
    ParseNatToString(b);
  }

  /** `atoi` reads the digits in front of a dash (or of the end). */
  lemma DigitsBeforeDash(f: string, l: string)
    requires AllDigits(f)
    ensures LeadingDigits(f + "-" + l) == f
    ensures LeadingDigits(f + []) == f
  {
    assert f + "-" + l == f + ("-" + l);
    LeadingDigitsStop(f, "-" + l);
    LeadingDigitsStop(f, []);
  }

  /**
   * For non-negative pages that do not cover the whole document, the
   * "page-ranges" value reads back as the normalised range: the digits
   * before the dash are the first page, the digits after it the last.
   */
  lemma PageRangesReadBack(o: PrintOptions)
    requires o.firstPage >= 0 && o.lastPage >= 0
    requires o.firstPage > 1 || 0 < o.lastPage < IntMax
    ensures var s, n := PageRanges(o).value, NormalizePages(o);
      var d := |LeadingDigits(s)|;
      && d < |s| && s[d] == '-'
      && Atoi(s) == n.firstPage
      && Atoi(s[d + 1..]) == n.lastPage
  {
    var n := NormalizePages(o);
    ReadDashed(n.firstPage, n.lastPage);
  }

  /**
   * The "orientation-requested" value: present exactly for portrait,
   * landscape, reverse landscape and reverse portrait (3 to 6), written as
   * the single digit that reads back as the orientation.
   */
  function Orientation(o: PrintOptions): (r: Option<string>)
    ensures r.Some? <==> OrientPortrait <= o.orientationRequested < OrientNone
    ensures r.Some? ==> |r.value| == 1 && IsDigit(r.value[0]) && Atoi(r.value) == o.orientationRequested
  {
    if OrientPortrait <= o.orientationRequested < OrientNone then
      AtoiNatToString(o.orientationRequested, []);
      assert NatToString(o.orientationRequested) + [] == NatToString(o.orientationRequested);
      Some(IntToString(o.orientationRequested))
    else None
  }

  /** The page and orientation options `_brfCreateJobData` adds to an empty option list. */
  function FilterOptions(o: PrintOptions): (r: map<string, string>)
    ensures r.Keys <= {"page-ranges", "orientation-requested"}
    ensures "page-ranges" in r <==> PageRanges(o).Some?
    ensures "page-ranges" in r ==> r["page-ranges"] == PageRanges(o).value
    ensures "orientation-requested" in r <==> Orientation(o).Some?
    ensures "orientation-requested" in r ==> r["orientation-requested"] == Orientation(o).value
  {
    var pages := match PageRanges(o) case Some(v) => map["page-ranges" := v] case None => map[];
    match Orientation(o)
    case Some(v) => pages["orientation-requested" := v]
    case None => pages
  }

  /** Printing every page upright adds no option at all. */
  lemma DefaultJobNoOptions()
    ensures FilterOptions(PrintOptions(0, 0, OrientNone)) == map[]
  {
  }

  /** Pages 2 to 5 in landscape: both options, in the form the filters read. */
  lemma RangeAndLandscape()
    ensures FilterOptions(PrintOptions(2, 5, 4)) == map["page-ranges" := "2-5", "orientation-requested" := "4"]
  {
    var o := PrintOptions(2, 5, 4);
    assert NatToString(2) == "2" && NatToString(5) == "5" && NatToString(4) == "4";
    assert NormalizePages(o) == o;
    assert IntToString(2) + "-" + IntToString(5) == "2-5";
    assert PageRanges(o) == Some("2-5");
    assert Orientation(o) == Some("4");
  }
}
