/**
 * The product list's pagination control
 * (src/pages/products/components/ProductPagination.js): `updatePagination`
 * sets the two buttons and the "Page c of t" label; the click handlers read
 * the page numbers back out of that label with `split` and `parseInt` and ask
 * for the neighbouring page when there is one.
 */
module ProductPagination {
  import opened Common
  import opened Text

  /** `totalPages || 1`. */
  function ShownTotal(totalPages: int): int
  {
    if totalPages == 0 then 1 else totalPages
  }

  /** `Page ${currentPage} of ${totalPages || 1}`. */
  function PageLabel(currentPage: int, totalPages: int): string
  {
    "Page " + IntToString(currentPage) + " of " + IntToString(ShownTotal(totalPages))
  }

  /** `parseInt(parts[i])`; an index past the end reads `undefined`, which parses to NaN. */
  function ParsePart(parts: seq<string>, i: nat): Option<int>
  {
    if i < |parts| then ParseInt(parts[i]) else None
  }

  /** The page the Previous handler asks for: the second word of the label minus one, if that word is above 1. */
  function PreviousTarget(pageInfo: string): Option<int>
  {
    match ParsePart(Split(pageInfo, " "), 1)
    case Some(c) => if c > 1 then Some(c - 1) else None
    case None => None
  }

  /**
   * The page the Next handler asks for: the label is cut at " of ", the
   * current page is the second word of the first half and the total is the
   * second half; a NaN on either side compares false.
   */
  function NextTarget(pageInfo: string): Option<int>
  {
    var parts := Split(pageInfo, " of ");
    var current := ParsePart(Split(parts[0], " "), 1);
    var total := ParsePart(parts, 1);
    if current.Some? && total.Some? && current.value < total.value then Some(current.value + 1) else None
  }

  predicate NoSpaces(s: string)
  {
    forall k :: 0 <= k < |s| ==> s[k] != ' '
  }

  /** The decimal text of an integer has no spaces and does not start with 'o'. */
  lemma IntTextShape(i: int)
    ensures NoSpaces(IntToString(i)) && IntToString(i)[0] != 'o'
  {
  }

  /** Splitting the label on " " gives its four words. */
  lemma LabelWords(c: int, t: int)
    ensures Split(PageLabel(c, t), " ") == ["Page", IntToString(c), "of", IntToString(ShownTotal(t))]
  {
    var a, b := IntToString(c), IntToString(ShownTotal(t));
    IntTextShape(c);
    IntTextShape(ShownTotal(t));
    var sep := " ";
    var r2 := "of" + sep + b;
    var r1 := a + sep + r2;
    assert PageLabel(c, t) == "Page" + sep + r1;
    assert "Page" + sep + r1 == "Page" + (sep + r1);
    NoSeparatorWithoutFirstChar("Page", sep + r1, sep);
    SplitFirst("Page", r1, sep);
    assert a + sep + r2 == a + (sep + r2);
    NoSeparatorWithoutFirstChar(a, sep + r2, sep);
    SplitFirst(a, r2, sep);
    assert "of" + sep + b == "of" + (sep + b);
    NoSeparatorWithoutFirstChar("of", sep + b, sep);
    SplitFirst("of", b, sep);
    NoSeparatorWithoutFirstChar(b, [], sep);
    assert b + [] == b;
    SplitNone(b, sep);
  }

  /** Splitting the label on " of " gives "Page c" and the shown total. */
  lemma LabelHalves(c: int, t: int)
    ensures Split(PageLabel(c, t), " of ") == ["Page " + IntToString(c), IntToString(ShownTotal(t))]
    ensures Split("Page " + IntToString(c), " ") == ["Page", IntToString(c)]
  {
    var a, b := IntToString(c), IntToString(ShownTotal(t));
    IntTextShape(c);
    IntTextShape(ShownTotal(t));
    var sep := " of ";
    var head := "Page " + a;
    var s := head + sep + b;
    assert PageLabel(c, t) == s;
    forall i | 0 <= i < |head| && i <= |s|
      ensures !(sep <= s[i..])
    {
      if i == 4 {
        assert s[i..][1] == a[0];
      } else if i < 4 {
        assert s[i..][0] == "Page"[i];
      } else {
        assert s[i..][0] == a[i - 5];
      }
    }
    SplitFirst(head, b, sep);
    NoSeparatorWithoutFirstChar(b, [], sep);
    assert b + [] == b;
    SplitNone(b, sep);
    assert head == "Page" + " " + a;
    NoSeparatorWithoutFirstChar("Page", " " + a, " ");
    SplitFirst("Page", a, " ");
    NoSeparatorWithoutFirstChar(a, [], " ");
    assert a + [] == a;
    SplitNone(a, " ");
  }

  /** Reading back a label written by `updatePagination`, Previous asks for page c - 1 exactly when c > 1. */
  lemma PreviousRoundTrip(c: int, t: int)
    ensures PreviousTarget(PageLabel(c, t)) == if c > 1 then Some(c - 1) else None
  {
    LabelWords(c, t);
    ParseIntOfIntToString(c);
  }

  /** Reading back a label written by `updatePagination`, Next asks for page c + 1 exactly when c is below the shown total. */
  lemma NextRoundTrip(c: int, t: int)
    ensures NextTarget(PageLabel(c, t)) == if c < ShownTotal(t) then Some(c + 1) else None
  {
    LabelHalves(c, t);
    ParseIntOfIntToString(c);
    ParseIntOfIntToString(ShownTotal(t));
  }

  /** The label `createPagination` starts with has no " of ", so neither handler asks for a page. */
  lemma InitialLabelAsksNothing()
    ensures PreviousTarget("Page 1") == None
    ensures NextTarget("Page 1") == None
  {
    var one := IntToString(1);
    assert one == "1";
    assert "Page 1" == "Page" + " " + one == "Page" + (" " + one);
    NoSeparatorWithoutFirstChar("Page", " " + one, " ");
    SplitFirst("Page", one, " ");
    SplitNone(one, " ");
    ParseIntOfIntToString(1);
    assert NoSeparatorBefore("Page 1", " of ", 6) by {
      forall i | 0 <= i < 6 && i <= |"Page 1"|
        ensures !(" of " <= "Page 1"[i..])
      {
        if i == 4 {
          assert "Page 1"[i..][1] == '1';
        } else {
          assert "Page 1"[i..][0] != ' ';
        }
      }
    }
    SplitNone("Page 1", " of ");
  }

  class PaginationControls {
    var previousDisabled: bool
    var nextDisabled: bool
    /** The text of the page-info span. */
    var pageInfo: string
    /** Whether `onPageChange` is a function. */
    const hasCallback: bool

    /** `createPagination`: Previous disabled, Next enabled, label "Page 1". */
    constructor (hasCallback: bool)
      ensures previousDisabled && !nextDisabled && pageInfo == "Page 1"
      ensures this.hasCallback == hasCallback
    {
      previousDisabled := true;
      nextDisabled := false;
      pageInfo := "Page 1";
      this.hasCallback := hasCallback;
    }

    /** `updatePagination(container, currentPage, totalPages)`. */
    method UpdatePagination(currentPage: int, totalPages: int)
      modifies this
      ensures previousDisabled == (currentPage <= 1)
      ensures nextDisabled == (currentPage >= totalPages)
      ensures pageInfo == PageLabel(currentPage, totalPages)
    {
      previousDisabled := currentPage <= 1;
      nextDisabled := currentPage >= totalPages;
      pageInfo := "Page " + IntToString(currentPage) + " of " + IntToString(if totalPages == 0 then 1 else totalPages);
    }

    /** The Previous click handler: the page passed to `onPageChange`, if any. */
    method PreviousClicked() returns (request: Option<int>)
      ensures request == if hasCallback then PreviousTarget(pageInfo) else None
      ensures request.Some? ==> request.value >= 1
    {
      var currentPage := ParsePart(Split(pageInfo, " "), 1);
      if currentPage.Some? && currentPage.value > 1 && hasCallback {
        request := Some(currentPage.value - 1);
      } else {
        request := None;
      }
    }

    /** The Next click handler: the page passed to `onPageChange`, if any. */
    method NextClicked() returns (request: Option<int>)
      ensures request == if hasCallback then NextTarget(pageInfo) else None
    {
      var parts := Split(pageInfo, " of ");
      var currentPage := ParsePart(Split(parts[0], " "), 1);
      var totalPages := ParsePart(parts, 1);
      if currentPage.Some? && totalPages.Some? && currentPage.value < totalPages.value && hasCallback {
        request := Some(currentPage.value + 1);
      } else {
        request := None;
      }
    }
  }

  /**
   * After `updatePagination(c, t)` with at least one page, each handler asks
   * for a page exactly when its button is enabled, and the page it asks for
   * lies within 1..t.
   */
  lemma HandlersFollowButtons(c: int, t: int)
    requires t >= 1
    ensures PreviousTarget(PageLabel(c, t)).Some? <==> !(c <= 1)
    ensures NextTarget(PageLabel(c, t)).Some? <==> !(c >= t)
    ensures PreviousTarget(PageLabel(c, t)).Some? && c <= t ==> 1 <= PreviousTarget(PageLabel(c, t)).value <= t
    ensures NextTarget(PageLabel(c, t)).Some? && c >= 1 ==> 1 <= NextTarget(PageLabel(c, t)).value <= t
  {
    PreviousRoundTrip(c, t);
    NextRoundTrip(c, t);
  }
}
