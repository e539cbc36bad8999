/**
 * The value logic behind the CRM's views: phone formatting, pagination and its
 * page-number bar, the select-all checkbox, the lead filters and the CSV export.
 */
module Views {
  import opened Wrappers
  import opened Text
  import opened Seqs
  import opened Records

  // ---------------------------------------------------------------------------
  // formatPhoneNumber

  /**
   * `formatPhoneNumber`: an empty value is returned as it is; otherwise the digits
   * are taken out and shaped by their count, and any other count returns the
   * original text.
   */
  function FormatPhoneNumber(phone: string): string {
    if phone == "" then phone
    else
      var d := Digits(phone);
      if |d| == 10 then "(" + d[..3] + ") " + d[3..6] + "-" + d[6..]
      else if |d| == 11 && d[0] == '1' then "+1 (" + d[1..4] + ") " + d[4..7] + "-" + d[7..]
      else if |d| == 7 then d[..3] + "-" + d[3..]
      else phone
  }

  /** A literal without digits in front of a run of digits contributes only the run. */
  lemma DigitsAfter(lit: string, a: string)
    requires forall i :: 0 <= i < |lit| ==> !IsDigit(lit[i])
    requires AllDigits(a)
    ensures Digits(lit + a) == a
  {
    DigitsConcat(lit, a);
    DigitsOfNone(lit);
    DigitsOfDigits(a);
  }

  /**
   * Three runs of digits with digit-free literals between them, after a prefix
   * whose digits are `p`: the digits are `p` and the runs.
   */
  lemma DigitsOfShape(l1: string, p: string, a: string, l2: string, b: string, l3: string, c: string)
    requires Digits(l1) == p
    requires forall i :: 0 <= i < |l2| ==> !IsDigit(l2[i])
    requires forall i :: 0 <= i < |l3| ==> !IsDigit(l3[i])
    requires AllDigits(a) && AllDigits(b) && AllDigits(c)
    ensures Digits(l1 + a + l2 + b + l3 + c) == p + a + b + c
  {
    var x1 := l1 + a;
    var x2 := x1 + l2;
    var x3 := x2 + b;
    var x4 := x3 + l3;
    assert Digits(x1) == p + a by {
      DigitsConcat(l1, a);
      DigitsOfDigits(a);
    }
    assert Digits(x2) == p + a by {
      DigitsConcat(x1, l2);
      DigitsOfNone(l2);
    }
    assert Digits(x3) == p + a + b by {
      DigitsConcat(x2, b);
      DigitsOfDigits(b);
    }
    assert Digits(x4) == p + a + b by {
      DigitsConcat(x3, l3);
      DigitsOfNone(l3);
    }
    assert Digits(x4 + c) == p + a + b + c by {
      DigitsConcat(x4, c);
      DigitsOfDigits(c);
    }
  }

  /** Formatting never adds, drops or reorders a digit. */
  lemma FormatKeepsDigits(phone: string)
    ensures Digits(FormatPhoneNumber(phone)) == Digits(phone)
  {
    var d := Digits(phone);
    if phone != "" {
      if |d| == 10 {
        TenKept(d);
      } else if |d| == 11 && d[0] == '1' {
        ElevenKept(d);
      } else if |d| == 7 {
        SevenKept(d);
      }
    }
  }

  lemma TenKept(d: string)
    requires |d| == 10 && AllDigits(d)
    ensures Digits("(" + d[..3] + ") " + d[3..6] + "-" + d[6..]) == d
  {
    assert Digits("(") == "" by {
      DigitsOfNone("(");
    }
    DigitsOfShape("(", "", d[..3], ") ", d[3..6], "-", d[6..]);
    assert "" + d[..3] + d[3..6] + d[6..] == d;
  }

  lemma ElevenKept(d: string)
    requires |d| == 11 && d[0] == '1' && AllDigits(d)
    ensures Digits("+1 (" + d[1..4] + ") " + d[4..7] + "-" + d[7..]) == d
  {
    assert Digits("+1 (") == "1" by {
      PlusOneDigits();
    }
    DigitsOfShape("+1 (", "1", d[1..4], ") ", d[4..7], "-", d[7..]);
    assert "1" + d[1..4] + d[4..7] + d[7..] == d;
  }

  /** The country prefix `+1 (` holds the one digit `1`. */
  lemma PlusOneDigits()
    ensures Digits("+1 (") == "1"
  {
    var s := "+1 (";
    assert s[1..] == "1 (";
    assert s[1..][1..] == " (";
    DigitsOfNone(" (");
  }

  lemma SevenKept(d: string)
    requires |d| == 7 && AllDigits(d)
    ensures Digits(d[..3] + "-" + d[3..]) == d
  {
    DigitsConcat(d[..3], "-");
    DigitsConcat(d[..3] + "-", d[3..]);
    DigitsOfDigits(d[..3]);
    DigitsOfDigits(d[3..]);
    DigitsOfNone("-");
    assert d[..3] + d[3..] == d;
  }

  /** A formatted number formats to itself. */
  lemma FormatIdempotent(phone: string)
    ensures FormatPhoneNumber(FormatPhoneNumber(phone)) == FormatPhoneNumber(phone)
  {
    var r := FormatPhoneNumber(phone);
    FormatKeepsDigits(phone);
    if phone != "" && r != phone {
      assert r != "";
    }
  }

  // ---------------------------------------------------------------------------
  // Pagination

  /** `pagination`: the page shown, the page size and the counts the last update computed. */
  datatype Pagination = Pagination(currentPage: int, pageSize: int, totalItems: int, totalPages: int)

  /** `Math.ceil(totalItems / pageSize)`. */
  function TotalPages(totalItems: nat, pageSize: nat): (r: nat)
    requires pageSize > 0
    ensures r * pageSize >= totalItems
    ensures r > 0 ==> (r - 1) * pageSize < totalItems
  {
    var r := (totalItems + pageSize - 1) / pageSize;
    assert r * pageSize + (totalItems + pageSize - 1) % pageSize == totalItems + pageSize - 1;
    r
  }

  /** An index as `Array.prototype.slice` reads it: negative counts from the end; clamped to `[0, n]`. */
  function RelIndex(x: int, n: nat): (r: nat)
    ensures r <= n
  {
    if x < 0 then (if n + x < 0 then 0 else n + x) else if x > n then n else x
  }

  /** `s.slice(start, end)`. */
  function JsSlice<T>(s: seq<T>, start: int, end: int): seq<T> {
    var a := RelIndex(start, |s|);
    var b := RelIndex(end, |s|);
    if a < b then s[a..b] else []
  }

  function Min(a: int, b: int): int {
    if a < b then a else b
  }

  /** `getPaginatedLeads`: the items of page `currentPage`. */
  function PageSlice<T>(items: seq<T>, currentPage: int, pageSize: int): seq<T> {
    var start := (currentPage - 1) * pageSize;
    JsSlice(items, start, start + pageSize)
  }

  /** Page `p` (from 1) holds the items from `(p - 1) * pageSize` up to `p * pageSize`, cut at the end. */
  lemma PageContents<T>(items: seq<T>, p: int, pageSize: int)
    requires p >= 1 && pageSize > 0
    ensures (p - 1) * pageSize >= 0
    ensures PageSlice(items, p, pageSize) ==
      items[Min((p - 1) * pageSize, |items|)..Min(p * pageSize, |items|)]
  {
    var start := (p - 1) * pageSize;
    assert start >= 0 && start + pageSize == p * pageSize by {
      MulSucc(p - 1, pageSize);
    }
  }

  /** `(a + 1) * c` is `a * c + c`, and non-negative for non-negative `a`. */
  lemma MulSucc(a: int, c: nat)
    requires a >= 0
    ensures a * c >= 0 && (a + 1) * c == a * c + c
  {
    MulMono(0, a, c);
  }

  /** Pages 1 to `n`, one after the other. */
  function PagesUpTo<T>(items: seq<T>, pageSize: int, n: nat): seq<T> {
    if n == 0 then [] else PagesUpTo(items, pageSize, n - 1) + PageSlice(items, n, pageSize)
  }

  /** Pages 1 to `n` are the first `n * pageSize` items: nothing is skipped or repeated. */
  lemma {:induction false} PagesUpToPrefix<T>(items: seq<T>, pageSize: int, n: nat)
    requires pageSize > 0
    ensures n * pageSize >= 0
    ensures PagesUpTo(items, pageSize, n) == items[..Min(n * pageSize, |items|)]
  {
    MulMono(0, n, pageSize);
    if n > 0 {
      var m := (n - 1) * pageSize;
      assert m >= 0 && m + pageSize == n * pageSize by {
        MulSucc(n - 1, pageSize);
      }
      var a := Min(m, |items|);
      var b := Min(n * pageSize, |items|);
      assert PagesUpTo(items, pageSize, n - 1) == items[..a] by {
        PagesUpToPrefix(items, pageSize, n - 1);
      }
      assert PageSlice(items, n, pageSize) == items[a..b] by {
        PageContents(items, n, pageSize);
      }
      SliceJoin(items, a, b);
    }
  }

  /** Two adjacent slices from the front make one. */
  lemma SliceJoin<T>(items: seq<T>, a: nat, b: nat)
    requires a <= b <= |items|
    ensures items[..a] + items[a..b] == items[..b]
  {
  }

  /** The pages the counts promise, read in order, are the whole list. */
  lemma PagesCoverAll<T>(items: seq<T>, pageSize: int)
    requires pageSize > 0
    ensures PagesUpTo(items, pageSize, TotalPages(|items|, pageSize)) == items
  {
    var n := TotalPages(|items|, pageSize);
    PagesUpToPrefix(items, pageSize, n);
    assert items[..|items|] == items;
  }

  /** Multiplying by a non-negative number keeps the order. */
  lemma {:induction false} MulMono(a: int, b: int, c: nat)
    requires a <= b
    ensures a * c <= b * c
    decreases b - a
  {
    if a < b {
      MulMono(a, b - 1, c);
      assert b * c == (b - 1) * c + c;
    }
  }

  /** Item `i` is on page `i / pageSize + 1`, at position `i % pageSize`, and that page exists. */
  lemma PageOfIndex<T>(items: seq<T>, pageSize: int, i: nat)
    requires pageSize > 0 && i < |items|
    ensures 1 <= i / pageSize + 1 <= TotalPages(|items|, pageSize)
    ensures i % pageSize < |PageSlice(items, i / pageSize + 1, pageSize)|
    ensures PageSlice(items, i / pageSize + 1, pageSize)[i % pageSize] == items[i]
  {
    var q, r := i / pageSize, i % pageSize;
    var n := TotalPages(|items|, pageSize);
    assert q >= 0 && q * pageSize >= 0 && q * pageSize + r == i && (q + 1) * pageSize == q * pageSize + pageSize by {
      MulSucc(q, pageSize);
    }
    assert q + 1 <= n by {
      if n < q + 1 {
        MulMono(n, q, pageSize);
        assert false;
      }
    }
    assert PageSlice(items, q + 1, pageSize) ==
      items[Min(q * pageSize, |items|)..Min((q + 1) * pageSize, |items|)] by {
      PageContents(items, q + 1, pageSize);
    }
  }

  // ---------------------------------------------------------------------------
  // generatePageNumbers

  /** How many numbered buttons the window shows. */
  const MaxVisiblePages: int := 5

  function Max(a: int, b: int): int {
    if a < b then b else a
  }

  /** The first page of the window: centred on `currentPage`, pulled back near the end. */
  function WindowStart(currentPage: int, totalPages: int): int {
    var start := Max(1, currentPage - MaxVisiblePages / 2);
    var end := Min(totalPages, start + MaxVisiblePages - 1);
    if end - start + 1 < MaxVisiblePages then Max(1, end - MaxVisiblePages + 1) else start
  }

  /** The last page of the window. */
  function WindowEnd(currentPage: int, totalPages: int): int {
    Min(totalPages, Max(1, currentPage - MaxVisiblePages / 2) + MaxVisiblePages - 1)
  }

  /**
   * The window holds `min(5, totalPages)` pages inside `1..totalPages`, and
   * contains the current page whenever that page exists.
   */
  lemma WindowShape(currentPage: int, totalPages: int)
    requires totalPages >= 1
    ensures var s, e := WindowStart(currentPage, totalPages), WindowEnd(currentPage, totalPages);
      1 <= s <= e <= totalPages &&
      e - s + 1 == Min(MaxVisiblePages, totalPages) &&
      (1 <= currentPage <= totalPages ==> s <= currentPage <= e)
  {
  }

  /** One entry of the page bar. */
  datatype PageItem =
    | EdgeButton(page: int)                  // the first or last page, outside the window
    | WindowButton(page: int, active: bool)  // a page of the window
    | Ellipsis

  /** The window's buttons from `i` to `end`, the current page marked active. */
  function WindowButtons(i: int, end: int, currentPage: int): seq<PageItem>
    decreases end - i
  {
    if i > end then [] else [WindowButton(i, i == currentPage)] + WindowButtons(i + 1, end, currentPage)
  }

  /** Before the window: page 1, and an ellipsis when pages are skipped. */
  function FrontItems(start: int): seq<PageItem> {
    if start > 1 then [EdgeButton(1)] + (if start > 2 then [Ellipsis] else []) else []
  }

  /** After the window: an ellipsis when pages are skipped, and the last page. */
  function BackItems(end: int, totalPages: int): seq<PageItem> {
    if end < totalPages then (if end < totalPages - 1 then [Ellipsis] else []) + [EdgeButton(totalPages)] else []
  }

  /** The page bar: the window with what comes before and after it. */
  function PageItems(currentPage: int, totalPages: int): seq<PageItem> {
    var s, e := WindowStart(currentPage, totalPages), WindowEnd(currentPage, totalPages);
    FrontItems(s) + WindowButtons(s, e, currentPage) + BackItems(e, totalPages)
  }

  /** The HTML of one entry. */
  function RenderItem(item: PageItem): string {
    match item
    case EdgeButton(p) =>
      "<button class=\"page-btn\" data-page=\"" + IntToString(p) + "\">" + IntToString(p) + "</button>"
    case WindowButton(p, active) =>
      "<button class=\"page-btn " + (if active then "active" else "") + "\" data-page=\""
      + IntToString(p) + "\">" + IntToString(p) + "</button>"
    case Ellipsis => "<span class=\"page-ellipsis\">...</span>"
  }

  /** The HTML of a run of entries, one after the other. */
  function Render(items: seq<PageItem>): string {
    ConcatMap(items, RenderItem)
  }

  /** The buttons from `i` to `end` extended by one more. */
  lemma WindowButtonsSnoc(i: int, end: int, currentPage: int)
    requires i <= end + 1
    ensures WindowButtons(i, end + 1, currentPage) ==
      WindowButtons(i, end, currentPage) + [WindowButton(end + 1, end + 1 == currentPage)]
    decreases end - i
  {
    if i <= end {
      WindowButtonsSnoc(i + 1, end, currentPage);
    }
  }

  /** `generatePageNumbers`: the page bar's HTML. */
  method GeneratePageNumbers(currentPage: int, totalPages: int) returns (pageNumbers: string)
    ensures pageNumbers == Render(PageItems(currentPage, totalPages))
  {
    pageNumbers := BuildPageBar(currentPage, totalPages, RenderItem);
  }

  /**
   * The loop of `generatePageNumbers`, entry by entry, for any way `render` of
   * writing one entry.
   */
  method BuildPageBar(currentPage: int, totalPages: int, render: PageItem -> string)
    returns (pageNumbers: string)
    ensures pageNumbers == ConcatMap(PageItems(currentPage, totalPages), render)
  {
    var startPage := Max(1, currentPage - MaxVisiblePages / 2);
    var endPage := Min(totalPages, startPage + MaxVisiblePages - 1);
    if endPage - startPage + 1 < MaxVisiblePages {
      startPage := Max(1, endPage - MaxVisiblePages + 1);
    }
    assert startPage == WindowStart(currentPage, totalPages);
    assert endPage == WindowEnd(currentPage, totalPages);
    pageNumbers := "";
    if startPage > 1 {
      pageNumbers := pageNumbers + render(EdgeButton(1));
      if startPage > 2 {
        pageNumbers := pageNumbers + render(Ellipsis);
      }
    }
    FrontRendered(startPage, render);
    var window := RenderWindow(startPage, endPage, currentPage, render);
    var back := "";
    if endPage < totalPages {
      if endPage < totalPages - 1 {
        back := back + render(Ellipsis);
      }
      back := back + render(EdgeButton(totalPages));
    }
    BackRendered(endPage, totalPages, render);
    ConcatMapConcat(FrontItems(startPage), WindowButtons(startPage, endPage, currentPage), render);
    ConcatMapConcat(FrontItems(startPage) + WindowButtons(startPage, endPage, currentPage),
                    BackItems(endPage, totalPages), render);
    pageNumbers := pageNumbers + window + back;
  }

  lemma FrontRendered(start: int, render: PageItem -> string)
    ensures ConcatMap(FrontItems(start), render) ==
      if start > 1 then render(EdgeButton(1)) + (if start > 2 then render(Ellipsis) else "") else ""
  {
    if start > 2 {
      assert FrontItems(start) == [EdgeButton(1), Ellipsis];
      ConcatMapTwo(EdgeButton(1), Ellipsis, render);
    } else if start == 2 {
      assert FrontItems(start) == [EdgeButton(1)];
      ConcatMapOne(EdgeButton(1), render);
    }
  }

  lemma BackRendered(end: int, totalPages: int, render: PageItem -> string)
    ensures ConcatMap(BackItems(end, totalPages), render) ==
      if end < totalPages then (if end < totalPages - 1 then render(Ellipsis) else "") + render(EdgeButton(totalPages)) else ""
  {
    if end < totalPages - 1 {
      assert BackItems(end, totalPages) == [Ellipsis, EdgeButton(totalPages)];
      ConcatMapTwo(Ellipsis, EdgeButton(totalPages), render);
    } else if end == totalPages - 1 {
      assert BackItems(end, totalPages) == [EdgeButton(totalPages)];
      ConcatMapOne(EdgeButton(totalPages), render);
    }
  }

  /** The `for` loop over the window's pages. */
  method RenderWindow(startPage: int, endPage: int, currentPage: int, render: PageItem -> string)
    returns (html: string)
    ensures html == ConcatMap(WindowButtons(startPage, endPage, currentPage), render)
  {
    html := "";
    if startPage > endPage {
      return;
    }
    var i := startPage;
    while i <= endPage
      invariant startPage <= i <= endPage + 1
      invariant html == ConcatMap(WindowButtons(startPage, i - 1, currentPage), render)
      decreases endPage - i
    {
      WindowButtonsSnoc(startPage, i - 1, currentPage);
      ConcatMapSnoc(WindowButtons(startPage, i - 1, currentPage), WindowButton(i, i == currentPage), render);
      html := html + render(WindowButton(i, i == currentPage));
      i := i + 1;
    }
  }

  /** The page number of a button; 0 for an ellipsis. */
  function PageOf(item: PageItem): int {
    match item
    case EdgeButton(p) => p
    case WindowButton(p, _) => p
    case Ellipsis => 0
  }

  /** The window's buttons run from `i` to `end`, one page apart, and only page `currentPage` is active. */
  lemma {:induction false} WindowButtonsPages(i: int, end: int, currentPage: int)
    requires i <= end + 1
    ensures var w := WindowButtons(i, end, currentPage);
      |w| == end - i + 1 &&
      forall k :: 0 <= k < |w| ==> w[k] == WindowButton(i + k, i + k == currentPage)
    decreases end - i
  {
    if i <= end {
      WindowButtonsPages(i + 1, end, currentPage);
      var w := WindowButtons(i, end, currentPage);
      assert forall k :: 1 <= k < |w| ==> w[k] == WindowButtons(i + 1, end, currentPage)[k - 1];
    }
  }

  predicate IsButton(item: PageItem) {
    !item.Ellipsis?
  }

  /**
   * Read left to right after a button for page `prev`: each button is the next
   * page, and an ellipsis stands right before a button that skips at least one page.
   */
  predicate Chain(items: seq<PageItem>, prev: int)
    decreases |items|
  {
    if items == [] then true
    else if IsButton(items[0]) then PageOf(items[0]) == prev + 1 && Chain(items[1..], prev + 1)
    else
      |items| >= 2 && IsButton(items[1]) && PageOf(items[1]) > prev + 1 &&
      Chain(items[2..], PageOf(items[1]))
  }

  /** The page of the last button, `prev` when there is none. */
  function ChainEnd(items: seq<PageItem>, prev: int): int {
    if items == [] then prev else PageOf(items[|items| - 1])
  }

  /** A chain that ends in a button can be continued by a chain from that button's page. */
  lemma {:induction false} ChainConcat(a: seq<PageItem>, b: seq<PageItem>, prev: int)
    requires Chain(a, prev) && Chain(b, ChainEnd(a, prev))
    requires a != [] ==> IsButton(a[|a| - 1])
    ensures Chain(a + b, prev)
    decreases |a|, 1
  {
    if a == [] {
      assert a + b == b;
    } else if IsButton(a[0]) {
      ChainConcatButton(a, b, prev);
    } else {
      ChainConcatGap(a, b, prev);
    }
  }

  /** `ChainConcat` past a first button. */
  lemma {:induction false} ChainConcatButton(a: seq<PageItem>, b: seq<PageItem>, prev: int)
    requires a != [] && IsButton(a[0]) && IsButton(a[|a| - 1])
    requires Chain(a, prev) && Chain(b, ChainEnd(a, prev))
    ensures Chain(a + b, prev)
    decreases |a|, 0
  {
    var rest := a[1..];
    assert Chain(rest + b, prev + 1) by {
      if rest != [] {
        assert rest[|rest| - 1] == a[|a| - 1];
      }
      ChainConcat(rest, b, prev + 1);
    }
    var ab := a + b;
    assert ab[0] == a[0] && PageOf(a[0]) == prev + 1;
    assert ab[1..] == rest + b;
  }

  /** `ChainConcat` past a first ellipsis and the button after it. */
  lemma {:induction false} ChainConcatGap(a: seq<PageItem>, b: seq<PageItem>, prev: int)
    requires a != [] && !IsButton(a[0]) && IsButton(a[|a| - 1])
    requires Chain(a, prev) && Chain(b, ChainEnd(a, prev))
    ensures Chain(a + b, prev)
    decreases |a|, 0
  {
    var rest := a[2..];
    assert Chain(rest + b, PageOf(a[1])) by {
      if rest != [] {
        assert rest[|rest| - 1] == a[|a| - 1];
      }
      ChainConcat(rest, b, PageOf(a[1]));
    }
    var ab := a + b;
    assert |a| >= 2 && IsButton(a[1]) && PageOf(a[1]) > prev + 1;
    assert ab[0] == a[0] && ab[1] == a[1];
    assert ab[2..] == rest + b;
  }

  /** The window's buttons from `i` on follow a button for page `i - 1`. */
  lemma {:induction false} WindowChain(i: int, end: int, currentPage: int)
    requires i <= end + 1
    ensures Chain(WindowButtons(i, end, currentPage), i - 1)
    ensures ChainEnd(WindowButtons(i, end, currentPage), i - 1) == end
    decreases end - i
  {
    if i <= end {
      WindowChain(i + 1, end, currentPage);
      var w := WindowButtons(i, end, currentPage);
      assert w[1..] == WindowButtons(i + 1, end, currentPage);
      if i < end {
        assert w[|w| - 1] == w[1..][|w[1..]| - 1];
      }
    }
  }

  /**
   * A page bar for pages `1..last`: it starts and ends with a button, and reads as
   * a chain from page 0, so the first button is page 1 and every page up to `last`
   * is either shown or skipped behind an ellipsis.
   */
  predicate Bar(items: seq<PageItem>, last: int) {
    |items| >= 1 && IsButton(items[0]) && IsButton(items[|items| - 1]) &&
    PageOf(items[|items| - 1]) == last && Chain(items, 0)
  }

  /** What follows the window continues the chain from its last page `end` to `totalPages`. */
  lemma BackChain(end: int, totalPages: int)
    requires end <= totalPages
    ensures Chain(BackItems(end, totalPages), end)
    ensures ChainEnd(BackItems(end, totalPages), end) == totalPages
    ensures BackItems(end, totalPages) != [] ==> IsButton(BackItems(end, totalPages)[|BackItems(end, totalPages)| - 1])
  {
    var back := BackItems(end, totalPages);
    if end < totalPages - 1 {
      assert back == [Ellipsis, EdgeButton(totalPages)];
      assert back[2..] == [];
    } else if end == totalPages - 1 {
      assert back == [EdgeButton(totalPages)];
      assert back[1..] == [];
    }
  }

  /** Page 1 and what stands before the window, then the window from `start` to `end`, chain from page 0. */
  lemma FrontChain(start: int, end: int, currentPage: int)
    requires 1 <= start <= end
    ensures var head := FrontItems(start) + WindowButtons(start, end, currentPage);
      head != [] && IsButton(head[0]) && IsButton(head[|head| - 1]) &&
      Chain(head, 0) && ChainEnd(head, 0) == end
  {
    if start == 1 {
      FrontNone(end, currentPage);
    } else if start == 2 {
      FrontAdjacent(end, currentPage);
    } else {
      FrontGap(start, end, currentPage);
    }
  }

  /** A window starting at page 1 has nothing before it. */
  lemma FrontNone(end: int, currentPage: int)
    requires 1 <= end
    ensures var head := FrontItems(1) + WindowButtons(1, end, currentPage);
      head != [] && IsButton(head[0]) && IsButton(head[|head| - 1]) &&
      Chain(head, 0) && ChainEnd(head, 0) == end
  {
    var w := WindowButtons(1, end, currentPage);
    WindowChain(1, end, currentPage);
    WindowLast(1, end, currentPage);
    assert FrontItems(1) + w == w;
  }

  /** The window's last entry is a button. */
  lemma WindowLast(start: int, end: int, currentPage: int)
    requires start <= end
    ensures var w := WindowButtons(start, end, currentPage);
      w != [] && IsButton(w[0]) && IsButton(w[|w| - 1])
  {
    WindowButtonsPages(start, end, currentPage);
  }

  /** A window starting at page 2 follows page 1 directly. */
  lemma FrontAdjacent(end: int, currentPage: int)
    requires 2 <= end
    ensures var head := FrontItems(2) + WindowButtons(2, end, currentPage);
      head != [] && IsButton(head[0]) && IsButton(head[|head| - 1]) &&
      Chain(head, 0) && ChainEnd(head, 0) == end
  {
    var w := WindowButtons(2, end, currentPage);
    WindowChain(2, end, currentPage);
    WindowLast(2, end, currentPage);
    assert FrontItems(2) == [EdgeButton(1)];
    PrefixChain([EdgeButton(1)], w, 1);
  }

  /** A window starting after page 2 follows page 1 and an ellipsis. */
  lemma FrontGap(start: int, end: int, currentPage: int)
    requires 2 < start <= end
    ensures var head := FrontItems(start) + WindowButtons(start, end, currentPage);
      head != [] && IsButton(head[0]) && IsButton(head[|head| - 1]) &&
      Chain(head, 0) && ChainEnd(head, 0) == end
  {
    var w := WindowButtons(start, end, currentPage);
    var w1 := WindowButtons(start + 1, end, currentPage);
    assert w != [] && w1 == w[1..] && IsButton(w[0]) && PageOf(w[0]) == start by {
      assert w == [WindowButton(start, start == currentPage)] + w1;
    }
    assert Chain(w1, start) by {
      WindowChain(start + 1, end, currentPage);
    }
    assert ChainEnd(w, start - 1) == end by {
      WindowChain(start, end, currentPage);
    }
    assert IsButton(w[|w| - 1]) by {
      WindowLast(start, end, currentPage);
    }
    assert FrontItems(start) == [EdgeButton(1), Ellipsis];
    GapFront(FrontItems(start), w, w1, start, end);
  }

  /** Page 1 and an ellipsis in front of a run of buttons that starts after page 2. */
  lemma GapFront(front: seq<PageItem>, w: seq<PageItem>, w1: seq<PageItem>, start: int, end: int)
    requires front == [EdgeButton(1), Ellipsis] && 2 < start
    requires w != [] && w1 == w[1..] && IsButton(w[0]) && PageOf(w[0]) == start
    requires Chain(w1, start) && ChainEnd(w, start - 1) == end && IsButton(w[|w| - 1])
    ensures var head := front + w;
      head != [] && IsButton(head[0]) && IsButton(head[|head| - 1]) &&
      Chain(head, 0) && ChainEnd(head, 0) == end
  {
    var g := [Ellipsis] + w;
    assert Chain(g, 1) by {
      GapChain(w, w1, 1);
    }
    assert g[|g| - 1] == w[|w| - 1];
    assert front + w == [EdgeButton(1)] + g;
    PrefixChain([EdgeButton(1)], g, 1);
  }

  /** A chain from page `p` after a first button for page `p` is a chain from page 0 when `p` is 1. */
  lemma PrefixChain(front: seq<PageItem>, w: seq<PageItem>, p: int)
    requires front == [EdgeButton(1)] && p == 1
    requires w != [] && IsButton(w[|w| - 1]) && Chain(w, p)
    ensures var head := front + w;
      head != [] && IsButton(head[0]) && IsButton(head[|head| - 1]) &&
      Chain(head, 0) && ChainEnd(head, 0) == ChainEnd(w, p)
  {
    var head := front + w;
    assert head[1..] == w;
    assert head[|head| - 1] == w[|w| - 1];
  }

  /** An ellipsis before a button that skips a page, then a chain from that button's page. */
  lemma GapChain(w: seq<PageItem>, w1: seq<PageItem>, prev: int)
    requires w != [] && w1 == w[1..] && IsButton(w[0]) && PageOf(w[0]) > prev + 1
    requires Chain(w1, PageOf(w[0]))
    ensures Chain([Ellipsis] + w, prev)
  {
    var items := [Ellipsis] + w;
    assert items[1] == w[0];
    assert items[2..] == w1;
  }

  /** With at least one page, the bar is a page bar for pages `1..totalPages`. */
  lemma {:induction false} PageItemsBar(currentPage: int, totalPages: int)
    requires totalPages >= 1
    ensures Bar(PageItems(currentPage, totalPages), totalPages)
  {
    var s, e := WindowStart(currentPage, totalPages), WindowEnd(currentPage, totalPages);
    WindowShape(currentPage, totalPages);
    var head := FrontItems(s) + WindowButtons(s, e, currentPage);
    var back := BackItems(e, totalPages);
    FrontChain(s, e, currentPage);
    BackChain(e, totalPages);
    ChainConcat(head, back, 0);
    BarOfParts(head, back, totalPages);
  }

  lemma BarOfParts(head: seq<PageItem>, back: seq<PageItem>, totalPages: int)
    requires head != [] && IsButton(head[0]) && IsButton(head[|head| - 1])
    requires back != [] ==> IsButton(back[|back| - 1])
    requires Chain(head + back, 0) && ChainEnd(back, ChainEnd(head, 0)) == totalPages
    ensures Bar(head + back, totalPages)
  {
    var items := head + back;
    assert items[0] == head[0];
    if back != [] {
      assert items[|items| - 1] == back[|back| - 1];
    } else {
      assert items[|items| - 1] == head[|head| - 1];
    }
  }

  /** The window holds window buttons only, for its pages, active exactly for `currentPage`. */
  lemma {:induction false} WindowButtonsActive(i: int, end: int, currentPage: int)
    ensures forall it :: it in WindowButtons(i, end, currentPage) ==>
      it.WindowButton? && i <= it.page <= end && (it.active <==> it.page == currentPage)
    decreases end - i
  {
    if i <= end {
      WindowButtonsActive(i + 1, end, currentPage);
    }
  }

  /** Only the current page's button is active, and it is shown whenever that page exists. */
  lemma {:induction false} PageItemsActive(currentPage: int, totalPages: int)
    ensures forall it :: it in PageItems(currentPage, totalPages) && it.WindowButton? && it.active ==>
      it.page == currentPage
    ensures 1 <= currentPage <= totalPages ==>
      WindowButton(currentPage, true) in PageItems(currentPage, totalPages)
  {
    var s, e := WindowStart(currentPage, totalPages), WindowEnd(currentPage, totalPages);
    var w := WindowButtons(s, e, currentPage);
    WindowButtonsActive(s, e, currentPage);
    assert PageItems(currentPage, totalPages) == FrontItems(s) + w + BackItems(e, totalPages);
    if 1 <= currentPage <= totalPages {
      WindowShape(currentPage, totalPages);
      WindowButtonsPages(s, e, currentPage);
      assert w[currentPage - s] == WindowButton(currentPage, true);
    }
  }

  // ---------------------------------------------------------------------------
  // updateSelectAllCheckbox

  /** The select-all checkbox's two flags. */
  datatype CheckState = CheckState(checked: bool, indeterminate: bool)

  /**
   * `updateSelectAllCheckbox`, from the number of row checkboxes and of checked
   * ones: ticked when every one of at least one row is checked, indeterminate when
   * some but not all are, and never both.
   */
  function SelectAllState(total: nat, checked: nat): (r: CheckState)
    ensures r.checked <==> total > 0 && checked == total
    ensures r.indeterminate <==> total > 0 && 0 < checked && checked != total
    ensures !(r.checked && r.indeterminate)
  {
    if total == 0 then CheckState(false, false)
    else if checked == total then CheckState(true, false)
    else if checked > 0 then CheckState(false, true)
    else CheckState(false, false)
  }

  // ---------------------------------------------------------------------------
  // filterLeads

  /** The sentinel value of a filter drop-down that filters nothing. */
  const AllOption: string := "all"

  /** The view being filtered and the values of its filter controls. */
  datatype LeadView =
    | LeadsView(state: string, industry: string, search: string)
    | QueueView(state: string, industry: string, notes: string)
    | EmailView(state: string, industry: string)
    | OtherView

  predicate InState(state: string, l: Lead) {
    l.data.state == state
  }

  predicate InIndustry(industry: string, l: Lead) {
    l.data.industry == industry
  }

  /** The lower-cased search term occurs in the lower-cased company, contact or email. */
  predicate SearchHit(term: string, l: Lead) {
    Contains(Lower(l.data.company), term) || Contains(Lower(l.data.contact), term) ||
    Contains(Lower(l.data.email), term)
  }

  /** The lower-cased notes filter occurs in the lower-cased notes. */
  predicate NotesHit(term: string, l: Lead) {
    Contains(Lower(l.data.notes), term)
  }

  /**
   * `filterLeads(leads, viewType)`: the view's filters applied one after the other,
   * each only when its control is set (`"all"` and an empty text filter nothing);
   * a view with no filters returns the leads as they are.
   */
  function FilterLeads(leads: seq<Lead>, view: LeadView): seq<Lead> {
    match view
    case LeadsView(st, ind, search) =>
      var term := Lower(search);
      FilterIf(FilterIf(FilterIf(leads, st != AllOption, l => InState(st, l)),
                        ind != AllOption, l => InIndustry(ind, l)),
               term != "", l => SearchHit(term, l))
    case QueueView(st, ind, notes) =>
      var term := Lower(notes);
      FilterIf(FilterIf(FilterIf(leads, st != AllOption, l => InState(st, l)),
                        ind != AllOption, l => InIndustry(ind, l)),
               term != "", l => NotesHit(term, l))
    case EmailView(st, ind) =>
      FilterIf(FilterIf(leads, st != AllOption, l => InState(st, l)),
               ind != AllOption, l => InIndustry(ind, l))
    case OtherView => leads
  }

  /** What the view shows of one lead: each set control must accept it. */
  predicate Shown(view: LeadView, l: Lead) {
    match view
    case LeadsView(st, ind, search) =>
      (st == AllOption || InState(st, l)) && (ind == AllOption || InIndustry(ind, l)) &&
      (Lower(search) == "" || SearchHit(Lower(search), l))
    case QueueView(st, ind, notes) =>
      (st == AllOption || InState(st, l)) && (ind == AllOption || InIndustry(ind, l)) &&
      (Lower(notes) == "" || NotesHit(Lower(notes), l))
    case EmailView(st, ind) =>
      (st == AllOption || InState(st, l)) && (ind == AllOption || InIndustry(ind, l))
    case OtherView => true
  }

  /**
   * The filters in a row are one filter by `Shown`: a lead is listed exactly when it
   * is in the input and every set control accepts it, in input order and as often
   * as in the input.
   */
  lemma FilterLeadsShown(leads: seq<Lead>, view: LeadView)
    ensures FilterLeads(leads, view) == Filter(leads, l => Shown(view, l))
    ensures forall l :: l in FilterLeads(leads, view) <==> l in leads && Shown(view, l)
    ensures Subsequence(FilterLeads(leads, view), leads)
  {
    var shown := l => Shown(view, l);
    FilterSubsequence(leads, shown);
    match view
    case LeadsView(st, ind, search) =>
      var term := Lower(search);
      FilterIf3(leads, st != AllOption, l => InState(st, l), ind != AllOption, l => InIndustry(ind, l),
                term != "", l => SearchHit(term, l), shown);
    case QueueView(st, ind, notes) =>
      var term := Lower(notes);
      FilterIf3(leads, st != AllOption, l => InState(st, l), ind != AllOption, l => InIndustry(ind, l),
                term != "", l => NotesHit(term, l), shown);
    case EmailView(st, ind) =>
      FilterIf3(leads, st != AllOption, l => InState(st, l), ind != AllOption, l => InIndustry(ind, l),
                false, l => true, shown);
    case OtherView =>
      FilterAll(leads, shown);
  }

  /** The search ignores letter case in the term: terms that lower-case alike filter alike. */
  lemma SearchIgnoresCase(leads: seq<Lead>, st: string, ind: string, a: string, b: string)
    requires Lower(a) == Lower(b)
    ensures FilterLeads(leads, LeadsView(st, ind, a)) == FilterLeads(leads, LeadsView(st, ind, b))
  {
  }

  // ---------------------------------------------------------------------------
  // exportCSV

  /** The header row's column names. */
  const ExportHeaders: seq<string> :=
    ["Company", "Website", "Last Called", "State", "Industry", "Phone", "Contact", "Email", "Comments", "Notes"]

  /**
   * One lead's cells, in header order; `calledText` renders a call time as it is
   * stored, and a lead never called has an empty cell.
   */
  function ExportCells(l: LeadData, calledText: Timestamp -> string): (r: seq<string>)
    ensures |r| == |ExportHeaders|
  {
    [l.company, l.website,
     match l.lastCalled case Some(t) => calledText(t) case None => "",
     l.state, l.industry, l.phone, l.contact, l.email, l.comments, l.notes]
  }

  /** `"${field}"`: the text between double quotes, nothing escaped. */
  function QuoteField(field: string): string {
    "\"" + field + "\""
  }

  function QuoteAll(fields: seq<string>): (r: seq<string>)
    ensures |r| == |fields| && forall k :: 0 <= k < |r| ==> r[k] == QuoteField(fields[k])
  {
    seq(|fields|, k requires 0 <= k < |fields| => QuoteField(fields[k]))
  }

  /** One exported line without its line break: the quoted cells joined by commas. */
  function ExportRow(l: LeadData, calledText: Timestamp -> string): string {
    Join(QuoteAll(ExportCells(l, calledText)), ",")
  }

  /** The lines after the header, each followed by its line break. */
  function ExportBody(leads: seq<Lead>, calledText: Timestamp -> string): string
    decreases |leads|
  {
    if leads == [] then ""
    else ExportBody(leads[..|leads| - 1], calledText) + ExportRow(leads[|leads| - 1].data, calledText) + "\n"
  }

  /** The lines of the file without their line breaks: the header, then one row per lead. */
  function ExportLines(header: string, leads: seq<Lead>, calledText: Timestamp -> string): (r: seq<string>)
    ensures |r| == |leads| + 1 && r[0] == header
    ensures forall k :: 0 <= k < |leads| ==> r[k + 1] == ExportRow(leads[k].data, calledText)
  {
    [header] + seq(|leads|, k requires 0 <= k < |leads| => ExportRow(leads[k].data, calledText))
  }

  /**
   * `exportCSV`'s text: the header line, then one line per lead in store order,
   * every line ending in a line break.
   */
  method ExportCSV(leads: seq<Lead>, calledText: Timestamp -> string) returns (csv: string)
    ensures csv == Join(ExportLines(Join(ExportHeaders, ","), leads, calledText) + [""], "\n")
  {
    csv := BuildExport(Join(ExportHeaders, ","), leads, calledText);
  }

  /** `exportCSV`'s loop for any header line. */
  method BuildExport(header: string, leads: seq<Lead>, calledText: Timestamp -> string) returns (csv: string)
    ensures csv == Join(ExportLines(header, leads, calledText) + [""], "\n")
  {
    csv := header + "\n";
    var i := 0;
    while i < |leads|
      invariant 0 <= i <= |leads|
      invariant csv == header + "\n" + ExportBody(leads[..i], calledText)
    {
      assert leads[..i + 1][..i] == leads[..i];
      csv := csv + ExportRow(leads[i].data, calledText) + "\n";
      i := i + 1;
    }
    assert leads[..i] == leads;
    ExportText(header, leads, calledText);
  }

  /** The last lead's row comes last. */
  lemma ExportLinesSnoc(header: string, leads: seq<Lead>, calledText: Timestamp -> string)
    requires leads != []
    ensures ExportLines(header, leads, calledText) ==
      ExportLines(header, leads[..|leads| - 1], calledText) + [ExportRow(leads[|leads| - 1].data, calledText)]
  {
    var a := ExportLines(header, leads, calledText);
    var b := ExportLines(header, leads[..|leads| - 1], calledText) + [ExportRow(leads[|leads| - 1].data, calledText)];
    assert |a| == |b|;
    forall k | 0 <= k < |a| ensures a[k] == b[k] {
      if 0 < k < |a| - 1 {
        assert leads[..|leads| - 1][k - 1] == leads[k - 1];
      }
    }
  }

  /** The lines, each followed by its line break, are the join of the lines and a final empty piece. */
  lemma {:induction false} ExportText(header: string, leads: seq<Lead>, calledText: Timestamp -> string)
    ensures header + "\n" + ExportBody(leads, calledText) == Join(ExportLines(header, leads, calledText) + [""], "\n")
    decreases |leads|
  {
    if leads != [] {
      var init := leads[..|leads| - 1];
      var last := ExportRow(leads[|leads| - 1].data, calledText);
      var xs := ExportLines(header, init, calledText);
      assert header + "\n" + ExportBody(init, calledText) == Join(xs, "\n") + "\n" by {
        ExportText(header, init, calledText);
        JoinSnoc(xs, "", "\n");
      }
      assert Join(ExportLines(header, leads, calledText) + [""], "\n") == Join(xs, "\n") + "\n" + last + "\n" by {
        ExportLinesSnoc(header, leads, calledText);
        JoinSnoc(xs, last, "\n");
        JoinSnoc(xs + [last], "", "\n");
      }
    } else {
      assert ExportLines(header, leads, calledText) + [""] == [header, ""];
    }
  }

  /** No cell of the lead holds the character `c`. */
  predicate CellsAvoid(l: LeadData, calledText: Timestamp -> string, c: char) {
    forall k :: 0 <= k < |ExportHeaders| ==> c !in ExportCells(l, calledText)[k]
  }

  /** A row holds a character only through its cells, the quotes and the commas. */
  lemma RowAvoids(l: LeadData, calledText: Timestamp -> string, c: char)
    requires c != ',' && c != '"' && CellsAvoid(l, calledText, c)
    ensures c !in ExportRow(l, calledText)
  {
    var q := QuoteAll(ExportCells(l, calledText));
    JoinAvoids(q, ",", c);
  }

  /**
   * Reading the file back line by line: when no cell holds a line break, splitting
   * the text at line breaks gives the header, the rows in order and the empty piece
   * after the last line break.
   */
  lemma ExportSplitsIntoLines(header: string, leads: seq<Lead>, calledText: Timestamp -> string)
    requires '\n' !in header
    requires forall k :: 0 <= k < |leads| ==> CellsAvoid(leads[k].data, calledText, '\n')
    ensures var lines := ExportLines(header, leads, calledText) + [""];
      Split(Join(lines, "\n"), "\n") == lines
  {
    var lines := ExportLines(header, leads, calledText) + [""];
    forall k | 0 <= k < |lines| ensures !Contains(lines[k], "\n") {
      ContainsChar(lines[k], '\n');
      if 1 <= k <= |leads| {
        RowAvoids(leads[k - 1].data, calledText, '\n');
      }
    }
    SplitJoin(lines, "\n");
  }

  /** The exported header line holds no line break. */
  lemma HeaderLineSingle()
    ensures '\n' !in Join(ExportHeaders, ",")
  {
    JoinAvoids(ExportHeaders, ",", '\n');
  }

  /**
   * Reading a row back cell by cell: when no cell holds a comma, splitting the row
   * at commas gives the quoted cells in header order, and dropping each piece's
   * surrounding quotes gives the cells.
   */
  lemma ExportRowSplits(l: LeadData, calledText: Timestamp -> string)
    requires CellsAvoid(l, calledText, ',')
    ensures Split(ExportRow(l, calledText), ",") == QuoteAll(ExportCells(l, calledText))
    ensures forall k :: 0 <= k < |ExportHeaders| ==>
      var piece := Split(ExportRow(l, calledText), ",")[k];
      piece[1..|piece| - 1] == ExportCells(l, calledText)[k]
  {
    var cells := ExportCells(l, calledText);
    var q := QuoteAll(cells);
    forall k | 0 <= k < |q| ensures !Contains(q[k], ",") {
      ContainsChar(q[k], ',');
    }
    SplitJoin(q, ",");
  }
}
