/** Page markers in extracted PDF text, and the page results made from them. */
module PageText {
  import opened Wrappers
  import opened Text

  const MARKER := "<!-- Page "
  const MARKER_END := " -->"
  const PAGE_BREAK := "\n\n--- PAGE BREAK ---\n\n"
  const INT_MAX := 0x7FFF_FFFF_FFFF_FFFF

  /** strings.Index */
  function Index(s: string, pattern: string): (at: Option<nat>)
    ensures at.Some? ==> at.value + |pattern| <= |s| && s[at.value..at.value + |pattern|] == pattern
  {
    if pattern <= s then Some(0)
    else if s == "" then None
    else match Index(s[1..], pattern) case None => None case Some(i) => Some(i + 1)
  }

  /** strings.Split for a non-empty separator. */
  function Split(s: string, separator: string): (parts: seq<string>)
    requires separator != ""
    ensures parts != []
    decreases |s|
  {
    match Index(s, separator)
    case None => [s]
    case Some(i) => [s[..i]] + Split(s[i + |separator|..], separator)
  }

  // ---------------------------------------------------------------- reading a page number

  /** Length of the leading run of digits. */
  function DigitRun(s: string): (n: nat)
    ensures n <= |s| && AllDigits(s[..n]) && (n < |s| ==> !IsDigit(s[n]))
  {
    if s == "" || !IsDigit(s[0]) then 0
    else var n := DigitRun(s[1..]); assert s[..n + 1] == [s[0]] + s[1..][..n]; n + 1
  }

  /** fmt.Sscanf(s, "%d"): spaces but no newline, an optional sign, digits; what follows is ignored. */
  function ScanInt(s: string): Option<int> {
    if s != "" && s[0] == '\n' then None
    else if s != "" && IsSpace(s[0]) then ScanInt(s[1..])
    else
      var rest := if s != "" && s[0] in {'+', '-'} then s[1..] else s;
      var n := DigitRun(rest);
      if n == 0 then None
      else
        var magnitude: int := Value(rest[..n]);
        var v := if s[0] == '-' then -magnitude else magnitude;
        if -INT_MAX - 1 <= v <= INT_MAX then Some(v) else None
  }

  // ---------------------------------------------------------------- splitPages

  /** One part after a marker: the page it names and its text. */
  function PageOf(part: string, pageCount: nat): Option<(nat, string)> {
    match Index(part, MARKER_END)
    case None => None
    case Some(end) =>
      if end < 1 then None
      else match ScanInt(part[..end])
        case None => None
        case Some(page) => if page < 1 || page > pageCount then None else Some((page, part[end + 4..]))
  }

  function Place(pages: seq<string>, parts: seq<string>): (placed: seq<string>)
    ensures |placed| == |pages|
    decreases |parts|
  {
    if parts == [] then pages
    else match PageOf(parts[0], |pages|)
      case None => Place(pages, parts[1..])
      case Some((page, text)) => Place(pages[page - 1 := text], parts[1..])
  }

  function Blank(n: nat): seq<string> { seq(n, _ => "") }

  function SplitPages(markdown: string, pageCount: nat): (pages: seq<string>) {
    var parts := Split(markdown, MARKER);
    if |parts| == 1 then [markdown] else Place(Blank(pageCount), parts[1..])
  }

  method SplitPagesLoop(markdown: string, pageCount: nat) returns (pages: seq<string>)
    ensures pages == SplitPages(markdown, pageCount)
  {
    hide ScanInt, Split, Index, DigitRun;
    var parts := Split(markdown, MARKER);
    if |parts| == 1 {
      return [markdown];
    }
    pages := Blank(pageCount);
    for i := 1 to |parts|
      invariant |pages| == pageCount
      invariant Place(Blank(pageCount), parts[1..]) == Place(pages, parts[i..])
    {
      assert parts[i..][0] == parts[i] && parts[i..][1..] == parts[i + 1..];
      var part := parts[i];
      var end := Index(part, MARKER_END);
      if end.Some? && end.value >= 1 {
        var page := ScanInt(part[..end.value]);
        if page.Some? && 1 <= page.value <= pageCount {
          pages := pages[page.value - 1 := part[end.value + 4..]];
        }
      }
    }
  }

  // ---------------------------------------------------------------- round trip

  function Part(number: nat, text: string): string { Decimal(number) + MARKER_END + text }

  /** Pages printed as numbered markers followed by their text, numbers starting after `before`. */
  function Printed(texts: seq<string>, before: nat): string
    decreases |texts|
  {
    if texts == [] then "" else MARKER + Part(before + 1, texts[0]) + Printed(texts[1..], before + 1)
  }

  predicate Unmarked(text: string) { Index(text, MARKER).None? }

  lemma {:induction false} NotAtOrAfter(s: string, pattern: string, k: nat)
    requires Index(s, pattern).None? && k <= |s|
    ensures !(pattern <= s[k..])
  {
    if k > 0 {
      NotAtOrAfter(s[1..], pattern, k - 1);
      assert s[1..][k - 1..] == s[k..];
    } else {
      assert s[0..] == s;
    }
  }

  lemma {:induction false} IndexSkips(a: string, b: string, pattern: string)
    requires pattern <= b && forall k | 0 <= k < |a| :: !(pattern <= (a + b)[k..])
    ensures Index(a + b, pattern) == Some(|a|)
  {
    if a == "" {
      assert a + b == b;
    } else {
      assert (a + b)[0..] == a + b && (a + b)[1..] == a[1..] + b;
      forall k | 0 <= k < |a[1..]|
        ensures !(pattern <= (a[1..] + b)[k..])
      {
        assert (a[1..] + b)[k..] == (a + b)[k + 1..];
      }
      IndexSkips(a[1..], b, pattern);
    }
  }

  lemma {:induction false} IndexNever(a: string, pattern: string)
    requires pattern != "" && forall k | 0 <= k < |a| :: !(pattern <= a[k..])
    ensures Index(a, pattern).None?
  {
    if a != "" {
      assert a[0..] == a;
      forall k | 0 <= k < |a[1..]|
        ensures !(pattern <= a[1..][k..])
      {
        assert a[1..][k..] == a[k + 1..];
      }
      IndexNever(a[1..], pattern);
    }
  }

  /** A marker starts with the only '<' it contains, so it cannot begin inside a part and end in the next marker. */
  lemma NoMarkerInPart(number: nat, text: string, next: string, k: nat)
    requires Unmarked(text) && (next == "" || MARKER <= next)
    requires k < |Part(number, text)|
    ensures !(MARKER <= (Part(number, text) + next)[k..])
  {
    hide Index, Decimal;
    var d, part := Decimal(number), Part(number, text);
    var s := part + next;
    assert s[k..][0] == s[k];
    if k < |d| {
      assert s[k] == d[k] && IsDigit(d[k]);
    } else if k < |d| + 4 {
      assert s[k] == MARKER_END[k - |d|];
    } else if k + 10 <= |part| {
      var j := k - |d| - 4;
      assert text[j..][..10] == s[k..][..10];
      NotAtOrAfter(text, MARKER, j);
    } else if next != "" {
      var offset := |part| - k;
      assert s[k..][offset] == s[|part|] == next[0] == MARKER[0];
      assert 1 <= offset < 10 && MARKER[offset] != MARKER[0];
    }
  }

  /** The parts between the markers of a printed document. */
  function Parts(texts: seq<string>, before: nat): (parts: seq<string>)
    ensures |parts| == |texts|
    decreases |texts|
  {
    if texts == [] then [] else [Part(before + 1, texts[0])] + Parts(texts[1..], before + 1)
  }

  lemma SplitStep(part: string, rest: string)
    requires forall k | 0 <= k < |part| :: !(MARKER <= (part + (MARKER + rest))[k..])
    ensures Split(part + (MARKER + rest), MARKER) == [part] + Split(rest, MARKER)
  {
    var s := part + (MARKER + rest);
    IndexSkips(part, MARKER + rest, MARKER);
    assert s[..|part|] == part && s[|part| + 10..] == rest;
  }

  lemma {:induction false} SplitOfPrinted(texts: seq<string>, before: nat)
    requires texts != [] && forall i | 0 <= i < |texts| :: Unmarked(texts[i])
    ensures Split(Part(before + 1, texts[0]) + Printed(texts[1..], before + 1), MARKER) == Parts(texts, before)
    decreases |texts|
  {
    hide Part, Index, Split;
    var part, next := Part(before + 1, texts[0]), Printed(texts[1..], before + 1);
    assert next == "" || MARKER <= next by {
      if |texts| > 1 {
        var tail := Part(before + 2, texts[1]) + Printed(texts[1..][1..], before + 2);
        assert next == MARKER + tail;
      }
    }
    forall k | 0 <= k < |part|
      ensures !(MARKER <= (part + next)[k..])
    {
      NoMarkerInPart(before + 1, texts[0], next, k);
    }
    if |texts| == 1 {
      assert part + next == part;
      IndexNever(part, MARKER);
      SplitWithout(part);
    } else {
      SplitOfPrinted(texts[1..], before + 1);
      var tail := Part(before + 2, texts[1]) + Printed(texts[1..][1..], before + 2);
      assert next == MARKER + tail;
      SplitStep(part, tail);
    }
  }

  lemma SplitWithout(part: string)
    requires Index(part, MARKER).None?
    ensures Split(part, MARKER) == [part]
  {
  }

  lemma {:induction false} AllDigitsRun(d: string, rest: string)
    requires AllDigits(d) && (rest == "" || !IsDigit(rest[0]))
    ensures DigitRun(d + rest) == |d|
  {
    if d == "" {
      assert d + rest == rest;
    } else {
      AllDigitsRun(d[1..], rest);
      assert (d + rest)[1..] == d[1..] + rest;
    }
  }

  lemma ScanDecimal(number: nat)
    requires number <= INT_MAX
    ensures ScanInt(Decimal(number)) == Some(number)
  {
    var d := Decimal(number);
    ValueOfDecimal(number);
    AllDigitsRun(d, "");
    hide Decimal;
    assert d + "" == d && d[..|d|] == d && IsDigit(d[0]);
    hide Value, DigitRun;
  }

  lemma EndOfDecimal(number: nat, text: string)
    ensures Index(Part(number, text), MARKER_END) == Some(|Decimal(number)|)
  {
    hide Decimal, Index;
    var d := Decimal(number);
    var tail := MARKER_END + text;
    assert Part(number, text) == d + tail;
    forall k | 0 <= k < |d|
      ensures !(MARKER_END <= (d + tail)[k..])
    {
      assert (d + tail)[k..][0] == d[k] && IsDigit(d[k]);
    }
    IndexSkips(d, tail, MARKER_END);
  }

  lemma PartNamesItsPage(number: nat, text: string, pageCount: nat)
    requires 1 <= number <= pageCount <= INT_MAX
    ensures PageOf(Part(number, text), pageCount) == Some((number, text))
  {
    hide Decimal, Index, ScanInt;
    EndOfDecimal(number, text);
    ScanDecimal(number);
    var d, part := Decimal(number), Part(number, text);
    assert part[..|d|] == d && part[|d| + 4..] == text;
    hide Part;
  }

  lemma {:induction false} PlaceInOrder(texts: seq<string>, pages: seq<string>, from: nat)
    requires from <= |texts| == |pages| <= INT_MAX
    requires forall i | 0 <= i < from :: pages[i] == texts[i]
    ensures Place(pages, Parts(texts[from..], from)) == texts
    decreases |texts| - from
  {
    hide Part, PageOf;
    if from == |texts| {
      assert pages == texts;
    } else {
      PartNamesItsPage(from + 1, texts[from], |pages|);
      assert texts[from..][0] == texts[from] && texts[from..][1..] == texts[from + 1..];
      PlaceInOrder(texts, pages[from := texts[from]], from + 1);
    }
  }

  function AfterFirstMarker(texts: seq<string>): string
    requires texts != []
  {
    Part(1, texts[0]) + Printed(texts[1..], 1)
  }

  lemma PrintedStarts(texts: seq<string>)
    requires texts != []
    ensures Printed(texts, 0) == MARKER + AfterFirstMarker(texts)
  {
    hide Part;
  }

  lemma SplitAtMarker(rest: string)
    ensures Split(MARKER + rest, MARKER) == [""] + Split(rest, MARKER)
  {
    var s := MARKER + rest;
    assert s[..0] == "" && s[10..] == rest;
  }

  lemma MarkersOfPrinted(texts: seq<string>)
    requires texts != [] && forall i | 0 <= i < |texts| :: Unmarked(texts[i])
    ensures Split(Printed(texts, 0), MARKER) == [""] + Parts(texts, 0)
  {
    hide *;
    PrintedStarts(texts);
    SplitAtMarker(AfterFirstMarker(texts));
    SplitAfterFirst(texts);
  }

  lemma SplitAfterFirst(texts: seq<string>)
    requires texts != [] && forall i | 0 <= i < |texts| :: Unmarked(texts[i])
    ensures Split(AfterFirstMarker(texts), MARKER) == Parts(texts, 0)
  {
    hide Split, Part, Parts, Printed, Unmarked;
    SplitOfPrinted(texts, 0);
  }

  /** Printing pages with numbered markers and splitting them gives the pages back. */
  lemma SplitUndoesPrint(texts: seq<string>)
    requires 0 < |texts| <= INT_MAX && forall i | 0 <= i < |texts| :: Unmarked(texts[i])
    ensures SplitPages(Printed(texts, 0), |texts|) == texts
  {
    hide Split, Printed, Parts, Unmarked, Place, Part, Index;
    MarkersOfPrinted(texts);
    var parts := Parts(texts, 0);
    assert ([""] + parts)[1..] == parts && |[""] + parts| > 1;
    assert texts[0..] == texts;
    PlaceInOrder(texts, Blank(|texts|), 0);
  }

  // ---------------------------------------------------------------- page results

  datatype PageResult = PageResult(number: nat, text: string)

  datatype OcrResult = OcrResult(text: string, pageCount: nat, pages: seq<PageResult>)

  /** Numbered results of the non-blank ones among the first `n` pages. */
  function Kept(pages: seq<string>, n: nat): seq<PageResult>
    requires n <= |pages|
  {
    if n == 0 then []
    else
      var text := TrimSpace(pages[n - 1]);
      Kept(pages, n - 1) + if text == "" then [] else [PageResult(n, text)]
  }

  function TextsOf(results: seq<PageResult>): (texts: seq<string>)
    ensures |texts| == |results|
  {
    seq(|results|, i requires 0 <= i < |results| => results[i].text)
  }

  /** Nothing is kept but trimmed non-blank pages under their own number, in increasing order. */
  lemma {:induction false} KeptAreNonBlank(pages: seq<string>, n: nat)
    requires n <= |pages|
    ensures forall i | 0 <= i < |Kept(pages, n)| ::
              var r := Kept(pages, n)[i]; 1 <= r.number <= n && r.text == TrimSpace(pages[r.number - 1]) != ""
    ensures forall i, j | 0 <= i < j < |Kept(pages, n)| :: Kept(pages, n)[i].number < Kept(pages, n)[j].number
  {
    hide TrimSpace;
    if n > 0 {
      KeptAreNonBlank(pages, n - 1);
    }
  }

  /** And no non-blank page is left out. */
  lemma {:induction false} NonBlankAreKept(pages: seq<string>, n: nat, i: nat)
    requires i < n <= |pages| && TrimSpace(pages[i]) != ""
    ensures PageResult(i + 1, TrimSpace(pages[i])) in Kept(pages, n)
  {
    hide TrimSpace;
    if i < n - 1 {
      NonBlankAreKept(pages, n - 1, i);
    }
  }

  /**
   The conversion keeps exactly the non-blank pages with increasing numbers and joins their texts; if the
   markers leave no page with text, the whole text becomes page 1.
   */
  method ToOcrResult(markdown: string, pageCount: nat) returns (result: OcrResult)
    ensures result.pageCount == pageCount
    ensures TrimSpace(markdown) == "" ==> result.text == "" && result.pages == []
    ensures TrimSpace(markdown) != "" ==>
              var pages := SplitPages(TrimSpace(markdown), pageCount);
              var kept := Kept(pages, |pages|);
              && result.pages == (if kept == [] then [PageResult(1, TrimSpace(markdown))] else kept)
              && result.text == Join(TextsOf(result.pages), "\n\n--- PAGE BREAK ---\n\n")
  {
    hide SplitPages, TrimSpace;
    var text := TrimSpace(markdown);
    if text == "" {
      return OcrResult("", pageCount, []);
    }
    var pages := SplitPagesLoop(text, pageCount);
    var pageResults, full := [], [];
    for i := 0 to |pages|
      invariant pageResults == Kept(pages, i) && full == TextsOf(pageResults)
    {
      var pageText := TrimSpace(pages[i]);
      if pageText == "" {
        continue;
      }
      pageResults := pageResults + [PageResult(i + 1, pageText)];
      full := full + [pageText];
    }
    if |full| == 0 {
      full, pageResults := [text], [PageResult(1, text)];
      assert TextsOf(pageResults) == full;
    }
    return OcrResult(Join(full, PAGE_BREAK), pageCount, pageResults);
  }

  /** The marker as it stands in the text. */
  lemma MarkerText(number: nat, text: string)
    requires number >= 1
    ensures Printed([text], number - 1) == "<!-- Page " + Decimal(number) + " -->" + text
  {
    hide Decimal;
    assert [text][1..] == [];
    assert Part(number, text) == Decimal(number) + " -->" + text;
  }

  /** Page numbers may have spaces before them, a sign, and anything but a digit after them; a line break before them is refused. */
  lemma ScannedNumbers(n: nat, after: string)
    requires after != "" ==> !IsDigit(after[0])
    ensures var s := Decimal(n) + after;
            && ScanInt(s) == (if n <= 0x7FFF_FFFF_FFFF_FFFF then Some(n as int) else None)
            && ScanInt(['+'] + s) == ScanInt(s) && ScanInt([' '] + s) == ScanInt(s) && ScanInt(['\n'] + s) == None
            && ScanInt(['-'] + s) == (if n <= 0x8000_0000_0000_0000 then Some(-(n as int)) else None)
  {
    var s := Decimal(n) + after;
    ValueOfDecimal(n);
    DigitRunIs(Decimal(n), after);
    assert s[..|Decimal(n)|] == Decimal(n) && IsDigit(s[0]);
    hide Decimal, Value, DigitRun;
    SignedScan(s, |Decimal(n)|, n);
    assert ([' '] + s)[1..] == s && IsSpace(' ');
  }

  /** Without a number there is no page. */
  lemma NothingScanned(s: string)
    requires s == "" || (!IsDigit(s[0]) && !IsSpace(s[0]) && s[0] !in {'+', '-'})
    ensures ScanInt(s) == None && ScanInt(['+'] + s) == None && ScanInt(['-'] + s) == None
  {
    assert (['+'] + s)[1..] == s && (['-'] + s)[1..] == s;
    assert !IsSpace('+') && !IsSpace('-');
  }

  /** Text without a marker is one page. */
  lemma UnmarkedIsOnePage(markdown: string, pageCount: nat)
    requires forall k | 0 <= k <= |markdown| :: !("<!-- Page " <= markdown[k..])
    ensures SplitPages(markdown, pageCount) == [markdown]
  {
    NotFound(markdown, "<!-- Page ");
  }

  lemma {:induction false} NotFound(s: string, pattern: string)
    requires forall k | 0 <= k <= |s| :: !(pattern <= s[k..])
    ensures Index(s, pattern) == None
  {
    assert s[0..] == s;
    if s != "" {
      assert forall k | 0 <= k <= |s[1..]| :: s[1..][k..] == s[k + 1..];
      NotFound(s[1..], pattern);
    }
  }

  lemma SignedScan(s: string, run: nat, n: nat)
    requires s != "" && IsDigit(s[0]) && 0 < run <= |s| && DigitRun(s) == run && AllDigits(s[..run]) && Value(s[..run]) == n
    ensures ScanInt(s) == (if n <= 0x7FFF_FFFF_FFFF_FFFF then Some(n as int) else None) && ScanInt(['+'] + s) == ScanInt(s)
    ensures ScanInt(['-'] + s) == (if n <= 0x8000_0000_0000_0000 then Some(-(n as int)) else None)
  {
    hide Value, DigitRun;
    assert (['+'] + s)[1..] == s && (['-'] + s)[1..] == s;
    assert !IsSpace(s[0]) && !IsSpace('+') && !IsSpace('-') && s[0] != '\n';
  }

  lemma {:induction false} DigitRunIs(digits: string, after: string)
    requires AllDigits(digits) && (after != "" ==> !IsDigit(after[0]))
    ensures DigitRun(digits + after) == |digits|
  {
    if digits == "" {
      assert digits + after == after;
    } else {
      assert IsDigit(digits[0]);
      assert (digits + after)[1..] == digits[1..] + after;
      DigitRunIs(digits[1..], after);
    }
  }

  // ---------------------------------------------------------------- from printed document to page results

  lemma {:induction false} TrimEndStops(a: string, b: string)
    requires a != "" && !IsSpace(a[|a| - 1])
    ensures TrimEnd(a + b) == a + TrimEnd(b)
    decreases |b|
  {
    if b == "" {
      assert a + b == a;
    } else if IsSpace(b[|b| - 1]) {
      TrimEndStops(a, b[..|b| - 1]);
      assert (a + b)[..|a + b| - 1] == a + b[..|b| - 1];
    }
  }

  lemma {:induction false} TrimEndShape(s: string)
    ensures TrimEnd(s) <= s && (TrimEnd(s) != "" ==> !IsSpace(TrimEnd(s)[|TrimEnd(s)| - 1]))
    ensures TrimEnd(TrimEnd(s)) == TrimEnd(s)
    ensures s != "" && !IsSpace(s[0]) ==> TrimEnd(s) != ""
    decreases |s|
  {
    if s != "" && IsSpace(s[|s| - 1]) {
      TrimEndShape(s[..|s| - 1]);
    }
  }

  lemma {:induction false} TrimEndOfCons(c: char, u: string)
    ensures TrimEnd([c] + u) == if TrimEnd(u) == "" then (if IsSpace(c) then "" else [c]) else [c] + TrimEnd(u)
    decreases |u|
  {
    if u == "" {
      assert [c] + u == [c] && [c][..0] == "";
    } else if IsSpace(u[|u| - 1]) {
      TrimEndOfCons(c, u[..|u| - 1]);
      assert ([c] + u)[..|u|] == [c] + u[..|u| - 1];
    }
  }

  /** Trimming the end first makes no difference to a full trim. */
  lemma {:induction false} TrimsCommute(t: string)
    ensures TrimLeft(TrimEnd(t)) == TrimEnd(TrimLeft(t))
    ensures TrimSpace(TrimEnd(t)) == TrimSpace(t)
  {
    TrimEndShape(TrimLeft(t));
    if t != "" {
      assert t == [t[0]] + t[1..];
      TrimEndOfCons(t[0], t[1..]);
      if IsSpace(t[0]) {
        TrimsCommute(t[1..]);
        if TrimEnd(t) != "" {
          assert TrimEnd(t)[1..] == TrimEnd(t[1..]);
        }
      }
    }
  }

  function LastTrimmed(texts: seq<string>): seq<string>
    requires texts != []
  {
    texts[|texts| - 1 := TrimEnd(texts[|texts| - 1])]
  }

  function Head(number: nat): (head: string)
    ensures head != "" && !IsSpace(head[|head| - 1])
  {
    MARKER + (Decimal(number) + MARKER_END)
  }

  lemma PrintedAs(texts: seq<string>, before: nat)
    requires texts != []
    ensures Printed(texts, before) == Head(before + 1) + texts[0] + Printed(texts[1..], before + 1)
  {
    var rest := Printed(texts[1..], before + 1);
    assert Printed(texts, before) == MARKER + Part(before + 1, texts[0]) + rest;
    hide Printed, Decimal;
    Reassociated(MARKER, Decimal(before + 1), MARKER_END, texts[0]);
  }

  lemma Reassociated(a: string, b: string, c: string, d: string)
    ensures a + (b + c + d) == a + b + c + d
  {
    assert b + c + d == b + (c + d);
    assert a + b + c + d == a + (b + (c + d));
  }

  lemma LastTrimmedTail(texts: seq<string>)
    requires |texts| > 1
    ensures LastTrimmed(texts)[0] == texts[0] && LastTrimmed(texts)[1..] == LastTrimmed(texts[1..])
  {
  }

  lemma PrintedOfOne(texts: seq<string>, before: nat)
    requires |texts| == 1
    ensures TrimEnd(Printed(texts, before)) == Printed(LastTrimmed(texts), before)
  {
    TrimEndStops(Head(before + 1), texts[0]);
    PrintedAs(texts, before);
    PrintedAs(LastTrimmed(texts), before);
    assert texts[1..] == [] == LastTrimmed(texts)[1..];
    assert Printed([], before + 1) == "";
    hide Printed, Head, TrimEnd;
    assert Head(before + 1) + texts[0] + "" == Head(before + 1) + texts[0];
    assert Head(before + 1) + TrimEnd(texts[0]) + "" == Head(before + 1) + TrimEnd(texts[0]);
  }

  lemma {:induction false} TrimEndOfPrinted(texts: seq<string>, before: nat)
    requires texts != []
    ensures TrimEnd(Printed(texts, before)) == Printed(LastTrimmed(texts), before) != ""
    decreases |texts|
  {
    PrintedAs(LastTrimmed(texts), before);
    hide Printed, TrimEnd, LastTrimmed;
    if |texts| == 1 {
      PrintedOfOne(texts, before);
    } else {
      TrimEndOfPrinted(texts[1..], before + 1);
      PrintedAs(texts, before);
      LastTrimmedTail(texts);
      TrimEndOfTwo(Head(before + 1) + texts[0], Printed(texts[1..], before + 1), Printed(LastTrimmed(texts[1..]), before + 1));
    }
  }

  lemma {:induction false} TrimEndOfTwo(a: string, b: string, trimmed: string)
    requires TrimEnd(b) == trimmed != ""
    ensures TrimEnd(a + b) == a + trimmed
    decreases |b|
  {
    if b != "" && IsSpace(b[|b| - 1]) {
      TrimEndOfTwo(a, b[..|b| - 1], trimmed);
      assert (a + b)[..|a + b| - 1] == a + b[..|b| - 1];
    }
  }

  lemma UnmarkedPrefix(t: string, u: string)
    requires Unmarked(t) && u <= t
    ensures Unmarked(u)
  {
    forall k | 0 <= k < |u|
      ensures !(MARKER <= u[k..])
    {
      NotAtOrAfter(t, MARKER, k);
      assert u[k..] <= t[k..];
    }
    IndexNever(u, MARKER);
  }

  lemma {:induction false} KeptOfSame(a: seq<string>, b: seq<string>, n: nat)
    requires n <= |a| == |b| && forall i | 0 <= i < |a| :: TrimSpace(a[i]) == TrimSpace(b[i])
    ensures Kept(a, n) == Kept(b, n)
  {
    hide TrimSpace;
    if n > 0 {
      KeptOfSame(a, b, n - 1);
    }
  }

  lemma KeptOfTrimmed(texts: seq<string>, n: nat)
    requires texts != [] && n <= |texts|
    ensures Kept(LastTrimmed(texts), n) == Kept(texts, n)
  {
    TrimsCommute(texts[|texts| - 1]);
    hide TrimSpace, TrimEnd;
    KeptOfSame(LastTrimmed(texts), texts, n);
  }

  lemma PrintedStartsWithMarker(texts: seq<string>)
    requires texts != []
    ensures TrimLeft(Printed(texts, 0)) == Printed(texts, 0)
  {
    hide Part;
    assert Printed(texts, 0)[0] == MARKER[0];
  }

  /** Whatever pages the extractor printed, the result holds exactly the non-blank ones, though the document is trimmed before it is split. */
  lemma ResultOfPrintedPages(texts: seq<string>)
    requires 0 < |texts| <= INT_MAX && forall i | 0 <= i < |texts| :: Unmarked(texts[i])
    ensures SplitPages(TrimSpace(Printed(texts, 0)), |texts|) == LastTrimmed(texts)
    ensures Kept(SplitPages(TrimSpace(Printed(texts, 0)), |texts|), |texts|) == Kept(texts, |texts|)
  {
    TrimmedPrint(texts);
    LastTrimmedUnmarked(texts);
    KeptOfTrimmed(texts, |texts|);
    hide *;
    SplitUndoesPrint(LastTrimmed(texts));
  }

  lemma TrimmedPrint(texts: seq<string>)
    requires texts != []
    ensures TrimSpace(Printed(texts, 0)) == Printed(LastTrimmed(texts), 0)
  {
    PrintedStartsWithMarker(texts);
    TrimEndOfPrinted(texts, 0);
    hide Printed, TrimEnd, TrimLeft, LastTrimmed;
  }

  lemma LastTrimmedUnmarked(texts: seq<string>)
    requires texts != [] && forall i | 0 <= i < |texts| :: Unmarked(texts[i])
    ensures |LastTrimmed(texts)| == |texts| && forall i | 0 <= i < |texts| :: Unmarked(LastTrimmed(texts)[i])
  {
    TrimEndShape(texts[|texts| - 1]);
    UnmarkedPrefix(texts[|texts| - 1], TrimEnd(texts[|texts| - 1]));
    hide TrimEnd, Unmarked;
  }
}
