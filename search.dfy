/** The pure half of the autocomplete widget: the term list, the
    case-insensitive prefix filter run on every key-up, the text each
    match is displayed with, the link target, and the index arithmetic of
    the arrow keys. */
module Search {
  import opened Text
  import opened Wrappers

  /** The page-global list of searchable terms, in declaration order. */
  const Searchable: seq<string> := [
    "Schloogy", "Hoppy", "Boem", "Boemba", "Boemy", "Skib", "Swipe",
    "Sickness", "Sancaronies", "Drerrieguy", "Knuist", "Glitch", "Blauw",
    "Swipetrooper"
  ]

  /** The query the handler filters with: the input value trimmed, then
      lower-cased. */
  function Query(value: string): (q: string)
    ensures LowerStr(q) == q
    ensures q != [] ==> !IsSpace(q[0]) && !IsSpace(q[|q| - 1])
    ensures q == [] <==> forall i :: 0 <= i < |value| ==> IsSpace(value[i])
  {
    LowerStr(Trim(value))
  }

  /** The filter callback: the term's lower-case form starts with q. */
  predicate Matches(term: string, q: string) {
    StartsWith(LowerStr(term), q)
  }

  /** Array.prototype.filter with the Matches callback. */
  function Filter(terms: seq<string>, q: string): (r: seq<string>)
    ensures |r| <= |terms|
    ensures forall t :: t in r ==> t in terms && Matches(t, q)
    decreases |terms|
  {
    if terms == [] then []
    else (if Matches(terms[0], q) then [terms[0]] else []) + Filter(terms[1..], q)
  }

  /** The results of one key-up: nothing for an empty query, otherwise
      the matching terms. */
  function SearchResults(terms: seq<string>, value: string): (r: seq<string>)
    ensures Query(value) == [] ==> r == []
    ensures |r| <= |terms|
    ensures forall t :: t in r ==> t in terms && Matches(t, Query(value))
  {
    var q := Query(value);
    if |q| > 0 then Filter(terms, q) else []
  }

  /** r can be obtained from s by deleting elements. */
  predicate IsSubsequence<T(==)>(r: seq<T>, s: seq<T>)
    decreases |s|
  {
    r == [] ||
    (s != [] && ((r[0] == s[0] && IsSubsequence(r[1..], s[1..])) || IsSubsequence(r, s[1..])))
  }

  /** Every matching term is kept. */
  lemma {:induction false} FilterComplete(terms: seq<string>, q: string, t: string)
    requires t in terms && Matches(t, q)
    ensures t in Filter(terms, q)
    decreases |terms|
  {
    if terms[0] != t {
      FilterComplete(terms[1..], q, t);
    }
  }

  /** The results keep the terms' original order. */
  lemma {:induction false} FilterIsSubsequence(terms: seq<string>, q: string)
    ensures IsSubsequence(Filter(terms, q), terms)
    decreases |terms|
  {
    if terms != [] {
      FilterIsSubsequence(terms[1..], q);
      var rest := Filter(terms[1..], q);
      if Matches(terms[0], q) {
        assert Filter(terms, q) == [terms[0]] + rest;
        assert ([terms[0]] + rest)[1..] == rest;
      } else {
        assert Filter(terms, q) == rest;
        if rest != [] {
          assert IsSubsequence(rest, terms[1..]);
        }
      }
    }
  }

  /** Filtering a concatenation filters each part: together with the
      one-element case this determines Filter completely. */
  lemma {:induction false} FilterAppend(a: seq<string>, b: seq<string>, q: string)
    ensures Filter(a + b, q) == Filter(a, q) + Filter(b, q)
    decreases |a|
  {
    if a == [] {
      assert a + b == b;
    } else {
      assert (a + b)[1..] == a[1..] + b;
      FilterAppend(a[1..], b, q);
    }
  }

  /** A term is a result exactly when the query is non-empty and the
      term's lower-case form starts with it. */
  lemma SearchResultsExact(terms: seq<string>, value: string, t: string)
    ensures t in SearchResults(terms, value) <==>
            t in terms && Query(value) != [] && Matches(t, Query(value))
  {
    if t in terms && Query(value) != [] && Matches(t, Query(value)) {
      FilterComplete(terms, Query(value), t);
    }
  }

  /** A blank or whitespace-only input lists nothing, although every
      string starts with the empty string. */
  lemma BlankInputNoResults(terms: seq<string>, value: string)
    requires forall i :: 0 <= i < |value| ==> IsSpace(value[i])
    ensures SearchResults(terms, value) == []
    ensures terms != [] ==> Filter(terms, Query(value)) != []
  {
  }

  /** A term of at least three letters matches "boe" exactly when its
      first three letters are b, o, e in either case. */
  lemma MatchesBoe(t: string)
    requires |t| >= 3
    ensures Matches(t, "boe") <==>
            ToLower(t[0]) == 'b' && ToLower(t[1]) == 'o' && ToLower(t[2]) == 'e'
  {
  }

  /** Typing "boe" lists the three terms that start with it, in list
      order; surrounding blanks and upper case in the input change nothing. */
  lemma BoeExample()
    ensures SearchResults(Searchable, "boe") == ["Boem", "Boemba", "Boemy"]
    ensures SearchResults(Searchable, " BOE ") == ["Boem", "Boemba", "Boemy"]
    ensures SearchResults(["Hoppy", "Boem", "Boemba"], "boe") == ["Boem", "Boemba"]
  {
    BoeQuery();
    BoeFilter("boe");
    BoeSmallFilter();
  }

  lemma BoeQuery()
    ensures Query("boe") == "boe" && Query(" BOE ") == "boe"
  {
    assert LeadingSpaces(" BOE ") == 1;
    assert TrailingSpaces(" BOE ") == 1;
    assert Trim(" BOE ") == "BOE";
  }

  lemma FilterNoneMatch(terms: seq<string>, q: string)
    requires forall t :: t in terms ==> !Matches(t, q)
    ensures Filter(terms, q) == []
  {
  }

  lemma FilterAllMatch(terms: seq<string>, q: string)
    requires forall t :: t in terms ==> Matches(t, q)
    ensures Filter(terms, q) == terms
  {
  }

  /* BoeFilter and the lemmas after it split the "boe" example into a
     head, a middle and a tail of the term list only to keep each proof
     obligation small. */
  lemma BoeFilter(q: string)
    requires q == "boe"
    ensures Filter(Searchable, q) == BoeMiddleTerms
  {
    BoePartition();
    BoeHead(q);
    BoeMiddle(q);
    BoeTail(q);
    FilterOnlyMiddle(BoeHeadTerms, BoeMiddleTerms, BoeTailTerms, q);
  }

  lemma BoePartition()
    ensures Searchable == BoeHeadTerms + BoeMiddleTerms + BoeTailTerms
  {
  }

  /** A list whose outer parts have no match and whose middle part all
      matches filters to its middle part. */
  lemma FilterOnlyMiddle(a: seq<string>, b: seq<string>, c: seq<string>, q: string)
    requires Filter(a, q) == [] && Filter(b, q) == b && Filter(c, q) == []
    ensures Filter(a + b + c, q) == b
  {
    FilterAppend(a, b, q);
    assert Filter(a + b, q) == b;
    FilterAppend(a + b, c, q);
  }

  const BoeHeadTerms: seq<string> := ["Schloogy", "Hoppy"]
  const BoeMiddleTerms: seq<string> := ["Boem", "Boemba", "Boemy"]
  const BoeTailTerms: seq<string> := ["Skib", "Swipe", "Sickness", "Sancaronies", "Drerrieguy",
                                      "Knuist", "Glitch", "Blauw", "Swipetrooper"]

  lemma BoeHead(q: string)
    requires q == "boe"
    ensures Filter(BoeHeadTerms, q) == []
  {
    forall t | t in BoeHeadTerms ensures !Matches(t, q) { MatchesBoe(t); }
    FilterNoneMatch(BoeHeadTerms, q);
  }

  lemma BoeMiddle(q: string)
    requires q == "boe"
    ensures Filter(BoeMiddleTerms, q) == BoeMiddleTerms
  {
    forall t | t in BoeMiddleTerms ensures Matches(t, q) { MatchesBoe(t); }
    FilterAllMatch(BoeMiddleTerms, q);
  }

  lemma BoeTail(q: string)
    requires q == "boe"
    ensures Filter(BoeTailTerms, q) == []
  {
    forall t | t in BoeTailTerms ensures !Matches(t, q) { MatchesBoe(t); }
    FilterNoneMatch(BoeTailTerms, q);
  }

  lemma BoeSmallFilter()
    ensures Filter(["Hoppy", "Boem", "Boemba"], "boe") == ["Boem", "Boemba"]
  {
    var a := ["Hoppy", "Boem", "Boemba"];
    MatchesBoe(a[0]);
    MatchesBoe(a[1]);
    MatchesBoe(a[2]);
    assert a[1..][1..][1..] == [];
  }

  // ---------------------------------------------------------------------
  // Display text, highlight and link of a rendered item

  /** lowerItem.charAt(0).toUpperCase() + lowerItem.slice(1). */
  function Capitalize(s: string): (r: string)
    ensures |r| == |s|
    ensures s != [] ==> r[0] == ToUpper(s[0]) && r[1..] == s[1..]
  {
    if s == [] then [] else [ToUpper(s[0])] + s[1..]
  }

  /** The text a term is displayed with: lower-cased, first letter
      upper-cased. */
  function DisplayText(term: string): (r: string)
    ensures |r| == |term|
    ensures term != [] ==> r[0] == ToUpper(ToLower(term[0]))
    ensures forall i :: 0 < i < |term| ==> r[i] == ToLower(term[i])
  {
    Capitalize(LowerStr(term))
  }

  /** The display text lower-cases back to the term's own lower-case
      form, so it still matches the query, and displaying it again
      changes nothing. */
  lemma DisplayTextShape(term: string)
    ensures LowerStr(DisplayText(term)) == LowerStr(term)
    ensures DisplayText(DisplayText(term)) == DisplayText(term)
  {
  }

  /** The span the case-insensitive regex ^(q) highlights in the display
      text: its first |q| characters when they match q, else nothing. */
  function Highlight(text: string, q: string): (r: string)
    ensures r != [] ==> StartsWith(text, r) && LowerStr(r) == LowerStr(q)
    ensures q != [] && r == [] ==> !StartsWith(LowerStr(text), LowerStr(q))
  {
    if |q| <= |text| && LowerStr(text[..|q|]) == LowerStr(q) then text[..|q|] else []
  }

  /** For a matching term the highlighted span is exactly the first |q|
      characters of its display text, and they spell the query. */
  lemma HighlightOfMatch(term: string, q: string)
    requires Matches(term, q) && LowerStr(q) == q
    ensures Highlight(DisplayText(term), q) == DisplayText(term)[..|q|]
    ensures LowerStr(Highlight(DisplayText(term), q)) == q
  {
  }

  /** The directory of the dictionary pages. */
  const DictionaryDir := "woordenboek"

  /** The link prefix: '' when the page's last path segment is the
      dictionary directory itself, otherwise that directory and a '/'. */
  function BaseUrl(pathname: string): (r: string)
    ensures r == [] <==> LastSegment(pathname) == DictionaryDir
    ensures r == [] || r == DictionaryDir + "/"
  {
    if LastSegment(pathname) == DictionaryDir then "" else DictionaryDir + "/"
  }

  lemma BaseUrlExamples()
    ensures BaseUrl("/schloogy-book/woordenboek") == ""
    ensures BaseUrl("/schloogy-book/woordenboek/") == "woordenboek/"
    ensures BaseUrl("/schloogy-book/index.html") == "woordenboek/"
  {
    assert LastSegment("/schloogy-book/woordenboek/") == "";
    var p := "/schloogy-book/woordenboek";
    assert p[|p| - 12] == '/';
    assert p[|p| - 11..] == "woordenboek";
  }

  /** The item's link target `${baseURL}${lowerItem}.html`, kept as its
      two parts: the base URL and the lower-cased term naming the page. */
  datatype Link = Link(base: string, page: string)

  /** The href string the link stands for. */
  function Href(l: Link): (h: string)
    ensures |h| == |l.base| + |l.page| + 5
    ensures h[..|l.base|] == l.base && h[|h| - 5..] == ".html"
    ensures h[|l.base|..|l.base| + |l.page|] == l.page
  {
    l.base + l.page + ".html"
  }

  /** One rendered list entry: its text content, the highlighted span and
      the link it points to. */
  datatype Item = Item(text: string, highlight: string, link: Link)

  /** One entry of the intended rendering: the display text, and for a
      matching term the typed query as its highlighted prefix, linking to
      the term's page. */
  function RenderItem(term: string, q: string, base: string): (item: Item)
    ensures item.text == DisplayText(term) && item.link == Link(base, LowerStr(term))
    ensures Matches(term, q) && LowerStr(q) == q ==>
              item.highlight == item.text[..|q|] && LowerStr(item.highlight) == q
  {
    var text := DisplayText(term);
    Item(text, Highlight(text, q), Link(base, LowerStr(term)))
  }

  /** results.map(...) with the evidently intended link (itemUrl). */
  function RenderItems(results: seq<string>, q: string, base: string): (items: seq<Item>)
    ensures |items| == |results|
    ensures forall k :: 0 <= k < |results| ==> items[k] == RenderItem(results[k], q, base)
  {
    seq(|results|, k requires 0 <= k < |results| => RenderItem(results[k], q, base))
  }

  /** Every entry rendered for a key-up shows its term's display text with
      the typed query as its highlighted prefix. */
  lemma RenderedResults(terms: seq<string>, value: string, base: string, k: nat)
    requires k < |SearchResults(terms, value)|
    ensures var results := SearchResults(terms, value);
            var item := RenderItems(results, Query(value), base)[k];
            results[k] in terms &&
            item.text == DisplayText(results[k]) &&
            item.highlight == item.text[..|Query(value)|] &&
            LowerStr(item.highlight) == Query(value) &&
            item.link == Link(base, LowerStr(results[k]))
  {
  }

  /** The error JavaScript raises for an undeclared name. */
  datatype JsError = ReferenceError(name: string)

  /** The content computation of lines 71-91 as written: the template at
      line 87 reads the undeclared `lowerItemUrl`, so mapping any result
      throws before anything is rendered. */
  function RenderAsWritten(results: seq<string>, q: string, base: string): (r: Result<seq<Item>, JsError>)
    ensures r.Failure? <==> results != []
    ensures r.Success? ==> r.value == RenderItems(results, q, base)
  {
    if results == [] then Success([]) else Failure(ReferenceError("lowerItemUrl"))
  }

  /** Typing "boe": as written the render throws where the intended one
      lists the three matching terms. */
  lemma BoeRenderAsWritten(base: string)
    ensures var results := SearchResults(Searchable, "boe");
            && RenderAsWritten(results, Query("boe"), base) == Failure(ReferenceError("lowerItemUrl"))
            && |RenderItems(results, Query("boe"), base)| == 3
  {
    BoeExample();
  }

  // ---------------------------------------------------------------------
  // Arrow-key index arithmetic

  /** JavaScript's `%`: the remainder of division truncated toward zero.
      It agrees with the Euclidean remainder on non-negative dividends and
      takes the sign of the dividend otherwise. */
  function JsRemainder(a: int, n: int): (r: int)
    requires n > 0
    ensures -n < r < n
    ensures a == (if a >= 0 then a / n else -((-a) / n)) * n + r
    ensures a >= 0 ==> 0 <= r
    ensures a < 0 ==> r <= 0
  {
    assert a >= 0 ==> a == (a / n) * n + a % n;
    assert a < 0 ==> -a == ((-a) / n) * n + (-a) % n;
    if a >= 0 then a % n else -((-a) % n)
  }

  /** Euclidean remainder of a dividend in [-n, 2n]. */
  lemma SmallMod(x: int, n: int)
    requires n > 0 && -n <= x <= 2 * n
    ensures x % n == if x < 0 then x + n else if x < n then x else if x < 2 * n then x - n else 0
  {
  }

  /** The index navigateResults moves to: (i + d + n) % n with JavaScript's
      `%`. The dividend is negative only for -1 % 1, which JavaScript gives
      as -0; Dafny's 0 stands for it, and items[-0] is items[0]. On every
      index reachable here it equals the Euclidean remainder. */
  function NextIndex(i: int, d: int, n: int): (r: int)
    requires n > 0 && -1 <= i < n && (d == 1 || d == -1)
    ensures 0 <= r < n
    ensures r == (i + d + n) % n
    ensures d == 1 ==> r == (if i == n - 1 then 0 else i + 1)
    ensures d == -1 && i >= 1 ==> r == i - 1
    ensures d == -1 && i == 0 ==> r == n - 1
    ensures d == -1 && i == -1 ==> r == (if n >= 2 then n - 2 else 0)
  {
    var x := i + d + n;
    SmallMod(x, n);
    SmallMod(n - 2, n);
    SmallMod(1, n);
    JsRemainder(x, n)
  }

  /** ArrowUp undoes ArrowDown and ArrowDown undoes ArrowUp on a selected
      entry. */
  lemma UpUndoesDown(i: int, n: int)
    requires n > 0 && 0 <= i < n
    ensures NextIndex(NextIndex(i, 1, n), -1, n) == i
    ensures NextIndex(NextIndex(i, -1, n), 1, n) == i
  {
  }
}
