/**
 * The browser side: the search page's `BraverExplorer` object with its
 * recently-used search list, the guard that ignores blank searches, the
 * suggestion list shown while typing, the result snippet and the page
 * buttons under the results.
 */
module Explorer {

  import opened Wrappers
  import opened JsText
  import opened JsNumber
  import opened JsArray

  /** The most searches the recently-used list keeps. */
  const HistoryCap := 10

  /** `s` without the entries equal to `q`, in their order (`filter(item => item !== q)`). */
  function Without(s: seq<string>, q: string): (r: seq<string>)
    ensures |r| <= |s|
    ensures forall x :: x in r <==> x in s && x != q
    ensures q !in s ==> r == s
  {
    if s == [] then []
    else (if s[0] == q then [] else [s[0]]) + Without(s[1..], q)
  }

  /** A solver hint: one unfolding of `Without` on a list with a known head. */
  lemma WithoutCons(x: string, t: seq<string>, q: string)
    ensures Without([x] + t, q) == (if x == q then [] else [x]) + Without(t, q)
  {
    assert ([x] + t)[0] == x;
    assert ([x] + t)[1..] == t;
  }

  /** Filtering distributes over concatenation, so the kept entries stay in their order. */
  lemma {:induction false} WithoutAppend(a: seq<string>, b: seq<string>, q: string)
    ensures Without(a + b, q) == Without(a, q) + Without(b, q)
  {
    if a == [] {
      assert a + b == b;
    } else {
      var h := a[0];
      var t := a[1..];
      var head := if h == q then [] else [h];
      WithoutAppend(t, b, q);
      calc {
        Without(a + b, q);
        { assert a == [h] + t; AppendAssoc([h], t, b); }
        Without([h] + (t + b), q);
        { WithoutCons(h, t + b, q); }
        head + Without(t + b, q);
        head + (Without(t, q) + Without(b, q));
        { AppendAssoc(head, Without(t, q), Without(b, q)); }
        (head + Without(t, q)) + Without(b, q);
        { assert a == [h] + t; WithoutCons(h, t, q); }
        Without(a, q) + Without(b, q);
      }
    }
  }

  /** Dropping the entries equal to `q` keeps a list without repetitions free of them. */
  lemma {:induction false} WithoutDistinct(s: seq<string>, q: string)
    requires Distinct(s)
    ensures Distinct(Without(s, q))
  {
    if s != [] {
      assert Distinct(s[1..]) by {
        forall i, j | 0 <= i < j < |s[1..]| ensures s[1..][i] != s[1..][j] {
          assert s[1..][i] == s[i + 1] && s[1..][j] == s[j + 1];
        }
      }
      WithoutDistinct(s[1..], q);
      var rest := Without(s[1..], q);
      if s[0] != q {
        assert s[0] !in rest by {
          assert s[0] !in s[1..];
        }
      }
    }
  }

  /** The recently-used list after searching for `q`: `q` in front of the older entries other than `q`, cut to 10. */
  function Remember(history: seq<string>, q: string): (r: seq<string>)
    ensures r != [] && r[0] == q
    ensures |r| <= HistoryCap
    ensures r[1..] == Slice(Without(history, q), Int(HistoryCap - 1))
  {
    Slice([q] + Without(history, q), Int(HistoryCap))
  }

  /** `q` occurs exactly once in the list after it is remembered. */
  lemma RememberOnce(history: seq<string>, q: string)
    ensures multiset(Remember(history, q))[q] == 1
  {
    var r := Remember(history, q);
    assert r == [q] + r[1..];
    assert q !in r[1..] by {
      assert r[1..] <= Without(history, q);
    }
  }

  /** Remembering keeps a list without repetitions free of them. */
  lemma RememberDistinct(history: seq<string>, q: string)
    requires Distinct(history)
    ensures Distinct(Remember(history, q))
  {
    WithoutDistinct(history, q);
    var r := Remember(history, q);
    var w := Without(history, q);
    forall i, j | 0 <= i < j < |r| ensures r[i] != r[j] {
      assert r[j] == w[j - 1];
      if i > 0 {
        assert r[i] == w[i - 1];
      } else {
        assert w[j - 1] in w;
      }
    }
  }

  /** Searching again for the query at the head of a list without repetitions leaves the list as it is. */
  lemma RememberHead(history: seq<string>, q: string)
    requires Distinct(history) && |history| <= HistoryCap
    requires history != [] && history[0] == q
    ensures Remember(history, q) == history
  {
    assert q !in history[1..] by {
      forall k | 0 <= k < |history[1..]| ensures history[1..][k] != q {
        assert history[1..][k] == history[k + 1];
      }
    }
    assert history == [q] + history[1..];
    WithoutAppend([q], history[1..], q);
  }

  /** Remembering the same query twice is remembering it once, whatever the list held before. */
  lemma RememberIdempotent(history: seq<string>, q: string)
    ensures Remember(Remember(history, q), q) == Remember(history, q)
  {
    var r := Remember(history, q);
    var rest := r[1..];
    assert r == [q] + rest;
    assert rest <= Without(history, q);
    assert q !in rest;
    WithoutCons(q, rest, q);
    assert Without(r, q) == rest;
  }

  /** The five suggestion templates offered when the suggestion service cannot be reached. */
  const SuggestionSuffixes: seq<string> := [" nedir?", " nasıl yapılır?", " haberleri", " görseller", " hakkında bilgi"]

  /** The local suggestions for `query`: the query followed by each template, in order. */
  function LocalSuggestions(query: string): (r: seq<string>)
    ensures |r| == |SuggestionSuffixes|
    ensures forall i :: 0 <= i < |r| ==> query <= r[i] && r[i][|query|..] == SuggestionSuffixes[i]
  {
    seq(|SuggestionSuffixes|, i requires 0 <= i < |SuggestionSuffixes| => query + SuggestionSuffixes[i])
  }

  /** The five local suggestions are different from each other. */
  lemma LocalSuggestionsDistinct(query: string)
    ensures Distinct(LocalSuggestions(query))
  {
    var r := LocalSuggestions(query);
    forall i, j | 0 <= i < j < |r| ensures r[i] != r[j] {
      assert r[i][|query|..] == SuggestionSuffixes[i];
      assert r[j][|query|..] == SuggestionSuffixes[j];
      assert SuggestionSuffixes[i] != SuggestionSuffixes[j] by {
        assert SuggestionSuffixes[i][|SuggestionSuffixes[i]| - 1] != SuggestionSuffixes[j][|SuggestionSuffixes[j]| - 1]
          || |SuggestionSuffixes[i]| != |SuggestionSuffixes[j]|;
      }
    }
  }

  /** What the suggestion box under the search field shows. */
  datatype Dropdown = Closed | RecentSearches(items: seq<string>) | Suggestions(items: seq<string>)

  /** The outcome of asking the suggestion service: the request failed, or a reply with an optional `suggestions` list. */
  datatype SuggestReply = Unreachable | Reply(suggestions: Option<seq<string>>)

  /**
   * Showing `items` in the box. An empty list closes the box. Otherwise
   * every item is highlighted with the regular expression built from the
   * field's text, and `isPattern` says whether that text, wrapped in a group,
   * compiles as one. When it does not, the call throws and the box keeps what
   * it showed; None stands for that.
   */
  function ShowSuggestions(items: seq<string>, isPattern: bool): (box: Option<Dropdown>)
    ensures items == [] ==> box == Some(Closed)
    ensures items != [] ==> (box.Some? <==> isPattern)
    ensures box.Some? && box.value.Suggestions? ==> box.value.items == items != []
  {
    if items == [] then Some(Closed)
    else if isPattern then Some(Suggestions(items))
    else None
  }

  const NoDescription := "Bu sonuç için açıklama mevcut değil."

  /** `words.some(word => text.includes(word))`. */
  function SomeIncluded(words: seq<string>, text: string): (b: bool)
    ensures b <==> exists w :: w in words && Includes(text, w)
  {
    if words == [] then false
    else Includes(text, words[0]) || SomeIncluded(words[1..], text)
  }

  /** Whether a sentence, lowercased, contains one of the query's words. */
  predicate Mentions(sentence: string, words: seq<string>, lower: string -> string) {
    SomeIncluded(words, lower(sentence))
  }

  /** The index of the first sentence that mentions a word, if any sentence does. */
  function FirstMention(sentences: seq<string>, words: seq<string>, lower: string -> string): (k: Option<nat>)
    ensures k.Some? ==> k.value < |sentences| && Mentions(sentences[k.value], words, lower)
    ensures k.Some? ==> forall j :: 0 <= j < k.value ==> !Mentions(sentences[j], words, lower)
    ensures k.None? ==> forall j :: 0 <= j < |sentences| ==> !Mentions(sentences[j], words, lower)
  {
    if sentences == [] then None
    else if Mentions(sentences[0], words, lower) then Some(0)
    else
      var k := FirstMention(sentences[1..], words, lower);
      assert forall j :: 1 <= j < |sentences| ==> sentences[j] == sentences[1..][j - 1];
      if k.Some? then Some(k.value + 1) else None
  }

  /**
   * The snippet shown under a result: the fixed message when there is no
   * content; otherwise the first 160 characters of the first '.'-separated
   * sentence that, lowercased, contains a word of the lowercased query (or
   * of the whole content when none does), followed by "...".
   */
  function Snippet(content: Option<string>, query: string, lower: string -> string): (s: string)
    ensures content.None? || content.value == [] ==> s == NoDescription
    ensures content.Some? && content.value != [] ==>
      var sentences := Split(content.value, '.');
      var k := FirstMention(sentences, Split(lower(query), ' '), lower);
      && 3 <= |s| <= 163
      && s[|s| - 3..] == "..."
      && (k.Some? ==> s[..|s| - 3] <= sentences[k.value] && |s| - 3 == Min(|sentences[k.value]|, 160))
      && (k.None? ==> s[..|s| - 3] <= content.value && |s| - 3 == Min(|content.value|, 160))
  {
    if content.None? || content.value == [] then NoDescription
    else
      var sentences := Split(content.value, '.');
      var k := FirstMention(sentences, Split(lower(query), ' '), lower);
      var p := if k.Some? then Prefix(sentences[k.value], 160) else Prefix(content.value, 160);
      assert (p + "...")[..|p|] == p;
      p + "..."
  }

  /** Every string includes the empty string, so an empty query word makes the first sentence match. */
  lemma EmptyWordMatchesFirstSentence(content: string, query: string, lower: string -> string)
    requires content != []
    requires [] in Split(lower(query), ' ')
    ensures Snippet(Some(content), query, lower) == Prefix(Split(content, '.')[0], 160) + "..."
  {
    var sentences := Split(content, '.');
    IncludesEmpty(lower(sentences[0]));
    assert Mentions(sentences[0], Split(lower(query), ' '), lower);
  }

  /**
   * Two spaces in a row inside a query split into an empty word between them,
   * so such a query matches the first sentence.
   */
  lemma {:induction false} DoubledSpaceGivesEmptyWord(a: string, b: string)
    ensures [] in Split(a + "  " + b, ' ')[1..]
  {
    if a == [] {
      assert a + "  " + b == [' '] + ([' '] + b);
      assert ([' '] + ([' '] + b))[1..] == [' '] + b;
      assert Split([' '] + b, ' ') == [[]] + Split(b, ' ');
      assert Split(a + "  " + b, ' ')[1..] == Split([' '] + b, ' ');
    } else {
      var s := a + "  " + b;
      assert s[1..] == a[1..] + "  " + b;
      DoubledSpaceGivesEmptyWord(a[1..], b);
      var rest := Split(s[1..], ' ');
      if s[0] == ' ' {
        assert Split(s, ' ')[1..] == rest;
        var k :| 0 <= k < |rest[1..]| && rest[1..][k] == [];
        assert rest[k + 1] == [];
      } else {
        assert Split(s, ' ')[1..] == rest[1..];
      }
    }
  }

  /**
   * A query whose lowercased form has two spaces in a row (the trimmed query
   * of the search field can) makes the first sentence of the content the snippet.
   */
  lemma DoubledSpaceMatchesFirstSentence(content: string, query: string, lower: string -> string, a: string, b: string)
    requires content != []
    requires lower(query) == a + "  " + b
    ensures Snippet(Some(content), query, lower) == Prefix(Split(content, '.')[0], 160) + "..."
  {
    var words := Split(lower(query), ' ');
    DoubledSpaceGivesEmptyWord(a, b);
    var k :| 0 <= k < |words[1..]| && words[1..][k] == [];
    assert words[k + 1] == [];
    EmptyWordMatchesFirstSentence(content, query, lower);
  }

  /** One page button: its page number and whether it is the current page. */
  datatype PageButton = PageButton(page: int, active: bool)

  /**
   * The pager under the results: hidden, or shown with an optional
   * "previous" target, the page buttons and an optional "next" target.
   */
  datatype Pager = Hidden | Shown(previous: Option<int>, buttons: seq<PageButton>, next: Option<int>)

  /** The number of result pages, `Math.ceil(total / 10)`; None stands for NaN when `total` is missing. */
  function PageCount(total: Option<int>): (t: Option<int>)
    ensures total.Some? ==> t.Some? && (t.value - 1) * 10 < total.value <= t.value * 10
    ensures total.None? ==> t.None?
  {
    if total.Some? then Some(CeilDiv(total.value, 10)) else None
  }

  /** The search page's object: the current search, its page and the recently-used list. */
  class BraverExplorer {
    var currentPage: int
    var currentQuery: string
    var searchHistory: seq<string>

    /** A new page, with the recently-used list read back from storage (empty when nothing was stored). */
    constructor (stored: Option<seq<string>>)
      ensures currentPage == 1 && currentQuery == []
      ensures searchHistory == if stored.Some? then stored.value else []
    {
      currentPage := 1;
      currentQuery := [];
      searchHistory := if stored.Some? then stored.value else [];
    }

    /** Puts `query` at the front of the recently-used list, dropping its older occurrence and keeping 10 entries. */
    method AddToSearchHistory(query: string)
      modifies this
      ensures searchHistory == Remember(old(searchHistory), query)
      ensures currentPage == old(currentPage) && currentQuery == old(currentQuery)
    {
      searchHistory := Without(searchHistory, query);
      searchHistory := [query] + searchHistory;
      searchHistory := Slice(searchHistory, Int(HistoryCap));
    }

    /**
     * A search from the main field holding `input`, for page `page` (1 when
     * not given): a blank field changes nothing; otherwise the trimmed query
     * becomes the current search and is remembered.
     */
    method PerformSearch(input: string, page: Option<int>) returns (searched: bool)
      modifies this
      ensures searched <==> exists i :: 0 <= i < |input| && !IsWhiteSpace(input[i])
      ensures !searched ==> unchanged(this)
      ensures searched ==> currentQuery == Trim(input) && currentPage == (if page.Some? then page.value else 1)
      ensures searched ==> searchHistory == Remember(old(searchHistory), Trim(input))
    {
      var query := Trim(input);
      TrimEmptyIffBlank(input);
      if query == [] {
        return false;
      }
      currentQuery := query;
      currentPage := if page.Some? then page.value else 1;
      AddToSearchHistory(query);
      searched := true;
    }

    /**
     * A search from the image, news or map field holding `input`: a blank
     * field changes nothing; otherwise the trimmed query is remembered.
     */
    method PerformSectionSearch(input: string) returns (searched: bool)
      modifies this
      ensures searched <==> exists i :: 0 <= i < |input| && !IsWhiteSpace(input[i])
      ensures !searched ==> unchanged(this)
      ensures searched ==> searchHistory == Remember(old(searchHistory), Trim(input))
      ensures currentQuery == old(currentQuery) && currentPage == old(currentPage)
    {
      var query := Trim(input);
      TrimEmptyIffBlank(input);
      if query == [] {
        return false;
      }
      AddToSearchHistory(query);
      searched := true;
    }

    /**
     * What the suggestion box shows once typing pauses on `query`: the five
     * most recent searches for a query shorter than two characters (nothing
     * when there are none), otherwise the service's suggestions, or the local
     * ones when the service cannot be reached or showing its suggestions
     * throws; an empty list closes the box. `isPattern` says whether the
     * field's text compiles as a regular expression; when it does not, showing
     * a non-empty list throws twice and the handler ends with the box as it
     * was (None).
     */
    method HandleInput(query: string, reply: SuggestReply, isPattern: bool) returns (box: Option<Dropdown>)
      ensures |query| < 2 && searchHistory == [] ==> box == Some(Closed)
      ensures |query| < 2 && searchHistory != [] ==> box == Some(RecentSearches(Slice(searchHistory, Int(5))))
      ensures |query| >= 2 && reply.Unreachable? ==> box == if isPattern then Some(Suggestions(LocalSuggestions(query))) else None
      ensures |query| >= 2 && reply.Reply? && (reply.suggestions.None? || reply.suggestions.value == [])
        ==> box == Some(Closed)
      ensures |query| >= 2 && reply.Reply? && reply.suggestions.Some? && reply.suggestions.value != []
        ==> box == if isPattern then Some(Suggestions(reply.suggestions.value)) else None
      ensures box.None? <==>
        |query| >= 2 && !isPattern && !(reply.Reply? && (reply.suggestions.None? || reply.suggestions.value == []))
      ensures box.Some? && box.value.RecentSearches? ==> 1 <= |box.value.items| <= 5
      ensures box.Some? && box.value.Suggestions? ==> box.value.items != []
    {
      if |query| < 2 {
        if |searchHistory| == 0 {
          return Some(Closed);
        }
        return Some(RecentSearches(Slice(searchHistory, Int(5))));
      }
      match reply {
        case Unreachable =>
          box := ShowSuggestions(LocalSuggestions(query), isPattern);
        case Reply(s) =>
          box := ShowSuggestions(if s.Some? then s.value else [], isPattern);
          if box.None? {
            box := ShowSuggestions(LocalSuggestions(query), isPattern);
          }
      }
    }

    /**
     * The snippet under a result whose text is `content`, for the search
     * `query`, with `lower` standing for `toLowerCase`.
     */
    method GenerateSnippet(content: Option<string>, query: string, lower: string -> string) returns (snippet: string)
      ensures snippet == Snippet(content, query, lower)
    {
      if content.None? || content.value == [] {
        return NoDescription;
      }
      var words := Split(lower(query), ' ');
      var sentences := Split(content.value, '.');
      var i := 0;
      while i < |sentences|
        invariant 0 <= i <= |sentences|
        invariant forall j :: 0 <= j < i ==> !Mentions(sentences[j], words, lower)
      {
        if SomeIncluded(words, lower(sentences[i])) {
          assert FirstMention(sentences, words, lower) == Some(i);
          return Prefix(sentences[i], 160) + "...";
        }
        i := i + 1;
      }
      assert FirstMention(sentences, words, lower).None?;
      snippet := Prefix(content.value, 160) + "...";
    }

    /**
     * The pager for `total` results while on page `current`: hidden when
     * there is at most one page; otherwise "previous" from page 2 on, one
     * button per page from `current - 2` to `current + 2` that exists, the
     * current one marked, and "next" before the last page.
     */
    method ShowPagination(total: Option<int>, current: int) returns (pager: Pager)
      ensures var t := PageCount(total);
        t.Some? && t.value <= 1 <==> pager.Hidden?
      ensures var t := PageCount(total);
        pager.Shown? ==>
          && pager.previous == (if current > 1 then Some(current - 1) else None)
          && pager.next == (if t.Some? && current < t.value then Some(current + 1) else None)
      ensures pager.Shown? ==>
        && |pager.buttons| <= 5
        && (forall k :: 0 <= k < |pager.buttons| ==> pager.buttons[k].page == Max(1, current - 2) + k)
        && (forall k :: 0 <= k < |pager.buttons| ==> (pager.buttons[k].active <==> pager.buttons[k].page == current))
      ensures var t := PageCount(total);
        pager.Shown? && t.Some? ==>
          && |pager.buttons| == Max(0, Min(t.value, current + 2) - Max(1, current - 2) + 1)
          && (forall k :: 0 <= k < |pager.buttons| ==> 1 <= pager.buttons[k].page <= t.value)
          && (1 <= current <= t.value ==> exists k :: 0 <= k < |pager.buttons| && pager.buttons[k].page == current)
      ensures PageCount(total).None? ==> pager.Shown? && pager.buttons == []
    {
      var t := PageCount(total);
      if t.Some? && t.value <= 1 {
        return Hidden;
      }
      var previous := if current > 1 then Some(current - 1) else None;
      var buttons := [];
      if t.Some? {
        var lo := Max(1, current - 2);
        var hi := Min(t.value, current + 2);
        var i := lo;
        while i <= hi
          invariant lo <= i <= Max(lo, hi + 1)
          invariant |buttons| == i - lo
          invariant forall k :: 0 <= k < |buttons| ==> buttons[k] == PageButton(lo + k, lo + k == current)
        {
          buttons := buttons + [PageButton(i, i == current)];
          i := i + 1;
        }
        if 1 <= current <= t.value {
          assert buttons[current - lo].page == current;
        }
      }
      var next := if t.Some? && current < t.value then Some(current + 1) else None;
      pager := Shown(previous, buttons, next);
    }
  }
}
