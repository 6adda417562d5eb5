# Braver Explorer search core, modelled in Dafny

Braver Explorer is a small search portal. It has three parts:

- a browser page (`script.js`) with a search field, a list of recent searches, suggestions, result snippets and a pager;
- an Express server (`backend/server.js`) that keeps an in-memory log of the latest 1000 searches and reports on it;
- a news route (`backend/routes/news.js`) that turns NewsAPI articles into result items, and was meant to fall back to demo items when NewsAPI fails (see Findings).

This project models the logic of those three parts and proves what each promises. The modules are:

- `Wrappers`: optional values, and `v || fallback` on strings.
- `JsText`, `JsNumber`, `JsArray`: the JavaScript built-ins the code relies on, with their JavaScript semantics.
  - `trim` with ECMAScript white space.
  - `includes`, and `split`/`join` on one character.
  - `substring(0, n)`.
  - `parseInt`: white space, sign, `0x` prefix, NaN.
  - `String(n)`.
  - `Math.ceil(a / d)`.
  - The `a || b || … || 0` chain.
  - `slice(0, end)`: NaN and negative ends.
  - `filter`, and the stable `sort`.
- `Counter`: a plain object used as a tally, with `obj[k] = (obj[k] || 0) + 1`.
  - Its keys are kept in creation order.
  - `Object.entries` lists array-index keys first, ascending, then the other keys in creation order.
- `SearchLog`: the class `SearchLog`, which holds the server's log.
  - `Record` is the middleware.
  - `History`, `Popular` and `Stats` are the three endpoints that read the log.
- `AiRoutes`: the reply status of the AI endpoints (503, 400, 500 or 200).
- `Explorer`: the page's `BraverExplorer` class, with its fields `currentPage`, `currentQuery` and `searchHistory`, plus the pure helpers its methods use.
- `News`: the article mapping, the page information, the demo generator, and the route both as written and as intended.

Clocks, the calendar day of an instant, lower-casing and `encodeURIComponent` are parameters of the operations that use them. Network replies are inputs: the upstream NewsAPI result and the suggestion service's reply.

## Model

| member | source | states |
|---|---|---|
| JsText.TrimStart | script.js:156 | the result is a suffix of the input; everything dropped is white space; the result does not start with white space |
| JsText.TrimEnd | script.js:156 | the result is a prefix of the input; everything dropped is white space; the result does not end with white space |
| JsText.TrimIsInnerSlice | script.js:156 | `trim` gives a slice `s[a..b]` with only white space outside it, and neither end of the slice is white space |
| JsText.TrimEmptyIffBlank | script.js:156-158 | a string trims to "" exactly when every character is white space |
| JsText.IncludesEmpty | script.js:454 | every string includes "" |
| JsText.Split | script.js:451-452 | `split` on one character gives at least one piece, and no piece contains the separator |
| JsText.JoinSplit | script.js:451-452 | joining the pieces of a split gives back the original string |
| JsText.SplitJoin | script.js:451-452 | splitting a join of separator-free pieces gives back the pieces |
| JsText.Prefix | script.js:455 | `substring(0, n)` is a prefix of length `min(n, len)` |
| JsNumber.NatToString | backend/server.js:103 | the decimal text of a number is non-empty and all digits, with no leading zero |
| JsNumber.LeadingDigits | backend/server.js:295 | the digits `parseInt` reads are a prefix of digits, stopped by a non-digit |
| JsNumber.ParseIntOfNatToString | backend/server.js:103 | `parseInt` reads back `String(n)`, also when non-digit text follows it |
| JsNumber.NatToStringInjective | backend/routes/news.js:64 | two numbers have the same text only when they are equal |
| JsNumber.CeilDiv | backend/routes/news.js:43 | `Math.ceil(a / d)` is the least `q` with `a <= q * d` |
| JsNumber.FirstTruthy | backend/server.js:97 | the `||` chain gives 0 exactly when every value is 0; otherwise it gives the first non-zero value |
| JsArray.SliceEnd | backend/server.js:295 | `slice(0, end)` stops inside the array: NaN counts as 0, a negative end counts back from the length, and a large end stops at the length |
| JsArray.Slice | backend/server.js:295 | `slice(0, end)` is a prefix whose length is given by those rules |
| JsArray.Filter | backend/server.js:314 | `filter` keeps exactly the occurrences that satisfy the test, and no others |
| JsArray.DistinctIffSingleOccurrences | backend/server.js:314 | a list has no repetitions exactly when no element occurs twice in its multiset |
| JsArray.InsertKeepsSorted | backend/server.js:316 | inserting before the first element that is not smaller keeps a list sorted |
| JsArray.SortBy | backend/server.js:316 | the sort is a permutation, and the result is sorted by key |
| Counter.Tally | backend/server.js:309-312 | a tally has one key per distinct query, without repetitions, and each key holds that query's number of occurrences |
| Counter.TallyPositive | backend/server.js:311 | every key of a tally holds at least 1 |
| Counter.TallySum | backend/server.js:309-312 | the counts of a tally add up to the number of elements tallied |
| Counter.SumCountsReorder | backend/server.js:316 | reordering the pairs does not change their sum |
| Counter.ObjectEntries | backend/server.js:314 | `Object.entries` lists every pair of the object, and only those |
| Counter.Ranking | backend/server.js:314-316 | the ranked pairs are the object's pairs, with counts not increasing |
| Counter.RankingEntries | backend/server.js:314-316 | every ranked pair holds its key's value; queries are pairwise distinct; there is one pair per key |
| Counter.RankingSum | backend/server.js:314-316 | ranking keeps the sum of the counts |
| Counter.RankingIndexOf | backend/server.js:314-316 | every key of the object is ranked |
| Wrappers.Or | backend/routes/news.js:27-34 | `v \|\| fallback` keeps a non-empty string and otherwise gives the fallback |
| SearchLog.ResultCount | backend/server.js:93-100 | the result count is `total`, or else the length of `results`, or else `news`, or else `images`, or else 0; an unparsable body gives 0 |
| SearchLog.NewRecord | backend/server.js:92-110 | a record holds the query, the path, the recording time, the response time and the result count, and its id parses back to the recording time |
| SearchLog.Pushed | backend/server.js:112-113 | the new record comes first and the older ones shift by one, in order; the size is `min(old + 1, 1000)`; nothing is dropped below 1000 |
| SearchLog.ReplayKeepsNewest | backend/server.js:112-113 | after any series of records, the log holds the newest records first, followed by the older log, cut to 1000 |
| SearchLog.ReverseIndex | backend/server.js:112 | the newest record pushed is first: index `i` of the reversed records is the `i`-th record from the end |
| SearchLog.SearchLog.constructor | backend/server.js:78 | the log starts empty |
| SearchLog.SearchLog.Record | backend/server.js:81-120 | a record is added exactly for GET requests with a non-empty `q` on a search path; it is pushed in front, and the log stays at most 1000 records |
| SearchLog.SearchLog.History | backend/server.js:293-303 | the history is a prefix of the log: 20 records by default, none for a NaN limit, `len + n` records for a negative `n`; `total` is its length |
| SearchLog.OnDayCount | backend/server.js:329-331 | the records of a day are as many as the records stamped with that day |
| SearchLog.OnDayOccurrences | backend/server.js:340-345 | among a day's records, a query occurs as often as the pair (query, day) occurs in the log |
| SearchLog.TallyKeysCount | backend/server.js:309-314 | a tally of the log's queries has one key per distinct query |
| SearchLog.RankedCounts | backend/server.js:309-316 | each ranked pair's count is the number of log records with exactly that query, and is at least 1 |
| SearchLog.RankedDistinct | backend/server.js:309-316 | ranked queries are pairwise distinct, one per distinct query of the log |
| SearchLog.RankedIndexOf | backend/server.js:309-316 | the query of every log record is ranked |
| SearchLog.RankedSum | backend/server.js:309-316 | before the cut, the counts add up to the log's length |
| SearchLog.CutKeepsTop | backend/server.js:316-317 | the cut leaves out no query that occurs more often than a query it keeps |
| SearchLog.PrefixKeeps | backend/server.js:317 | the cut keeps the counts, the distinct queries and the order |
| SearchLog.PopularPrefix | backend/server.js:306-317 | the popular list holds distinct queries with their true counts, in non-increasing order, has `slice` length over the distinct queries, and keeps the top queries |
| SearchLog.PopularWholeSum | backend/server.js:309-317 | a cut that keeps every query has counts adding up to the log's length |
| SearchLog.SearchLog.Popular | backend/server.js:306-324 | the forEach tally plus the ranking, the cut and `total`: every property of `PopularPrefix` about the current log |
| SearchLog.TodayKeys | backend/server.js:340-345 | today's tally has a key exactly for each query searched today |
| SearchLog.TodayCounts | backend/server.js:340-345 | each key of today's tally holds that query's number of records today |
| SearchLog.TodaySum | backend/server.js:329-345 | the values of today's tally add up to today's number of searches |
| SearchLog.SearchLog.Stats | backend/server.js:327-348 | `totalSearches` is the log's length and `todaySearches` the number of records of today; the status texts follow the connections; `popularToday` counts today's queries and sums to `todaySearches` |
| AiRoutes.Respond | backend/server.js:142-287 | engine routes answer 503 without the engine, whatever the body; then 400 exactly when a required field is missing; then 500 with the route's prefix when the handler throws (the engine call, or the chat's `context` key conversion); otherwise 200; the chat is never 503 |
| AiRoutes.ChatNeverUnavailable | backend/server.js:237-287 | the chat answers 400 without a message, else 500 when it throws, else 200, whether or not the engine is loaded |
| Explorer.Without | script.js:248 | dropping `q` keeps every other entry and only those, and changes nothing when `q` is absent |
| Explorer.WithoutAppend | script.js:248 | dropping distributes over concatenation, so the kept entries stay in their order |
| Explorer.WithoutDistinct | script.js:248 | dropping keeps a list free of repetitions |
| Explorer.Remember | script.js:247-252 | the query is first; the list holds at most 10; the rest is the old list without the query, cut to 9 |
| Explorer.RememberOnce | script.js:248-249 | after an add, the query occurs exactly once |
| Explorer.RememberDistinct | script.js:248-250 | a list without repetitions stays without repetitions |
| Explorer.RememberHead | script.js:248-250 | adding the query already at the head of a valid list leaves the list unchanged |
| Explorer.RememberIdempotent | script.js:248-250 | for any stored list, repetitions included, adding the same query twice is the same as adding it once |
| Explorer.LocalSuggestions | script.js:108-118 | five suggestions, each the query followed by its template, in order |
| Explorer.LocalSuggestionsDistinct | script.js:108-118 | the five suggestions are pairwise different |
| Explorer.SomeIncluded | script.js:454 | `words.some(w => text.includes(w))` holds exactly when some word occurs in the text |
| Explorer.FirstMention | script.js:453-457 | the chosen sentence mentions a query word and no earlier sentence does; when there is none, no sentence does |
| Explorer.Snippet | script.js:448-461 | no content gives the fixed message; otherwise the snippet is at most 160 characters of the first mentioning sentence (or of the content), followed by "..." |
| Explorer.EmptyWordMatchesFirstSentence | script.js:451-456 | an empty query word makes the first sentence the snippet |
| Explorer.DoubledSpaceGivesEmptyWord | script.js:451 | two spaces in a row inside a query split into an empty word after the first word |
| Explorer.DoubledSpaceMatchesFirstSentence | script.js:448-456 | a lowercased query with two spaces in a row makes the first sentence the snippet |
| Explorer.PageCount | script.js:464 | the page count is `ceil(total / 10)`; it is NaN when the total is missing |
| Explorer.BraverExplorer.constructor | script.js:2-9 | the page starts on page 1 with no query, and with the stored history or an empty one |
| Explorer.BraverExplorer.AddToSearchHistory | script.js:247-252 | the history becomes `Remember(old history, query)`, and nothing else changes |
| Explorer.BraverExplorer.PerformSearch | script.js:155-162 | a blank field changes nothing; otherwise the trimmed query and the page (1 by default) become current, and the query is remembered |
| Explorer.BraverExplorer.PerformSectionSearch | script.js:182-186 | the image, news and map searches ignore a blank field and otherwise only remember the trimmed query |
| Explorer.ShowSuggestions | script.js:120-141 | an empty list closes the box; a non-empty one is shown exactly when the field's text compiles as a regular expression, and otherwise the call throws and the box is left as it was |
| Explorer.BraverExplorer.HandleInput | script.js:72-141 | a query shorter than 2 shows up to five recent searches, or nothing; otherwise the service's suggestions are shown, or the local ones when the service fails; an empty list closes the box; the handler throws and leaves the box as it was exactly when a non-empty list must be shown and the field's text is not a valid regular expression (`c++`, `a(`) |
| Explorer.BraverExplorer.GenerateSnippet | script.js:448-461 | the loop over sentences gives `Snippet(content, query, lower)` |
| Explorer.BraverExplorer.ShowPagination | script.js:463-493 | the pager is hidden iff there is at most one page; otherwise "previous" appears iff `c > 1` and "next" iff `c < T`; there are at most 5 buttons, ascending from `max(1, c-2)` to `min(T, c+2)`, all in `[1, T]`, including `c` when `1 <= c <= T`, and only `c` is active |
| News.MapArticles | backend/routes/news.js:25-35 | one item per article, in order, each made from its article, its index and the two clock readings taken for it |
| News.ItemDefaults | backend/routes/news.js:27-34 | a present, non-empty title, description, content or publication time is kept; a missing or empty one gets its default text (the current instant for the time); the picture, source and author get their defaults; the link is passed through |
| News.ItemIdsDistinct | backend/routes/news.js:26 | item ids at different indices differ, whatever the clock readings |
| News.MappedIdsDistinct | backend/routes/news.js:25-26 | the ids of one reply are pairwise distinct |
| News.Paging | backend/routes/news.js:42-43 | `page` is `parseInt` of the parameter (1 by default), and `totalPages` is `ceil(totalResults / 10)` |
| News.PrefixedNumbersDistinct | backend/routes/news.js:64 | `demo-news-` followed by different numbers gives different ids |
| News.DemoItemMentions | backend/routes/news.js:65-68 | a demo title starts with the query and contains the item's number; the link contains the encoded query and `-` plus the number |
| News.GenerateDemoNews | backend/routes/news.js:62-74 | eight items with ids `demo-news-1` to `demo-news-8`, pairwise distinct; titles and links mention the query and the number; publication times are one hour per index before each clock reading |
| News.DemoTimesDecrease | backend/routes/news.js:71 | with a steady clock, consecutive demo times are exactly one hour apart |
| News.HandleAsWritten | backend/routes/news.js:6-59 | as written, a successful fetch is answered, and every failed fetch ends in the ReferenceError for `q` |
| News.Handle | backend/routes/news.js:6-59 | as intended, a failed fetch is answered with `GenerateDemoNews` of the query, the query echoed, total 8, no page information, the demo source and the error text; a successful fetch is answered as written |
| News.FallbackUnreachableAsWritten | backend/routes/news.js:8-52 | the fallback reply is never sent as written |
| News.IntendedDiffersOnlyOnFailure | backend/routes/news.js:8-52 | the written and the intended route agree exactly on successful fetches |

## Left out

- DOM rendering and HTML building: results, images, news and suggestions; the markup `highlightSuggestion` produces; `formatUrl`. These are browser output and foreign calls (the `URL` constructor). Whether the field's text compiles as a regular expression is the input `isPattern` of `Explorer.BraverExplorer.HandleInput`, not decided by the model.
- The 250 ms debounce and the event listeners.
- `fetch`, `axios` and NewsAPI itself: their results are inputs of the model.
- `localStorage` reads and writes: the stored history is a constructor argument, and the save is not modelled.
- `BraverExplorer.constructor`: a stored value that is not a list of strings is not modelled.
- Express wiring: `app.use`, the `res.send` replacement itself, static routes and `listen`.
- `SearchLog.SearchLog.Record`: `Date.now()` is read several times at send time in the source; the model takes one instant `now` for the response time, the id and the timestamp.
- `SearchLog.SearchLog.Stats`: `toDateString` is the parameter `dateString`, and today is `dateString(now)`. The JSON key order of `popularToday` is not stated.
- `SearchLog.ResultCount`: a `total` that is not a number, and arrays given only by their lengths, are not modelled. So is a JSON body that is `null`, which throws inside the `try` like a parse error and also gives 0.
- `SearchLog.Request`: a `q` given more than once (an array) is not modelled.
- Object keys inherited from `Object.prototype` are not modelled. A query such as `constructor` would read an inherited value in the `(obj[k] || 0) + 1` tallies of `Counter.Bump`.
- `JsNumber.ParseInt` works on unbounded integers. JavaScript numbers lose precision above 2^53.
- Strings are sequences of characters. JavaScript's UTF-16 code units (which `length` and `substring` count) are not modelled.
- `AiRoutes.Respond`:
  - what makes the chat throw (a `context` object with no usable `toString` or `valueOf`, turned into a property key) is not modelled; it is the input `failure`;
  - the chat's random answer, its confidence and its context categories are not modelled, because they are nondeterministic;
  - `/api/ai-status` and the AI engine's results (random and floating point) are not modelled.
- backend/routes/ariesAI.js, backend/ai/ariesAI.js, the Mongoose models and the database connection are not part of this model.
- `News.Handle`: `toISOString` is kept abstract as the `Instant` form of a publication time.
- The clock readings are parameters. Each article has two: `clock(i)` for its id and `stampClock(i)` for a missing publication time. Each demo item has one: `clock(i)`.

## Findings

| source | as written | input that shows it | evidently intended | confidence | as-written member | corrected member |
|---|---|---|---|---|---|---|
| backend/routes/news.js:8, 50-52 | `q` is declared with `const` inside the `try` block, but the `catch` block uses it, where it is not in scope | any request whose NewsAPI call fails (for example, no API key): `generateDemoNews(q)` throws `ReferenceError: q is not defined`, and no reply is sent | the fallback replies with the 8 demo items for the query, total 8, source `Braver Explorer (Demo)` and the error text | not executed | News.HandleAsWritten | News.Handle |
