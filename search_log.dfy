/**
 * The server's in-memory search log: the middleware that records every
 * search request newest first and keeps the latest 1000, and the three
 * endpoints that read it, `/api/history`, `/api/popular-searches` and
 * `/api/stats`.
 */
module SearchLog {

  import opened Wrappers
  import opened JsText
  import opened JsNumber
  import opened JsArray
  import opened Counter

  /** How many records the log keeps. */
  const Cap := 1000

  /** What the middleware looks at in a request: the method, the path and the `q` query parameter. */
  datatype Request = Request(verb: string, path: string, q: Option<string>)

  /**
   * A response body as `JSON.parse` sees it: text that does not parse (or
   * parses to no object), or an object with an optional numeric `total` and
   * the lengths of its `results`, `news` and `images` arrays when present.
   */
  datatype Body =
    | Unparsable
    | Json(total: Option<int>, results: Option<nat>, news: Option<nat>, images: Option<nat>)

  /** One search of the log; `timestamp` is the recording instant in milliseconds. */
  datatype SearchRecord = SearchRecord(
    id: string, query: string, timestamp: int, resultCount: int,
    responseTime: int, source: string, path: string)

  /** A path of one of the three search endpoints. */
  predicate IsSearchPath(path: string) {
    Includes(path, "/api/search") || Includes(path, "/api/news") || Includes(path, "/api/images")
  }

  /** Whether the middleware records a response to `req`: a GET with a non-empty `q` on a search path. */
  predicate Qualifies(req: Request) {
    req.verb == "GET" && req.q.Some? && req.q.value != "" && IsSearchPath(req.path)
  }

  function OrZero(x: Option<int>): int {
    if x.Some? then x.value else 0
  }

  /**
   * The number of results the log records for a response body: the first
   * non-zero of `total` and the three array lengths, 0 when there is none or
   * the body is not JSON.
   */
  function ResultCount(body: Body): (n: int)
    ensures body.Unparsable? ==> n == 0
    ensures body.Json? && OrZero(body.total) != 0 ==> n == body.total.value
    ensures body.Json? && OrZero(body.total) == 0 && OrZero(body.results) != 0 ==> n == body.results.value
    ensures body.Json? && OrZero(body.total) == 0 && OrZero(body.results) == 0 && OrZero(body.news) != 0
      ==> n == body.news.value
    ensures body.Json? && OrZero(body.total) == 0 && OrZero(body.results) == 0 && OrZero(body.news) == 0
      ==> n == OrZero(body.images)
  {
    match body
    case Unparsable => 0
    case Json(total, results, news, images) =>
      var xs := [OrZero(total), OrZero(results), OrZero(news), OrZero(images)];
      assert xs[0] == OrZero(total) && xs[1] == OrZero(results) && xs[2] == OrZero(news) && xs[3] == OrZero(images);
      FirstTruthy(xs)
  }

  /** The record written for a qualifying request whose response is sent at instant `now`. */
  function NewRecord(req: Request, body: Body, start: int, now: nat): (rec: SearchRecord)
    requires Qualifies(req)
    ensures rec.query == req.q.value && rec.path == req.path && rec.timestamp == now
    ensures rec.responseTime == now - start && rec.resultCount == ResultCount(body)
    ensures ParseInt(rec.id) == Int(now)
  {
    ParseIntOfNatToString(now, []);
    assert NatToString(now) + [] == NatToString(now);
    SearchRecord(NatToString(now), req.q.value, now, ResultCount(body), now - start, "braver", req.path)
  }

  /** The log after `rec` is put in front and the log is cut to its first 1000 records. */
  function Pushed(log: seq<SearchRecord>, rec: SearchRecord): (r: seq<SearchRecord>)
    ensures |r| == if |log| < Cap then |log| + 1 else Cap
    ensures r[0] == rec
    ensures forall i :: 1 <= i < |r| ==> r[i] == log[i - 1]
    ensures |log| < Cap ==> r[1..] == log
  {
    Slice([rec] + log, Int(Cap))
  }

  /** The log after pushing each of `recs` in turn. */
  function Replay(log: seq<SearchRecord>, recs: seq<SearchRecord>): seq<SearchRecord>
    decreases |recs|
  {
    if recs == [] then log else Replay(Pushed(log, recs[0]), recs[1..])
  }

  /** `s` from its last element to its first. */
  function Reverse<T>(s: seq<T>): (r: seq<T>)
    ensures |r| == |s|
  {
    if s == [] then [] else Reverse(s[1..]) + [s[0]]
  }

  /** The element at index `i` of the reversed sequence is the `i`-th from the end. */
  lemma {:induction false} ReverseIndex<T>(s: seq<T>)
    ensures forall i :: 0 <= i < |s| ==> Reverse(s)[i] == s[|s| - 1 - i]
  {
    if s != [] {
      ReverseIndex(s[1..]);
      forall i | 0 <= i < |s| ensures Reverse(s)[i] == s[|s| - 1 - i] {
        if i < |s| - 1 {
          assert Reverse(s)[i] == Reverse(s[1..])[i];
        }
      }
    }
  }

  /** A solver hint: `Pushed` read as a cut of the longer list. */
  lemma PushedPrefix(log: seq<SearchRecord>, rec: SearchRecord)
    ensures Pushed(log, rec) == ([rec] + log)[..Min(|log| + 1, Cap)]
  {
  }

  /** Cutting the tail before a cut of the whole changes nothing that the outer cut keeps. */
  lemma PrefixAfter<T>(a: seq<T>, q: seq<T>, m: nat, n: nat)
    requires m <= |q| && n <= |a| + m
    ensures (a + q[..m])[..n] == (a + q)[..n]
  {
    forall i | 0 <= i < n ensures (a + q[..m])[i] == (a + q)[i] {
      if i >= |a| {
        assert q[..m][i - |a|] == q[i - |a|];
      }
    }
  }

  lemma ReverseCons<T>(recs: seq<T>, log: seq<T>)
    requires recs != []
    ensures Reverse(recs) + log == Reverse(recs[1..]) + ([recs[0]] + log)
  {
    ReverseUnfold(recs);
    AppendAssoc(Reverse(recs[1..]), [recs[0]], log);
  }

  /** A solver hint: one unfolding of `Reverse`. */
  lemma ReverseUnfold<T>(s: seq<T>)
    requires s != []
    ensures Reverse(s) == Reverse(s[1..]) + [s[0]]
  {
  }

  /**
   * Pushing the records `recs` one after another leaves the newest first,
   * followed by the older log, cut to 1000 records.
   */
  lemma {:induction false} ReplayKeepsNewest(log: seq<SearchRecord>, recs: seq<SearchRecord>)
    requires |log| <= Cap
    ensures Replay(log, recs) == (Reverse(recs) + log)[..Min(|recs| + |log|, Cap)]
    decreases |recs|
  {
    if recs != [] {
      var rec := recs[0];
      var rest := recs[1..];
      var p := Pushed(log, rec);
      ReplayKeepsNewest(p, rest);
      PushedPrefix(log, rec);
      ReverseCons(recs, log);
      PrefixAfter(Reverse(rest), [rec] + log, |p|, Min(|rest| + |p|, Cap));
    }
  }

  /** The queries of a list of records, in order. */
  function Queries(log: seq<SearchRecord>): (qs: seq<string>)
    ensures |qs| == |log|
    ensures forall i :: 0 <= i < |log| ==> qs[i] == log[i].query
  {
    seq(|log|, i requires 0 <= i < |log| => log[i].query)
  }

  /** How many records of `log` are searches for `q`. */
  function Occurrences(log: seq<SearchRecord>, q: string): nat {
    multiset(Queries(log))[q]
  }

  /** The distinct queries of `log`. */
  ghost function QuerySet(log: seq<SearchRecord>): set<string> {
    set r | r in log :: r.query
  }

  /** The records of `log` whose timestamp falls on the calendar day `today`, in order. */
  function OnDay(log: seq<SearchRecord>, dateString: int -> string, today: string): (r: seq<SearchRecord>)
    ensures |r| <= |log|
    ensures forall x :: x in r <==> x in log && dateString(x.timestamp) == today
  {
    if log == [] then []
    else (if dateString(log[0].timestamp) == today then [log[0]] else []) + OnDay(log[1..], dateString, today)
  }

  /** The calendar day of each record. */
  function Days(log: seq<SearchRecord>, dateString: int -> string): (ds: seq<string>)
    ensures |ds| == |log|
    ensures forall i :: 0 <= i < |log| ==> ds[i] == dateString(log[i].timestamp)
  {
    seq(|log|, i requires 0 <= i < |log| => dateString(log[i].timestamp))
  }

  /** Each record's query paired with its calendar day. */
  function QueryDays(log: seq<SearchRecord>, dateString: int -> string): (ps: seq<(string, string)>)
    ensures |ps| == |log|
    ensures forall i :: 0 <= i < |log| ==> ps[i] == (log[i].query, dateString(log[i].timestamp))
  {
    seq(|log|, i requires 0 <= i < |log| => (log[i].query, dateString(log[i].timestamp)))
  }

  lemma DaysUnfold(log: seq<SearchRecord>, dateString: int -> string, d: string)
    requires log != []
    ensures multiset(Days(log, dateString))[d]
      == (if dateString(log[0].timestamp) == d then 1 else 0) + multiset(Days(log[1..], dateString))[d]
  {
    var days := Days(log, dateString);
    assert days == [days[0]] + Days(log[1..], dateString);
  }

  /** The records of a day are as many as the records stamped with that day. */
  lemma {:induction false} OnDayCount(log: seq<SearchRecord>, dateString: int -> string, today: string)
    ensures |OnDay(log, dateString, today)| == multiset(Days(log, dateString))[today]
  {
    if log != [] {
      OnDayCount(log[1..], dateString, today);
      DaysUnfold(log, dateString, today);
    }
  }

  lemma OccurrencesAppend(a: seq<SearchRecord>, b: seq<SearchRecord>, q: string)
    ensures Occurrences(a + b, q) == Occurrences(a, q) + Occurrences(b, q)
  {
    assert Queries(a + b) == Queries(a) + Queries(b);
  }

  lemma PairsUnfold(log: seq<SearchRecord>, dateString: int -> string, p: (string, string))
    requires log != []
    ensures multiset(QueryDays(log, dateString))[p]
      == (if (log[0].query, dateString(log[0].timestamp)) == p then 1 else 0) + multiset(QueryDays(log[1..], dateString))[p]
  {
    var pairs := QueryDays(log, dateString);
    assert pairs == [pairs[0]] + QueryDays(log[1..], dateString);
  }

  /** Among the records of a day, `q` occurs as often as the pair (`q`, that day) among all records. */
  lemma {:induction false} OnDayOccurrences(log: seq<SearchRecord>, dateString: int -> string, today: string, q: string)
    ensures Occurrences(OnDay(log, dateString, today), q) == multiset(QueryDays(log, dateString))[(q, today)]
  {
    if log != [] {
      var head := if dateString(log[0].timestamp) == today then [log[0]] else [];
      var tail := OnDay(log[1..], dateString, today);
      assert OnDay(log, dateString, today) == head + tail;
      OnDayOccurrences(log[1..], dateString, today, q);
      OccurrencesAppend(head, tail, q);
      PairsUnfold(log, dateString, (q, today));
      assert Occurrences(head, q) == if (log[0].query, dateString(log[0].timestamp)) == (q, today) then 1 else 0 by {
        if head != [] {
          assert Queries(head) == [log[0].query];
        }
      }
    }
  }

  /** A sequence without repetitions has as many distinct elements as it is long. */
  lemma {:induction false} DistinctCardinality(s: seq<string>)
    requires Distinct(s)
    ensures |set x | x in s| == |s|
  {
    if s != [] {
      assert Distinct(s[1..]) by {
        forall i, j | 0 <= i < j < |s[1..]| ensures s[1..][i] != s[1..][j] {
          assert s[1..][i] == s[i + 1] && s[1..][j] == s[j + 1];
        }
      }
      DistinctCardinality(s[1..]);
      assert (set x | x in s) == (set x | x in s[1..]) + {s[0]};
      assert s[0] !in (set x | x in s[1..]);
    }
  }

  /** A tally of the queries of `log` has one key per distinct query. */
  lemma TallyKeysCount(log: seq<SearchRecord>)
    ensures |Tally(Queries(log)).keys| == |QuerySet(log)|
  {
    var c := Tally(Queries(log));
    DistinctCardinality(c.keys);
    assert (set x | x in c.keys) == QuerySet(log) by {
      forall x ensures x in c.keys <==> x in QuerySet(log) {
        if x in QuerySet(log) {
          var r :| r in log && r.query == x;
          var i :| 0 <= i < |log| && log[i] == r;
          assert Queries(log)[i] == x;
        }
        if x in c.keys {
          var i :| 0 <= i < |Queries(log)| && Queries(log)[i] == x;
          assert log[i] in log;
        }
      }
    }
  }

  /** Each ranked entry holds the number of records of its query. */
  lemma RankedCounts(log: seq<SearchRecord>)
    ensures forall e :: e in Ranking(Tally(Queries(log))) ==> e.count == Occurrences(log, e.query) && e.count >= 1
  {
    RankingEntries(Tally(Queries(log)));
    TallyPositive(Queries(log));
  }

  /** The ranking has one entry per distinct query of the log. */
  lemma RankedDistinct(log: seq<SearchRecord>)
    ensures var ranked := Ranking(Tally(Queries(log)));
      && (forall i, j :: 0 <= i < j < |ranked| ==> ranked[i].query != ranked[j].query)
      && |ranked| == |QuerySet(log)|
  {
    RankingEntries(Tally(Queries(log)));
    TallyKeysCount(log);
  }

  /** Where the ranking of the log's queries holds the query of record `r`. */
  lemma RankedIndexOf(log: seq<SearchRecord>, r: SearchRecord) returns (b: nat)
    requires r in log
    ensures b < |Ranking(Tally(Queries(log)))| && Ranking(Tally(Queries(log)))[b].query == r.query
  {
    var qs := Queries(log);
    assert r.query in qs by {
      var k :| 0 <= k < |log| && log[k] == r;
      assert qs[k] == r.query;
    }
    b := RankingIndexOf(Tally(qs), r.query);
  }

  /** The queries of a list of pairs, in order. */
  function EntryQueries(es: seq<Entry>): seq<string> {
    seq(|es|, i requires 0 <= i < |es| => es[i].query)
  }

  /** Every query of the log is ranked. */
  lemma RankedCoversLog(log: seq<SearchRecord>)
    ensures forall r :: r in log ==> r.query in EntryQueries(Ranking(Tally(Queries(log))))
  {
    var qs := EntryQueries(Ranking(Tally(Queries(log))));
    forall r | r in log ensures r.query in qs {
      var b := RankedIndexOf(log, r);
      assert qs[b] == r.query;
    }
  }

  /**
   * A prefix of a ranking that covers every query of the log leaves out no
   * query that occurs more often than one it keeps.
   */
  lemma CutKeepsTop(ranked: seq<Entry>, popular: seq<Entry>, log: seq<SearchRecord>)
    requires popular <= ranked
    requires forall e :: e in ranked ==> e.count == Occurrences(log, e.query)
    requires forall i, j :: 0 <= i < j < |ranked| ==> ranked[i].count >= ranked[j].count
    requires forall r :: r in log ==> r.query in EntryQueries(ranked)
    ensures forall e, r ::
      (e in popular && r in log && (forall f :: f in popular ==> f.query != r.query)
       ==> e.count >= Occurrences(log, r.query))
  {
    forall e, r | e in popular && r in log && (forall f :: f in popular ==> f.query != r.query)
      ensures e.count >= Occurrences(log, r.query)
    {
      var b := IndexOfMember(EntryQueries(ranked), r.query);
      var a := IndexOfMember(popular, e);
      assert ranked[b] !in popular;
      assert forall k :: 0 <= k < |popular| ==> popular[k] == ranked[k];
      assert b >= |popular|;
      assert ranked[a] == e;
    }
  }

  /** A prefix of a list of pairs keeps its elements, its distinct queries and its order. */
  lemma PrefixKeeps(ranked: seq<Entry>, popular: seq<Entry>, log: seq<SearchRecord>)
    requires popular <= ranked
    requires forall e :: e in ranked ==> e.count == Occurrences(log, e.query) && e.count >= 1
    requires forall i, j :: 0 <= i < j < |ranked| ==> ranked[i].query != ranked[j].query
    requires forall i, j :: 0 <= i < j < |ranked| ==> ranked[i].count >= ranked[j].count
    ensures forall e :: e in popular ==> e.count == Occurrences(log, e.query) && e.count >= 1
    ensures forall i, j :: 0 <= i < j < |popular| ==> popular[i].query != popular[j].query
    ensures forall i, j :: 0 <= i < j < |popular| ==> popular[i].count >= popular[j].count
  {
    assert forall i :: 0 <= i < |popular| ==> popular[i] == ranked[i];
  }

  /**
   * What `/api/popular-searches` returns for a cut `n`: distinct queries
   * with their numbers of records, most frequent first, and no query left
   * out that occurs more often than one kept.
   */
  lemma PopularPrefix(log: seq<SearchRecord>, n: JsInt)
    ensures var popular := Slice(Ranking(Tally(Queries(log))), n);
      && (forall e :: e in popular ==> e.count == Occurrences(log, e.query) && e.count >= 1)
      && (forall i, j :: 0 <= i < j < |popular| ==> popular[i].query != popular[j].query)
      && (forall i, j :: 0 <= i < j < |popular| ==> popular[i].count >= popular[j].count)
      && |popular| == SliceEnd(|QuerySet(log)|, n)
      && (forall e, r ::
            (e in popular && r in log && (forall f :: f in popular ==> f.query != r.query)
             ==> e.count >= Occurrences(log, r.query)))
  {
    var ranked := Ranking(Tally(Queries(log)));
    var popular := Slice(ranked, n);
    RankedCounts(log);
    RankedDistinct(log);
    RankedCoversLog(log);
    PrefixKeeps(ranked, popular, log);
    CutKeepsTop(ranked, popular, log);
  }

  /** The counts of the ranking add up to the number of records of the log. */
  lemma RankedSum(log: seq<SearchRecord>)
    ensures SumCounts(Ranking(Tally(Queries(log)))) == |log|
  {
    RankingSum(Tally(Queries(log)));
    TallySum(Queries(log));
  }

  /** A cut that keeps every distinct query keeps the whole ranking, whose counts add up to the log's length. */
  lemma PopularWholeSum(log: seq<SearchRecord>, n: JsInt)
    ensures var popular := Slice(Ranking(Tally(Queries(log))), n);
      |popular| == |QuerySet(log)| ==> SumCounts(popular) == |log|
  {
    var ranked := Ranking(Tally(Queries(log)));
    RankedDistinct(log);
    RankedSum(log);
    if |Slice(ranked, n)| == |QuerySet(log)| {
      assert Slice(ranked, n) == ranked;
    }
  }

  /** The keys of the tally of a day's queries are the queries searched that day. */
  lemma TodayKeys(log: seq<SearchRecord>, dateString: int -> string, today: string)
    ensures var c := Tally(Queries(OnDay(log, dateString, today)));
      forall q :: (q in c.counts <==> exists r :: r in log && dateString(r.timestamp) == today && r.query == q)
  {
    var todays := OnDay(log, dateString, today);
    var qs := Queries(todays);
    forall q ensures q in qs <==> exists r :: r in log && dateString(r.timestamp) == today && r.query == q {
      if q in qs {
        var k := IndexOf(qs, q);
        assert todays[k] in todays;
      }
      if exists r :: r in log && dateString(r.timestamp) == today && r.query == q {
        var r :| r in log && dateString(r.timestamp) == today && r.query == q;
        var k := IndexOf(todays, r);
        assert qs[k] == q;
      }
    }
  }

  /** The tally of a day's queries counts each query by its records of that day. */
  lemma TodayCounts(log: seq<SearchRecord>, dateString: int -> string, today: string)
    ensures var c := Tally(Queries(OnDay(log, dateString, today)));
      forall q :: (q in c.counts ==> c.counts[q] == multiset(QueryDays(log, dateString))[(q, today)])
  {
    var c := Tally(Queries(OnDay(log, dateString, today)));
    forall q | q in c.counts ensures c.counts[q] == multiset(QueryDays(log, dateString))[(q, today)] {
      OnDayOccurrences(log, dateString, today, q);
    }
  }

  /** The counts of the tally of a day's queries add up to the number of that day's records. */
  lemma TodaySum(log: seq<SearchRecord>, dateString: int -> string, today: string)
    ensures var c := Tally(Queries(OnDay(log, dateString, today)));
      SumOver(c.keys, c.counts) == multiset(Days(log, dateString))[today]
  {
    OnDayCount(log, dateString, today);
    TallySum(Queries(OnDay(log, dateString, today)));
  }

  /** The body of `GET /api/stats`. */
  datatype StatsReport = StatsReport(
    totalSearches: nat, todaySearches: nat, databaseStatus: string, aiStatus: string,
    popularToday: Counter)

  /** The server's log of recent searches, newest first. */
  class SearchLog {
    var records: seq<SearchRecord>

    ghost predicate Valid()
      reads this
    {
      |records| <= Cap
    }

    /** The log is empty when the server starts. */
    constructor ()
      ensures Valid() && records == []
    {
      records := [];
    }

    /**
     * The middleware's work when a response to `req` is sent at instant
     * `now`, the request having arrived at `start`: a qualifying request is
     * put in front of the log, and the log is cut to its first 1000 records.
     */
    method Record(req: Request, body: Body, start: int, now: nat) returns (recorded: bool)
      requires Valid()
      modifies this
      ensures Valid()
      ensures recorded <==> Qualifies(req)
      ensures !recorded ==> records == old(records)
      ensures recorded ==> records == Pushed(old(records), NewRecord(req, body, start, now))
    {
      recorded := Qualifies(req);
      if recorded {
        var rec := NewRecord(req, body, start, now);
        records := [rec] + records;
        records := Slice(records, Int(Cap));
      }
    }

    /**
     * `GET /api/history?limit=…`: the first `parseInt(limit)` records (20
     * when the parameter is absent) under JavaScript's `slice` rules, and
     * their number.
     */
    method History(limit: Option<string>) returns (history: seq<SearchRecord>, total: nat)
      ensures history <= records && total == |history|
      ensures limit.None? ==> |history| == Min(|records|, 20)
      ensures limit.Some? && ParseInt(limit.value).NaN? ==> history == []
      ensures limit.Some? && ParseInt(limit.value).Int? && ParseInt(limit.value).value >= 0
        ==> |history| == Min(|records|, ParseInt(limit.value).value)
      ensures limit.Some? && ParseInt(limit.value).Int? && ParseInt(limit.value).value < 0
        ==> |history| == if |records| + ParseInt(limit.value).value > 0 then |records| + ParseInt(limit.value).value else 0
    {
      var text := if limit.Some? then limit.value else "20";
      if limit.None? {
        assert NatToString(20) == "20";
        ParseIntOfNatToString(20, []);
        assert "20" + [] == "20";
      }
      history := Slice(records, ParseInt(text));
      total := |history|;
    }

    /**
     * `GET /api/popular-searches?limit=…`: the distinct queries of the log
     * with their number of records, most frequent first, cut to
     * `parseInt(limit)` entries (10 when the parameter is absent).
     */
    method Popular(limit: Option<string>) returns (popular: seq<Entry>, total: nat)
      ensures total == |popular|
      ensures forall e :: e in popular ==> e.count == Occurrences(records, e.query) && e.count >= 1
      ensures forall i, j :: 0 <= i < j < |popular| ==> popular[i].query != popular[j].query
      ensures forall i, j :: 0 <= i < j < |popular| ==> popular[i].count >= popular[j].count
      ensures |popular| == SliceEnd(|QuerySet(records)|, ParseInt(if limit.Some? then limit.value else "10"))
      ensures forall e, r ::
                (e in popular && r in records && (forall f :: f in popular ==> f.query != r.query)
                 ==> e.count >= Occurrences(records, r.query))
      ensures |popular| == |QuerySet(records)| ==> SumCounts(popular) == |records|
    {
      var counter := Empty;
      var i := 0;
      while i < |records|
        invariant 0 <= i <= |records|
        invariant counter == Tally(Queries(records[..i]))
      {
        var qs := Queries(records[..i + 1]);
        assert qs[..|qs| - 1] == Queries(records[..i]);
        counter := Bump(counter, records[i].query);
        i := i + 1;
      }
      assert records[..i] == records;
      var n := ParseInt(if limit.Some? then limit.value else "10");
      popular := Slice(Ranking(counter), n);
      total := |popular|;
      PopularPrefix(records, n);
      PopularWholeSum(records, n);
    }

    /**
     * `GET /api/stats` at instant `now`, where `dateString` gives the
     * calendar day of an instant: the number of records, the number of
     * today's records, the two status texts and today's queries tallied.
     */
    method Stats(now: int, dateString: int -> string, dbConnected: bool, aiActive: bool) returns (s: StatsReport)
      ensures s.totalSearches == |records|
      ensures s.todaySearches == multiset(Days(records, dateString))[dateString(now)]
      ensures s.databaseStatus == if dbConnected then "MongoDB Aktif" else "Memory (Demo)"
      ensures s.aiStatus == if aiActive then "Aries AI Aktif" else "AI Devre Dışı"
      ensures s.popularToday.Valid()
      ensures forall q ::
                (q in s.popularToday.counts
                 <==> exists r :: r in records && dateString(r.timestamp) == dateString(now) && r.query == q)
      ensures forall q ::
                (q in s.popularToday.counts
                 ==> s.popularToday.counts[q] == multiset(QueryDays(records, dateString))[(q, dateString(now))])
      ensures SumOver(s.popularToday.keys, s.popularToday.counts) == s.todaySearches
    {
      var today := dateString(now);
      var todays := OnDay(records, dateString, today);
      var popularToday := Tally(Queries(todays));
      s := StatsReport(
        |records|,
        |todays|,
        if dbConnected then "MongoDB Aktif" else "Memory (Demo)",
        if aiActive then "Aries AI Aktif" else "AI Devre Dışı",
        popularToday);
      OnDayCount(records, dateString, today);
      TodayKeys(records, dateString, today);
      TodayCounts(records, dateString, today);
      TodaySum(records, dateString, today);
    }
  }
}
