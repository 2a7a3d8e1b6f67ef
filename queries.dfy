/** The two read-only queries of src/storage.py as functions of the table:
    per-day label counts over a time window, and the top posts of one label. */
module Queries {
  import opened Table

  // ---------- daily counts ----------

  const SECONDS_PER_DAY: int := 86400

  /** The UTC day of a Unix timestamp (`date(t, 'unixepoch')`), as a day number;
      Dafny's division rounds down, as the calendar does before 1970. */
  function DayOf(r: Row): (d: int)
    ensures d * SECONDS_PER_DAY <= r.createdUtc < (d + 1) * SECONDS_PER_DAY
  {
    r.createdUtc / SECONDS_PER_DAY
  }

  /** The window test: created no earlier than `days` days before `now`. */
  predicate InWindow(r: Row, now: int, days: nat) {
    r.createdUtc >= now - days * SECONDS_PER_DAY
  }

  /** The rows inside the window, in table order. */
  function Window(t: seq<Row>, now: int, days: nat): (w: seq<Row>)
    ensures forall r :: r in w <==> r in t && InWindow(r, now, days)
    ensures multiset(w) <= multiset(t)
  {
    if t == [] then []
    else
      assert t == [t[0]] + t[1..];
      if InWindow(t[0], now, days) then [t[0]] + Window(t[1..], now, days)
      else Window(t[1..], now, days)
  }

  /** The set of days on which some row was created. */
  function DaysOf(w: seq<Row>): set<int> {
    set r | r in w :: DayOf(r)
  }

  /** The number of rows created on day `d` whose label is one of `labels`. */
  function CountOn(w: seq<Row>, d: int, labels: set<string>): (c: nat)
    ensures c <= |w|
  {
    if w == [] then 0
    else (if DayOf(w[0]) == d && w[0].labelName in labels then 1 else 0) + CountOn(w[1..], d, labels)
  }

  /** One output row of `get_daily_counts`. */
  datatype DayCount = DayCount(day: int, pos: nat, neu: nat, neg: nat)

  /** The counts of one day: a `SUM(label = ...)` per label over that day's rows.
      The labels are distinct, so no row is counted twice. */
  function Tally(w: seq<Row>, d: int): (c: DayCount)
    ensures c.day == d
    ensures c.pos + c.neu + c.neg <= |w|
  {
    CountOnUnion(w, d, {"Positive"}, {"Neutral"});
    CountOnUnion(w, d, {"Positive"} + {"Neutral"}, {"Negative"});
    DayCount(d, CountOn(w, d, {"Positive"}), CountOn(w, d, {"Neutral"}), CountOn(w, d, {"Negative"}))
  }

  /** The latest day on which some row was created. */
  function LatestDay(w: seq<Row>): (d: int)
    requires w != []
    ensures d in DaysOf(w)
    ensures forall r :: r in w ==> DayOf(r) <= d
  {
    if |w| == 1 then DayOf(w[0])
    else
      var m := LatestDay(w[1..]);
      assert forall r :: r in w[1..] ==> r in w;
      if DayOf(w[0]) >= m then DayOf(w[0]) else m
  }

  /** The rows created before day `d`, in order. */
  function Before(w: seq<Row>, d: int): (v: seq<Row>)
    ensures |v| <= |w|
    ensures d in DaysOf(w) ==> |v| < |w|
    ensures forall r :: r in v <==> r in w && DayOf(r) < d
  {
    if w == [] then []
    else
      var rest := Before(w[1..], d);
      assert d in DaysOf(w) && DayOf(w[0]) != d ==> d in DaysOf(w[1..]) by {
        if d in DaysOf(w) && DayOf(w[0]) != d {
          var r :| r in w && DayOf(r) == d;
          assert r in w[1..];
        }
      }
      if DayOf(w[0]) < d then [w[0]] + rest else rest
  }

  /** Dropping the rows of day `d` and later keeps the counts of every earlier day. */
  lemma {:induction false} BeforeKeepsCounts(w: seq<Row>, d: int, e: int, labels: set<string>)
    requires e < d
    ensures CountOn(Before(w, d), e, labels) == CountOn(w, e, labels)
    decreases |w|
  {
    if w != [] {
      BeforeKeepsCounts(w[1..], d, e, labels);
    }
  }

  /** The groups of `GROUP BY day ORDER BY day DESC`, latest day first. */
  function Groups(w: seq<Row>): (g: seq<DayCount>)
    ensures forall i, j :: 0 <= i < j < |g| ==> g[i].day > g[j].day
    ensures (set x | x in g :: x.day) == DaysOf(w)
    ensures forall i :: 0 <= i < |g| ==> g[i] == Tally(w, g[i].day)
    decreases |w|
  {
    if w == [] then []
    else
      var d := LatestDay(w);
      var rest := Groups(Before(w, d));
      GroupsStep(w, d, rest);
      [Tally(w, d)] + rest
  }

  /** The inductive step of Groups: the latest day's tally in front of the groups of
      the earlier rows. */
  lemma GroupsStep(w: seq<Row>, d: int, rest: seq<DayCount>)
    requires w != [] && d == LatestDay(w)
    requires forall i, j :: 0 <= i < j < |rest| ==> rest[i].day > rest[j].day
    requires (set x | x in rest :: x.day) == DaysOf(Before(w, d))
    requires forall i :: 0 <= i < |rest| ==> rest[i] == Tally(Before(w, d), rest[i].day)
    ensures var g := [Tally(w, d)] + rest;
      && (forall i, j :: 0 <= i < j < |g| ==> g[i].day > g[j].day)
      && (set x | x in g :: x.day) == DaysOf(w)
      && (forall i :: 0 <= i < |g| ==> g[i] == Tally(w, g[i].day))
  {
    RestBeforeLatest(w, d, rest);
    var top := Tally(w, d);
    ConsOrdered(top, rest);
    ConsTallied(w, top, rest);
    ConsDays(top, rest);
  }

  /** Groups of strictly decreasing days stay so with a later day in front. */
  lemma ConsOrdered(top: DayCount, rest: seq<DayCount>)
    requires forall i, j :: 0 <= i < j < |rest| ==> rest[i].day > rest[j].day
    requires forall i :: 0 <= i < |rest| ==> rest[i].day < top.day
    ensures var g := [top] + rest; forall i, j :: 0 <= i < j < |g| ==> g[i].day > g[j].day
  {
    var g := [top] + rest;
    forall i, j | 0 <= i < j < |g| ensures g[i].day > g[j].day {
      assert g[j] == rest[j - 1];
      if i > 0 { assert g[i] == rest[i - 1]; }
    }
  }

  /** Groups that are each their day's tally stay so with one more in front. */
  lemma ConsTallied(w: seq<Row>, top: DayCount, rest: seq<DayCount>)
    requires top == Tally(w, top.day)
    requires forall i :: 0 <= i < |rest| ==> rest[i] == Tally(w, rest[i].day)
    ensures var g := [top] + rest; forall i :: 0 <= i < |g| ==> g[i] == Tally(w, g[i].day)
  {
    var g := [top] + rest;
    forall i | 0 <= i < |g| ensures g[i] == Tally(w, g[i].day) {
      if i > 0 { assert g[i] == rest[i - 1]; }
    }
  }

  /** The days of groups with one more group in front. */
  lemma ConsDays(top: DayCount, rest: seq<DayCount>)
    ensures (set x | x in [top] + rest :: x.day) == {top.day} + (set x | x in rest :: x.day)
  {
    forall x | x in [top] + rest ensures x == top || x in rest { }
  }

  /** Every group of the earlier rows is of an earlier day, with the same tally as
      over all rows. */
  lemma RestBeforeLatest(w: seq<Row>, d: int, rest: seq<DayCount>)
    requires w != [] && d == LatestDay(w)
    requires (set x | x in rest :: x.day) == DaysOf(Before(w, d))
    requires forall i :: 0 <= i < |rest| ==> rest[i] == Tally(Before(w, d), rest[i].day)
    ensures forall i :: 0 <= i < |rest| ==> rest[i].day < d && rest[i] == Tally(w, rest[i].day)
  {
    forall i | 0 <= i < |rest| ensures rest[i].day < d && rest[i] == Tally(w, rest[i].day) {
      assert rest[i] in rest;
      var e := rest[i].day;
      assert e in DaysOf(Before(w, d));
      var r :| r in Before(w, d) && DayOf(r) == e;
      BeforeKeepsCounts(w, d, e, {"Positive"});
      BeforeKeepsCounts(w, d, e, {"Neutral"});
      BeforeKeepsCounts(w, d, e, {"Negative"});
    }
  }

  /** `get_daily_counts(days)` evaluated at time `now`: one row per day that has a
      post in the window, days strictly decreasing, each row the label counts of the
      in-window posts of that day. */
  function DailyCounts(t: seq<Row>, now: int, days: nat): (g: seq<DayCount>)
    ensures forall i, j :: 0 <= i < j < |g| ==> g[i].day > g[j].day
    ensures (set x | x in g :: x.day) == (set r | r in t && InWindow(r, now, days) :: DayOf(r))
    ensures forall i :: 0 <= i < |g| ==> g[i] == Tally(Window(t, now, days), g[i].day)
  {
    var w := Window(t, now, days);
    assert DaysOf(w) == (set r | r in t && InWindow(r, now, days) :: DayOf(r));
    Groups(w)
  }

  /** Counting over disjoint label sets adds up. */
  lemma {:induction false} CountOnUnion(w: seq<Row>, d: int, a: set<string>, b: set<string>)
    requires a !! b
    ensures CountOn(w, d, a) + CountOn(w, d, b) == CountOn(w, d, a + b)
    decreases |w|
  {
    if w != [] {
      CountOnUnion(w[1..], d, a, b);
    }
  }

  /** A day with a row whose label is in `labels` has a positive count, and only such a day. */
  lemma {:induction false} CountOnPositive(w: seq<Row>, d: int, labels: set<string>)
    ensures CountOn(w, d, labels) >= 1 <==> exists r :: r in w && DayOf(r) == d && r.labelName in labels
    decreases |w|
  {
    if w != [] {
      CountOnPositive(w[1..], d, labels);
      assert forall r :: r in w <==> r == w[0] || r in w[1..];
    }
  }

  /** The three counts of a day add up to the number of that day's rows whose label
      is one of the three names; the sum is at least one exactly when such a row
      exists. With DailyCounts, this holds of every reported day's counts. */
  lemma DailyTotals(w: seq<Row>, d: int)
    ensures Tally(w, d).pos + Tally(w, d).neu + Tally(w, d).neg == CountOn(w, d, {"Positive", "Neutral", "Negative"})
    ensures CountOn(w, d, {"Positive", "Neutral", "Negative"}) >= 1 <==>
            exists r :: r in w && DayOf(r) == d && r.labelName in {"Positive", "Neutral", "Negative"}
  {
    CountOnUnion(w, d, {"Positive"}, {"Neutral"});
    CountOnUnion(w, d, {"Positive", "Neutral"}, {"Negative"});
    assert {"Positive"} + {"Neutral"} == {"Positive", "Neutral"};
    assert {"Positive", "Neutral"} + {"Negative"} == {"Positive", "Neutral", "Negative"};
    CountOnPositive(w, d, {"Positive", "Neutral", "Negative"});
  }

  // ---------- top posts ----------

  /** The columns `get_top_posts` selects. */
  datatype TopPost = TopPost(title: string, body: string, permalink: string, sentiment: real)

  function Project(r: Row): TopPost {
    TopPost(r.title, r.body, r.permalink, r.sentiment)
  }

  /** The rows with the given label, in table order. */
  function WithLabel(t: seq<Row>, wanted: string): (m: seq<Row>)
    ensures forall r :: r in m <==> r in t && r.labelName == wanted
    ensures multiset(m) <= multiset(t)
  {
    if t == [] then []
    else
      assert t == [t[0]] + t[1..];
      if t[0].labelName == wanted then [t[0]] + WithLabel(t[1..], wanted)
      else WithLabel(t[1..], wanted)
  }

  /** Non-increasing in sentiment. */
  predicate SortedDesc(s: seq<Row>) {
    forall i, j :: 0 <= i < j < |s| ==> s[i].sentiment >= s[j].sentiment
  }

  /** Places `x` before the first row whose sentiment does not exceed its own. */
  function InsertDesc(x: Row, s: seq<Row>): (r: seq<Row>)
    requires SortedDesc(s)
    ensures SortedDesc(r)
    ensures |r| == |s| + 1
    ensures multiset(r) == multiset(s) + multiset{x}
    ensures forall y :: y in r <==> y == x || y in s
  {
    if s == [] || s[0].sentiment <= x.sentiment then
      HeadSorted(x, s);
      [x] + s
    else
      var rest := InsertDesc(x, s[1..]);
      assert s == [s[0]] + s[1..];
      assert forall y :: y in s[1..] ==> y.sentiment <= s[0].sentiment by {
        forall y | y in s[1..] ensures y.sentiment <= s[0].sentiment {
          var j :| 0 <= j < |s[1..]| && s[1..][j] == y;
          assert s[j + 1] == y;
        }
      }
      HeadSorted(s[0], rest);
      [s[0]] + rest
  }

  /** A row no lower than every row of a sorted sequence can go in front of it. */
  lemma HeadSorted(x: Row, s: seq<Row>)
    requires SortedDesc(s)
    requires s != [] ==> s[0].sentiment <= x.sentiment
    ensures SortedDesc([x] + s)
  {
    var r := [x] + s;
    forall i, j | 0 <= i < j < |r| ensures r[i].sentiment >= r[j].sentiment {
      assert r[j] == s[j - 1];
      if i > 0 { assert r[i] == s[i - 1]; } else { assert s[0].sentiment >= s[j - 1].sentiment || j == 1; }
    }
  }

  /** `ORDER BY sentiment DESC`; rows of equal sentiment keep their table order. */
  function SortDesc(s: seq<Row>): (r: seq<Row>)
    ensures SortedDesc(r)
    ensures |r| == |s|
    ensures multiset(r) == multiset(s)
    ensures forall y :: y in r <==> y in s
  {
    if s == [] then []
    else
      assert s == [s[0]] + s[1..];
      InsertDesc(s[0], SortDesc(s[1..]))
  }

  /** The number of rows `LIMIT n` keeps out of `len`; a negative limit keeps all. */
  function LimitCount(n: int, len: nat): (k: nat)
    ensures k <= len
    ensures n >= 0 ==> k <= n && (k == n || k == len)
    ensures n < 0 ==> k == len
  {
    if n < 0 || n > len then len else n
  }

  /** The selected rows, before projection. */
  function TopRows(t: seq<Row>, wanted: string, n: int): (r: seq<Row>)
    ensures |r| == LimitCount(n, |WithLabel(t, wanted)|)
    ensures SortedDesc(r)
    ensures forall i :: 0 <= i < |r| ==> r[i] in t && r[i].labelName == wanted
    ensures multiset(r) <= multiset(WithLabel(t, wanted))
    ensures n < 0 ==> multiset(r) == multiset(WithLabel(t, wanted))
  {
    var m := WithLabel(t, wanted);
    var sorted := SortDesc(m);
    var k := LimitCount(n, |sorted|);
    SortedPrefix(m, sorted, k);
    sorted[..k]
  }

  /** A prefix of a sorted permutation of `m` is sorted, is a sub-multiset of `m`
      with all its rows drawn from `m`, and is all of `m` when it has full length. */
  lemma SortedPrefix(m: seq<Row>, s: seq<Row>, k: nat)
    requires k <= |s| && SortedDesc(s) && multiset(s) == multiset(m)
    ensures SortedDesc(s[..k])
    ensures forall x :: x in s[..k] ==> x in m
    ensures multiset(s[..k]) <= multiset(m)
    ensures k == |s| ==> multiset(s[..k]) == multiset(m)
  {
    assert s == s[..k] + s[k..];
    forall x | x in s[..k] ensures x in m {
      assert x in multiset(s);
    }
  }

  /** `get_top_posts(label, n)`: at most `n` posts with that label (all of them
      when `n` is negative), by non-increasing sentiment, each from the table. */
  function TopPosts(t: seq<Row>, wanted: string, n: int): (r: seq<TopPost>)
    ensures n >= 0 ==> |r| <= n
    ensures |r| == LimitCount(n, |WithLabel(t, wanted)|)
    ensures forall i, j :: 0 <= i < j < |r| ==> r[i].sentiment >= r[j].sentiment
    ensures forall i :: 0 <= i < |r| ==> exists row :: row in t && row.labelName == wanted && r[i] == Project(row)
    ensures |r| == |TopRows(t, wanted, n)|
    ensures forall i :: 0 <= i < |r| ==> r[i] == Project(TopRows(t, wanted, n)[i])
    ensures n < 0 ==> forall row :: row in t && row.labelName == wanted ==> Project(row) in r
  {
    var rows := TopRows(t, wanted, n);
    var r := seq(|rows|, i requires 0 <= i < |rows| => Project(rows[i]));
    assert forall i :: 0 <= i < |r| ==> rows[i] in t && r[i] == Project(rows[i]);
    ProjectionsCover(rows, r);
    r
  }

  /** Every projected row shows up among the projections. */
  lemma ProjectionsCover(rows: seq<Row>, r: seq<TopPost>)
    requires |r| == |rows|
    requires forall i :: 0 <= i < |r| ==> r[i] == Project(rows[i])
    ensures forall x :: x in rows ==> Project(x) in r
  {
    forall x | x in rows ensures Project(x) in r {
      var i :| 0 <= i < |rows| && rows[i] == x;
      assert r[i] == Project(x);
    }
  }

  /** The selected rows are the top ones: every row of that label left out has a
      sentiment no higher than any row kept. */
  lemma TopRowsAreTop(t: seq<Row>, wanted: string, n: int, x: Row)
    requires x in t && x.labelName == wanted
    requires x !in TopRows(t, wanted, n)
    ensures forall i :: 0 <= i < |TopRows(t, wanted, n)| ==> x.sentiment <= TopRows(t, wanted, n)[i].sentiment
  {
    var sorted := SortDesc(WithLabel(t, wanted));
    var k := LimitCount(n, |sorted|);
    assert x in multiset(sorted);
    var j :| 0 <= j < |sorted| && sorted[j] == x;
    forall i | 0 <= i < k ensures sorted[i] != x {
      assert sorted[i] == sorted[..k][i];
      assert sorted[..k][i] in sorted[..k];
    }
    assert j >= k;
  }

}
