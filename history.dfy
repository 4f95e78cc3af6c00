/** The match history the feature and rating code reads: one record per
    finished T20I with its date, the two teams and the winner, kept in the
    order the matches file lists them. pandas' boolean-mask selections, `tail`
    and `sort_values("date")` are written out over that sequence. */
module History {

  type Team = string

  /** A calendar day; pandas timestamps are compared by day here. */
  datatype Date = Date(year: int, month: int, day: int)

  /** One line of the matches table. */
  datatype Match = Match(matchId: string, date: Date, team1: Team, team2: Team, winner: Team)

  /** An Elo expected-score curve: the expected score of a team rated `a`
      against one rated `b`, a power of ten in the code and an input here. */
  type Expected = (real, real) -> real

  ghost predicate IsExpected(ex: Expected) {
    forall a: real, b: real :: 0.0 < ex(a, b) < 1.0
  }

  predicate DateLess(x: Date, y: Date) {
    x.year < y.year
    || (x.year == y.year && x.month < y.month)
    || (x.year == y.year && x.month == y.month && x.day < y.day)
  }

  predicate DateAtMost(x: Date, y: Date) {
    DateLess(x, y) || x == y
  }

  lemma DateLessTrans(x: Date, y: Date, z: Date)
    requires DateLess(x, y) && DateLess(y, z)
    ensures DateLess(x, z)
  {
  }

  lemma DateTotal(x: Date, y: Date)
    ensures DateLess(x, y) || x == y || DateLess(y, x)
  {
  }

  predicate IsLeap(y: int) {
    (y % 4 == 0 && y % 100 != 0) || y % 400 == 0
  }

  function DaysInMonth(y: int, m: int): (n: int)
    ensures 28 <= n <= 31
  {
    if m == 2 then (if IsLeap(y) then 29 else 28)
    else if m == 4 || m == 6 || m == 9 || m == 11 then 30
    else 31
  }

  predicate ValidDate(d: Date) {
    1 <= d.month <= 12 && 1 <= d.day <= DaysInMonth(d.year, d.month)
  }

  /** `date - pd.DateOffset(years=n)`: the same month and day `n` years
      earlier, with a day past the end of that month (29 February in a
      common year) moved back to the month's last day. */
  function MinusYears(d: Date, n: nat): (r: Date)
    requires ValidDate(d)
    ensures ValidDate(r) && r.year == d.year - n && r.month == d.month
    ensures r.day == d.day || (d.month == 2 && d.day == 29 && r.day == 28 && !IsLeap(d.year - n))
  {
    var y := d.year - n;
    Date(y, d.month, if d.day <= DaysInMonth(y, d.month) then d.day else DaysInMonth(y, d.month))
  }

  /** The window start lies strictly before the date itself. */
  lemma MinusYearsBefore(d: Date, n: nat)
    requires ValidDate(d) && n > 0
    ensures DateLess(MinusYears(d, n), d)
  {
  }

  /** `s[mask]` for a row predicate: the selected rows in their order. */
  function Filter<T>(s: seq<T>, p: T -> bool): (r: seq<T>)
    ensures |r| <= |s|
    ensures forall x <- r :: p(x) && x in s
    ensures forall x <- s :: p(x) ==> x in r
  {
    if s == [] then []
    else if p(s[0]) then [s[0]] + Filter(s[1..], p)
    else Filter(s[1..], p)
  }

  /** Selecting twice is selecting by both conditions. */
  lemma {:induction false} FilterFilter<T>(s: seq<T>, p: T -> bool, q: T -> bool)
    ensures Filter(Filter(s, p), q) == Filter(s, x => p(x) && q(x))
  {
    if s != [] {
      FilterFilter(s[1..], p, q);
    }
  }

  /** A row other than the ones selected can be added or dropped freely. */
  lemma {:induction false} FilterAppend<T>(s: seq<T>, t: seq<T>, p: T -> bool)
    ensures Filter(s + t, p) == Filter(s, p) + Filter(t, p)
  {
    if s == [] {
      assert s + t == t;
    } else {
      assert (s + t)[0] == s[0] && (s + t)[1..] == s[1..] + t;
      FilterAppend(s[1..], t, p);
    }
  }

  /** Number of rows satisfying `p`: `(mask).sum()`. */
  function Count<T>(s: seq<T>, p: T -> bool): (n: nat)
    ensures n <= |s|
  {
    if s == [] then 0 else (if p(s[0]) then 1 else 0) + Count(s[1..], p)
  }

  lemma {:induction false} CountAppend<T>(s: seq<T>, t: seq<T>, p: T -> bool)
    ensures Count(s + t, p) == Count(s, p) + Count(t, p)
  {
    if s == [] {
      assert s + t == t;
    } else {
      assert (s + t)[0] == s[0] && (s + t)[1..] == s[1..] + t;
      CountAppend(s[1..], t, p);
    }
  }

  /** Rows satisfying one of two exclusive conditions are counted by the
      two counts together. */
  lemma {:induction false} CountDisjoint<T>(s: seq<T>, p: T -> bool, q: T -> bool)
    requires forall x <- s :: !(p(x) && q(x))
    ensures Count(s, p) + Count(s, q) <= |s|
  {
    if s != [] {
      assert forall x <- s[1..] :: x in s;
      CountDisjoint(s[1..], p, q);
    }
  }

  /** Every row satisfies one of two conditions. */
  lemma {:induction false} CountCover<T>(s: seq<T>, p: T -> bool, q: T -> bool)
    requires forall x <- s :: p(x) || q(x)
    requires forall x <- s :: !(p(x) && q(x))
    ensures Count(s, p) + Count(s, q) == |s|
  {
    if s != [] {
      assert forall x <- s[1..] :: x in s;
      CountCover(s[1..], p, q);
    }
  }

  /** `.tail(n)`: the last `n` rows, or all of them when there are fewer. */
  function Tail<T>(s: seq<T>, n: nat): (r: seq<T>)
    ensures |r| == if |s| <= n then |s| else n
    ensures forall x <- r :: x in s
  {
    if |s| <= n then s else s[|s| - n..]
  }

  /** `.tail(n)` keeps the last rows, in order. */
  lemma TailIsSuffix<T>(s: seq<T>, n: nat)
    ensures Tail(s, n) == s[|s| - |Tail(s, n)|..]
  {
  }

  /** `df["date"] < as_of`. */
  function Before(ms: seq<Match>, asOf: Date): (r: seq<Match>)
    ensures forall m <- r :: m in ms && DateLess(m.date, asOf)
  {
    Filter(ms, (m: Match) => DateLess(m.date, asOf))
  }

  /** A match on or after the date is never selected by `Before`. */
  lemma {:induction false} BeforeIgnoresLater(ms: seq<Match>, later: seq<Match>, asOf: Date)
    requires forall m <- later :: !DateLess(m.date, asOf)
    ensures Before(ms + later, asOf) == Before(ms, asOf)
  {
    FilterAppend(ms, later, (m: Match) => DateLess(m.date, asOf));
    FilterNone(later, (m: Match) => DateLess(m.date, asOf));
  }

  lemma {:induction false} FilterNone<T>(s: seq<T>, p: T -> bool)
    requires forall x <- s :: !p(x)
    ensures Filter(s, p) == []
  {
    if s != [] {
      assert forall x <- s[1..] :: x in s;
      FilterNone(s[1..], p);
    }
  }

  predicate Plays(m: Match, t: Team) {
    m.team1 == t || m.team2 == t
  }

  /** The two teams met, in either home/away order. */
  predicate Meeting(m: Match, a: Team, b: Team) {
    (m.team1 == a && m.team2 == b) || (m.team1 == b && m.team2 == a)
  }

  /** Matches of team `t`: `(team_1 == t) | (team_2 == t)`. */
  function Involving(ms: seq<Match>, t: Team): (r: seq<Match>)
    ensures forall m <- r :: m in ms && Plays(m, t)
  {
    Filter(ms, (m: Match) => Plays(m, t))
  }

  /** Meetings of `a` and `b` on or after `cutoff`. */
  function Meetings(ms: seq<Match>, a: Team, b: Team, cutoff: Date): (r: seq<Match>)
    ensures forall m <- r :: m in ms && Meeting(m, a, b) && DateAtMost(cutoff, m.date)
  {
    Filter(ms, (m: Match) => DateAtMost(cutoff, m.date) && Meeting(m, a, b))
  }

  /** The same meetings whichever team is named first. */
  lemma {:induction false} MeetingsSymmetric(ms: seq<Match>, a: Team, b: Team, cutoff: Date)
    ensures Meetings(ms, a, b, cutoff) == Meetings(ms, b, a, cutoff)
  {
    if ms != [] {
      MeetingsSymmetric(ms[1..], a, b, cutoff);
    }
  }

  /** `(matches["winner"] == t).sum()`. */
  function Wins(ms: seq<Match>, t: Team): (n: nat)
    ensures n <= |ms|
  {
    Count(ms, (m: Match) => m.winner == t)
  }

  /** Rows sorted by a date key, earliest first. */
  predicate SortedBy<T>(s: seq<T>, key: T -> Date) {
    forall i, j :: 0 <= i < j < |s| ==> DateAtMost(key(s[i]), key(s[j]))
  }

  /** Places `x` before the first row not earlier than it. */
  function InsertBy<T>(x: T, s: seq<T>, key: T -> Date): (r: seq<T>)
    ensures multiset(r) == multiset(s) + multiset{x}
    ensures |r| == |s| + 1
  {
    if s == [] || !DateLess(key(s[0]), key(x)) then [x] + s
    else
      assert s == [s[0]] + s[1..];
      [s[0]] + InsertBy(x, s[1..], key)
  }

  /** `sort_values("date")` taken as a stable sort: insertion from the back,
      each row going before the rows of the same day that follow it. */
  function SortBy<T>(s: seq<T>, key: T -> Date): (r: seq<T>)
    ensures multiset(r) == multiset(s)
    ensures |r| == |s|
  {
    if s == [] then []
    else
      assert s == [s[0]] + s[1..];
      InsertBy(s[0], SortBy(s[1..], key), key)
  }

  lemma {:induction false} InsertBySorted<T>(x: T, s: seq<T>, key: T -> Date)
    requires SortedBy(s, key)
    ensures SortedBy(InsertBy(x, s, key), key)
  {
    var r := InsertBy(x, s, key);
    if s == [] {
    } else if !DateLess(key(s[0]), key(x)) {
      DateTotal(key(s[0]), key(x));
      forall j | 0 < j < |r| ensures DateAtMost(key(r[0]), key(r[j])) {
        assert r[j] == s[j - 1];
        if DateLess(key(x), key(s[0])) && s[0] != s[j - 1] {
          assert DateAtMost(key(s[0]), key(s[j - 1]));
        }
      }
    } else {
      InsertBySorted(x, s[1..], key);
      var rest := InsertBy(x, s[1..], key);
      assert r == [s[0]] + rest;
      forall j | 0 < j < |r| ensures DateAtMost(key(r[0]), key(r[j])) {
        assert r[j] in multiset(rest);
        assert r[j] in multiset(s[1..]) + multiset{x};
        if r[j] != x {
          assert r[j] in s[1..];
          var k :| 0 <= k < |s[1..]| && s[1..][k] == r[j];
          assert s[k + 1] == r[j];
        }
      }
    }
  }

  /** The sorted rows are in date order. */
  lemma {:induction false} SortBySorted<T>(s: seq<T>, key: T -> Date)
    ensures SortedBy(SortBy(s, key), key)
  {
    if s != [] {
      SortBySorted(s[1..], key);
      InsertBySorted(s[0], SortBy(s[1..], key), key);
    }
  }

  /** The sort only reorders: every sorted row is an input row. */
  lemma SortByMembers<T>(s: seq<T>, key: T -> Date)
    ensures forall x <- SortBy(s, key) :: x in s
  {
    forall x <- SortBy(s, key) ensures x in s {
      assert x in multiset(SortBy(s, key));
    }
  }

  /** Being stable, the sort leaves rows already in date order as they are. */
  lemma {:induction false} SortBySortedId<T>(s: seq<T>, key: T -> Date)
    requires SortedBy(s, key)
    ensures SortBy(s, key) == s
  {
    if s != [] {
      assert SortedBy(s[1..], key) by {
        forall i, j | 0 <= i < j < |s[1..]| ensures DateAtMost(key(s[1..][i]), key(s[1..][j])) {
          assert s[1..][i] == s[i + 1] && s[1..][j] == s[j + 1];
        }
      }
      SortBySortedId(s[1..], key);
      if |s| > 1 {
        assert DateAtMost(key(s[0]), key(s[1]));
        assert !DateLess(key(s[1]), key(s[0]));
      }
      assert s == [s[0]] + s[1..];
    }
  }

  function DateOf(m: Match): Date {
    m.date
  }

  predicate DateSorted(ms: seq<Match>) {
    SortedBy(ms, DateOf)
  }

  function SortByDate(ms: seq<Match>): (r: seq<Match>)
    ensures multiset(r) == multiset(ms)
    ensures |r| == |ms|
  {
    SortBy(ms, DateOf)
  }

  /** The sorted list is in date order and holds the same matches. */
  lemma SortByDateSorted(ms: seq<Match>)
    ensures DateSorted(SortByDate(ms))
  {
    SortBySorted(ms, DateOf);
  }

  /** The whitespace `str.strip()` and `int()` remove (its ASCII part). */
  predicate IsSpace(c: char) {
    c == ' ' || 9 <= c as int <= 13 || 28 <= c as int <= 31
  }

  function Strip(s: string): (r: string)
    ensures |r| <= |s|
    ensures r == [] || (!IsSpace(r[0]) && !IsSpace(r[|r| - 1]))
  {
    if s != [] && IsSpace(s[0]) then Strip(s[1..])
    else if s != [] && IsSpace(s[|s| - 1]) then Strip(s[..|s| - 1])
    else s
  }

  /** Everything of `s` outside `s[i..j]` is whitespace. */
  predicate SpaceOutside(s: string, i: int, j: int)
    requires 0 <= i <= j <= |s|
  {
    (forall k :: 0 <= k < i ==> IsSpace(s[k])) && (forall k :: j <= k < |s| ==> IsSpace(s[k]))
  }

  /** `strip()` removes exactly a run of whitespace at the front and one at
      the back: what is left is a slice of the input with only whitespace
      around it. */
  lemma {:induction false} StripSlice(s: string)
    ensures exists i, j :: 0 <= i <= j <= |s| && Strip(s) == s[i..j] && SpaceOutside(s, i, j)
  {
    if s != [] && IsSpace(s[0]) {
      var t := s[1..];
      StripSlice(t);
      var i, j :| 0 <= i <= j <= |t| && Strip(t) == t[i..j] && SpaceOutside(t, i, j);
      assert t[i..j] == s[i + 1..j + 1];
      SpaceOutsideFront(s, i, j);
    } else if s != [] && IsSpace(s[|s| - 1]) {
      var t := s[..|s| - 1];
      StripSlice(t);
      var i, j :| 0 <= i <= j <= |t| && Strip(t) == t[i..j] && SpaceOutside(t, i, j);
      assert t[i..j] == s[i..j];
      SpaceOutsideBack(s, i, j);
    } else {
      assert Strip(s) == s[0..|s|] && SpaceOutside(s, 0, |s|);
    }
  }

  lemma SpaceOutsideFront(s: string, i: int, j: int)
    requires s != [] && IsSpace(s[0]) && 0 <= i <= j <= |s| - 1
    requires SpaceOutside(s[1..], i, j)
    ensures SpaceOutside(s, i + 1, j + 1)
  {
    forall k | 0 < k < |s| ensures s[k] == s[1..][k - 1] {
    }
  }

  lemma SpaceOutsideBack(s: string, i: int, j: int)
    requires s != [] && IsSpace(s[|s| - 1]) && 0 <= i <= j <= |s| - 1
    requires SpaceOutside(s[..|s| - 1], i, j)
    ensures SpaceOutside(s, i, j)
  {
    forall k | 0 <= k < |s| - 1 ensures s[k] == s[..|s| - 1][k] {
    }
  }

  /** Stripping twice is stripping once. */
  lemma StripIdempotent(s: string)
    ensures Strip(Strip(s)) == Strip(s)
  {
    StripClean(Strip(s));
  }

  /** A name without surrounding whitespace is left as it is. */
  lemma StripClean(s: string)
    requires s == [] || (!IsSpace(s[0]) && !IsSpace(s[|s| - 1]))
    ensures Strip(s) == s
  {
  }
}
