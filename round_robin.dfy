/** One round robin of `simulate_tournament`: the fixtures, the match
    resolver with its net-run-rate margin, the points/nrr accumulation and
    the ranking by `(points, nrr)`. The same code plays a group of the group
    stage and a Super 8 group. */
module RoundRobin {
  import opened Errors
  import opened Seqs
  import Ranking

  type Team = string

  /** `prob_cache`: ordered pair (a, b) -> probability that a beats b. */
  type Cache = map<(Team, Team), real>

  /** The successive values of `random.random()`; `random.uniform` also
      consumes one of them. */
  type Draws = nat -> real

  const MARGIN_FLOOR: real := 0.02
  const MARGIN_BASE: real := 0.08
  const MARGIN_SCALE: real := 0.25
  const NOISE_LOW: real := -0.03
  const NOISE_HIGH: real := 0.03

  function Abs(x: real): real {
    if x < 0.0 then -x else x
  }

  function Max(x: real, y: real): real {
    if x >= y then x else y
  }

  /** How strong a favourite the winner was: 0 for a coin flip. */
  function Strength(p: real): (s: real)
    ensures s >= 0.0
    ensures 0.0 <= p <= 1.0 ==> s <= 1.0
    ensures s == 0.0 <==> p == 0.5
  {
    Abs(p - 0.5) * 2.0
  }

  /** `random.uniform(-0.03, 0.03)` computed from the draw `u`, as
      `lo + (hi - lo) * u`. */
  function Noise(u: real): (x: real)
    ensures 0.0 <= u < 1.0 ==> NOISE_LOW <= x < NOISE_HIGH
  {
    NOISE_LOW + (NOISE_HIGH - NOISE_LOW) * u
  }

  /** `margin_bonus`: the net-run-rate swing of a win by a team that had
      win probability `pWinner`, with noise drawn from `u`. */
  function MarginBonus(pWinner: real, u: real): (m: real)
    ensures m >= MARGIN_FLOOR
    ensures 0.0 <= pWinner <= 1.0 && 0.0 <= u < 1.0 ==> 0.05 <= m <= 0.36
  {
    var strength := Strength(pWinner);
    var noise := Noise(u);
    Max(MARGIN_FLOOR, MARGIN_BASE + MARGIN_SCALE * strength + noise)
  }

  /** The pairs `(a, rest[k])`, in the order of `rest`. */
  function Pairs(a: Team, rest: seq<Team>): (ps: seq<(Team, Team)>)
    ensures |ps| == |rest|
    ensures forall k :: 0 <= k < |rest| ==> ps[k] == (a, rest[k])
  {
    seq(|rest|, k requires 0 <= k < |rest| => (a, rest[k]))
  }

  /** `fixtures_round_robin`: `itertools.combinations(teams, 2)`. */
  function Fixtures(teams: seq<Team>): (f: seq<(Team, Team)>)
    ensures forall p <- f :: p.0 in teams && p.1 in teams
  {
    if teams == [] then []
    else Pairs(teams[0], teams[1..]) + Fixtures(teams[1..])
  }

  /** k teams play k(k-1)/2 fixtures. */
  lemma {:induction false} FixturesCount(teams: seq<Team>)
    ensures 2 * |Fixtures(teams)| == |teams| * (|teams| - 1)
  {
    if teams != [] {
      var rest := Fixtures(teams[1..]);
      FixturesCount(teams[1..]);
      assert |Fixtures(teams)| == |teams[1..]| + |rest|;
      TriangleStep(|teams[1..]|, |rest|);
    }
  }

  lemma TriangleStep(m: int, x: int)
    requires 2 * x == m * (m - 1)
    ensures 2 * (m + x) == (m + 1) * m
  {
    assert m * (m - 1) == m * m - m;
    assert (m + 1) * m == m * m + m;
  }

  /** A fixture is `(teams[i], teams[j])` for some `i < j`. */
  lemma {:induction false} FixtureSound(teams: seq<Team>, p: (Team, Team))
    requires p in Fixtures(teams)
    ensures exists i, j :: 0 <= i < j < |teams| && p == (teams[i], teams[j])
  {
    var tail := teams[1..];
    var ps := Pairs(teams[0], tail);
    if p in ps {
      var k :| 0 <= k < |ps| && ps[k] == p;
      assert p == (teams[0], teams[k + 1]);
    } else {
      FixtureSound(tail, p);
      var i, j :| 0 <= i < j < |tail| && p == (tail[i], tail[j]);
      assert p == (teams[i + 1], teams[j + 1]);
    }
  }

  /** Every fixture is `(teams[i], teams[j])` for some `i < j`. */
  lemma FixturesSound(teams: seq<Team>)
    ensures forall p <- Fixtures(teams) ::
      exists i, j :: 0 <= i < j < |teams| && p == (teams[i], teams[j])
  {
    forall p | p in Fixtures(teams)
      ensures exists i, j :: 0 <= i < j < |teams| && p == (teams[i], teams[j])
    {
      FixtureSound(teams, p);
    }
  }

  /** Every `(teams[i], teams[j])` with `i < j` is a fixture. */
  lemma {:induction false} FixturesComplete(teams: seq<Team>)
    ensures forall i, j :: 0 <= i < j < |teams| ==> (teams[i], teams[j]) in Fixtures(teams)
  {
    if teams != [] {
      var tail := teams[1..];
      FixturesComplete(tail);
      forall i, j | 0 <= i < j < |teams| ensures (teams[i], teams[j]) in Fixtures(teams) {
        if i == 0 {
          assert Pairs(teams[0], tail)[j - 1] == (teams[i], teams[j]);
        } else {
          assert (tail[i - 1], tail[j - 1]) in Fixtures(tail);
        }
      }
    }
  }

  /** For distinct teams every unordered pair is played exactly once: no
      fixture repeats, and no fixture is played in both orientations. */
  lemma {:induction false} FixturesOnce(teams: seq<Team>)
    requires IsDistinct(teams)
    ensures IsDistinct(Fixtures(teams))
    ensures forall p <- Fixtures(teams) :: (p.1, p.0) !in Fixtures(teams)
  {
    FixturesSound(teams);
    if teams != [] {
      var tail := teams[1..];
      DistinctTail(teams);
      FixturesOnce(tail);
      var ps := Pairs(teams[0], tail);
      FixturesSound(tail);
      assert forall x <- ps :: x.0 == teams[0];
      DistinctConcat(ps, Fixtures(tail));
    }
  }

  /** `simulate_match_cached`: `a` wins iff the draw is below the stored
      probability of the ORDERED pair (a, b); a missing pair is a KeyError. */
  function SimulateMatchCached(a: Team, b: Team, cache: Cache, u: real): (r: Result<Team>)
    ensures r.Ok? <==> (a, b) in cache
    ensures r.Ok? ==> (r.value == a <==> (u < cache[(a, b)] || a == b))
    ensures r.Ok? ==> (r.value == a || r.value == b)
  {
    if (a, b) !in cache then Err(KeyError)
    else
      var pA := cache[(a, b)];
      Ok(if u < pA then a else b)
  }

  /** With probability 1 the first team always wins. */
  lemma CertainWin(a: Team, b: Team, cache: Cache, u: real)
    requires (a, b) in cache && cache[(a, b)] == 1.0 && 0.0 <= u < 1.0
    ensures SimulateMatchCached(a, b, cache, u) == Ok(a)
  {
  }

  /** With probability 0 the second team always wins. */
  lemma CertainLoss(a: Team, b: Team, cache: Cache, u: real)
    requires (a, b) in cache && cache[(a, b)] == 0.0 && 0.0 <= u < 1.0
    ensures SimulateMatchCached(a, b, cache, u) == Ok(b)
  {
  }

  /** The reverse entry (b, a) is never consulted. */
  lemma ReverseEntryUnused(a: Team, b: Team, cache: Cache, u: real, q: real)
    requires a != b
    ensures SimulateMatchCached(a, b, cache, u) == SimulateMatchCached(a, b, cache[(b, a) := q], u)
  {
  }

  /** The accumulators of one round robin and the next unread draw. */
  datatype Round = Round(points: map<Team, int>, nrr: map<Team, real>, pos: nat)

  predicate Covers(r: Round, t: Team) {
    t in r.points && t in r.nrr
  }

  /** `points = {t: 0 for t in teams}`, `nrr = {t: 0.0 for t in teams}`. */
  function StartRound(teams: seq<Team>, pos: nat): (r: Round)
    ensures forall t <- teams :: Covers(r, t) && r.points[t] == 0 && r.nrr[t] == 0.0
    ensures r.pos == pos
  {
    Round(map t | t in teams :: 0, map t | t in teams :: 0.0, pos)
  }

  /** One fixture: the winner gains 2 points and the margin, the loser loses
      the same margin. The loser-side margin uses `1 - p_a`, not the cache
      entry for (b, a). */
  function PlayMatch(r: Round, a: Team, b: Team, cache: Cache, draws: Draws): (res: Result<Round>)
    requires Covers(r, a) && Covers(r, b)
    ensures res.Ok? <==> (a, b) in cache
    ensures res.Ok? ==> res.value.points.Keys == r.points.Keys && res.value.nrr.Keys == r.nrr.Keys
    ensures res.Ok? ==> forall t :: Covers(r, t) ==> Covers(res.value, t)
    ensures res.Ok? ==> res.value.pos == r.pos + 2
  {
    if (a, b) !in cache then Err(KeyError)
    else
      var pA := cache[(a, b)];
      var winner := SimulateMatchCached(a, b, cache, draws(r.pos)).value;
      var points := r.points[winner := r.points[winner] + 2];
      if winner == a then
        var m := MarginBonus(pA, draws(r.pos + 1));
        var n1 := r.nrr[a := r.nrr[a] + m];
        Ok(Round(points, n1[b := n1[b] - m], r.pos + 2))
      else
        var m := MarginBonus(1.0 - pA, draws(r.pos + 1));
        var n1 := r.nrr[b := r.nrr[b] + m];
        Ok(Round(points, n1[a := n1[a] - m], r.pos + 2))
  }

  /** What one fixture does to the table: the winner of `simulate_match_cached`
      on the next draw gains 2 points and the margin drawn from the draw after
      it, the loser loses the same margin, and no other team changes. The
      margin is computed from `p_a` when a wins and from `1 - p_a` when b
      wins. A team drawn against itself gains 2 points and keeps its nrr. */
  lemma PlayMatchEffect(r: Round, a: Team, b: Team, cache: Cache, draws: Draws)
    requires Covers(r, a) && Covers(r, b) && (a, b) in cache
    ensures var res := PlayMatch(r, a, b, cache, draws);
      var w := SimulateMatchCached(a, b, cache, draws(r.pos)).value;
      var l := if w == a then b else a;
      var m := MarginBonus(if w == a then cache[(a, b)] else 1.0 - cache[(a, b)], draws(r.pos + 1));
      && res.Ok?
      && (a != b ==>
            && res.value.points[w] == r.points[w] + 2 && res.value.points[l] == r.points[l]
            && res.value.nrr[w] == r.nrr[w] + m && res.value.nrr[l] == r.nrr[l] - m)
      && (a == b ==> res.value.points[a] == r.points[a] + 2 && res.value.nrr[a] == r.nrr[a])
      && (forall t :: t != a && t != b && Covers(r, t) ==>
            res.value.points[t] == r.points[t] && res.value.nrr[t] == r.nrr[t])
  {
  }

  /** The fixture loop; the first missing cache pair aborts it. */
  function PlayFixtures(fixtures: seq<(Team, Team)>, r: Round, cache: Cache, draws: Draws): (res: Result<Round>)
    requires forall p <- fixtures :: Covers(r, p.0) && Covers(r, p.1)
    ensures res.Ok? <==> forall p <- fixtures :: p in cache
    ensures res.Ok? ==> res.value.points.Keys == r.points.Keys && res.value.nrr.Keys == r.nrr.Keys
    ensures res.Ok? ==> forall t :: Covers(r, t) ==> Covers(res.value, t)
    ensures res.Ok? ==> res.value.pos == r.pos + 2 * |fixtures|
    decreases |fixtures|
  {
    if fixtures == [] then Ok(r)
    else
      var p := fixtures[0];
      assert forall q <- fixtures[1..] :: q in fixtures;
      var m := PlayMatch(r, p.0, p.1, cache, draws);
      if m.Err? then Err(m.error)
      else PlayFixtures(fixtures[1..], m.value, cache, draws)
  }

  /** Each match hands out 2 points and moves nrr zero-sum. */
  lemma MatchConserves(r: Round, a: Team, b: Team, cache: Cache, draws: Draws, keys: seq<Team>)
    requires IsDistinct(keys) && a in keys && b in keys
    requires forall t <- keys :: Covers(r, t)
    ensures var res := PlayMatch(r, a, b, cache, draws);
      res.Ok? ==>
        && SumInt(keys, res.value.points) == SumInt(keys, r.points) + 2
        && SumReal(keys, res.value.nrr) == SumReal(keys, r.nrr)
  {
    if (a, b) in cache {
      var pA := cache[(a, b)];
      var u := draws(r.pos);
      var winner := if u < pA then a else b;
      assert SimulateMatchCached(a, b, cache, u) == Ok(winner);
      var res := PlayMatch(r, a, b, cache, draws);
      assert res.value.points == r.points[winner := r.points[winner] + 2];
      SumIntUpdate(keys, r.points, winner, 2);
      if winner == a {
        var m := MarginBonus(pA, draws(r.pos + 1));
        assert res.value.nrr == r.nrr[a := r.nrr[a] + m][b := r.nrr[a := r.nrr[a] + m][b] - m];
        MarginMoves(keys, r.nrr, a, b, m);
      } else {
        var m := MarginBonus(1.0 - pA, draws(r.pos + 1));
        assert res.value.nrr == r.nrr[b := r.nrr[b] + m][a := r.nrr[b := r.nrr[b] + m][a] - m];
        MarginMoves(keys, r.nrr, b, a, m);
      }
    }
  }

  /** Moving margin `m` from the loser to the winner keeps the NRR sum. */
  lemma MarginMoves(keys: seq<Team>, nrr: map<Team, real>, w: Team, l: Team, m: real)
    requires IsDistinct(keys) && w in keys && l in keys
    requires forall t <- keys :: t in nrr
    ensures var n1 := nrr[w := nrr[w] + m];
      SumReal(keys, n1[l := n1[l] - m]) == SumReal(keys, nrr)
  {
    var n1 := nrr[w := nrr[w] + m];
    SumRealUpdate(keys, nrr, w, m);
    SumRealUpdate(keys, n1, l, -m);
    assert n1[l := n1[l] + -m] == n1[l := n1[l] - m];
  }

  /** Over a whole fixture list: points grow by 2 per fixture and the nrr
      total does not move. */
  lemma {:induction false} FixturesConserve(fixtures: seq<(Team, Team)>, r: Round, cache: Cache, draws: Draws, keys: seq<Team>)
    requires IsDistinct(keys)
    requires forall p <- fixtures :: p.0 in keys && p.1 in keys
    requires forall t <- keys :: Covers(r, t)
    ensures var res := PlayFixtures(fixtures, r, cache, draws);
      res.Ok? ==>
        && SumInt(keys, res.value.points) == SumInt(keys, r.points) + 2 * |fixtures|
        && SumReal(keys, res.value.nrr) == SumReal(keys, r.nrr)
    decreases |fixtures|
  {
    if fixtures != [] {
      var p := fixtures[0];
      assert fixtures == [p] + fixtures[1..];
      MatchConserves(r, p.0, p.1, cache, draws, keys);
      var res := PlayMatch(r, p.0, p.1, cache, draws);
      if res.Ok? {
        FixturesConserve(fixtures[1..], res.value, cache, draws, keys);
      }
    }
  }

  /** `rank_table(points, nrr)`: the dict's keys (in insertion order `keys`)
      sorted by `(points, nrr)`, best first, stably. */
  function RankKeys(keys: seq<Team>, points: map<Team, int>, nrr: map<Team, real>): (km: map<Team, Ranking.Key>)
    requires forall t <- keys :: t in points && t in nrr
    ensures Ranking.HasKeys(keys, km)
  {
    map t | t in keys :: Ranking.Key(points[t] as real, nrr[t])
  }

  function RankTable(keys: seq<Team>, points: map<Team, int>, nrr: map<Team, real>): (ranked: seq<Team>)
    requires forall t <- keys :: t in points && t in nrr
    ensures multiset(ranked) == multiset(keys)
  {
    Ranking.SortDesc(keys, RankKeys(keys, points, nrr))
  }

  /** Better points rank higher; equal points are ordered by nrr. */
  lemma RankTableOrdered(keys: seq<Team>, points: map<Team, int>, nrr: map<Team, real>)
    requires forall t <- keys :: t in points && t in nrr
    ensures var r := RankTable(keys, points, nrr);
      forall i, j :: 0 <= i < j < |r| ==>
        r[i] in points && r[j] in points && r[i] in nrr && r[j] in nrr &&
        (points[r[i]] > points[r[j]] || (points[r[i]] == points[r[j]] && nrr[r[i]] >= nrr[r[j]]))
  {
    var km := RankKeys(keys, points, nrr);
    Ranking.SortDescSorted(keys, km);
    var r := RankTable(keys, points, nrr);
    forall i, j | 0 <= i < j < |r|
      ensures r[i] in points && r[j] in points && r[i] in nrr && r[j] in nrr
      ensures points[r[i]] > points[r[j]] || (points[r[i]] == points[r[j]] && nrr[r[i]] >= nrr[r[j]])
    {
      assert r[i] in multiset(keys) && r[j] in multiset(keys);
      assert r[i] in keys && r[j] in keys;
      assert km[r[i]].primary == points[r[i]] as real && km[r[j]].primary == points[r[j]] as real;
      assert Ranking.AtLeast(km[r[i]], km[r[j]]);
    }
  }

  /** Teams tied on both points and nrr keep their group insertion order. */
  lemma RankTableStable(keys: seq<Team>, points: map<Team, int>, nrr: map<Team, real>, pts: int, n: real)
    requires forall t <- keys :: t in points && t in nrr
    ensures var km := RankKeys(keys, points, nrr);
      Ranking.WithKey(RankTable(keys, points, nrr), km, Ranking.Key(pts as real, n))
        == Ranking.WithKey(keys, km, Ranking.Key(pts as real, n))
  {
    Ranking.SortDescStable(keys, RankKeys(keys, points, nrr), Ranking.Key(pts as real, n));
  }

  /** `rank_by_points`: the dict's items sorted by points alone, best first,
      stably, keeping only the teams. */
  function RankByPoints(keys: seq<Team>, points: map<Team, int>): (ranked: seq<Team>)
    requires forall t <- keys :: t in points
    ensures multiset(ranked) == multiset(keys)
  {
    Ranking.SortDesc(keys, map t | t in keys :: Ranking.Key(points[t] as real, 0.0))
  }

  lemma RankByPointsOrdered(keys: seq<Team>, points: map<Team, int>)
    requires forall t <- keys :: t in points
    ensures var r := RankByPoints(keys, points);
      forall i, j :: 0 <= i < j < |r| ==> r[i] in points && r[j] in points && points[r[i]] >= points[r[j]]
  {
    var km := map t | t in keys :: Ranking.Key(points[t] as real, 0.0);
    Ranking.SortDescSorted(keys, km);
    var r := RankByPoints(keys, points);
    forall i, j | 0 <= i < j < |r| ensures r[i] in points && r[j] in points && points[r[i]] >= points[r[j]] {
      assert r[i] in multiset(keys) && r[j] in multiset(keys);
      assert r[i] in keys && r[j] in keys;
      assert km[r[i]].primary == points[r[i]] as real && km[r[j]].primary == points[r[j]] as real;
      assert Ranking.AtLeast(km[r[i]], km[r[j]]);
    }
  }

  /** The standings of one round robin and the next unread draw. */
  datatype Standing = Standing(order: seq<Team>, pos: nat)

  /** Lines 98-116 (and 139-157): play every fixture of `teams`, then rank
      the teams (each once, in first-occurrence order) by `(points, nrr)`. */
  function PlayGroup(teams: seq<Team>, cache: Cache, draws: Draws, pos: nat): (res: Result<Standing>)
    ensures res.Ok? <==> forall p <- Fixtures(teams) :: p in cache
    ensures res.Ok? ==> multiset(res.value.order) == multiset(Distinct(teams))
    ensures res.Ok? ==> forall t <- res.value.order :: t in teams
    ensures res.Ok? ==> res.value.pos == pos + 2 * |Fixtures(teams)|
  {
    var r :- PlayFixtures(Fixtures(teams), StartRound(teams, pos), cache, draws);
    var order := RankTable(Distinct(teams), r.points, r.nrr);
    assert forall t <- order :: t in multiset(Distinct(teams));
    Ok(Standing(order, r.pos))
  }

  /** After a round robin the points total is 2 per fixture, k(k-1) for k
      distinct teams, and the nrr values sum to 0. */
  lemma RoundRobinConserves(teams: seq<Team>, cache: Cache, draws: Draws, pos: nat)
    ensures var res := PlayFixtures(Fixtures(teams), StartRound(teams, pos), cache, draws);
      res.Ok? ==>
        && SumInt(Distinct(teams), res.value.points) == 2 * |Fixtures(teams)|
        && SumReal(Distinct(teams), res.value.nrr) == 0.0
        && (IsDistinct(teams) ==> SumInt(teams, res.value.points) == |teams| * (|teams| - 1))
  {
    var keys := Distinct(teams);
    var r0 := StartRound(teams, pos);
    SumIntZero(keys, r0.points);
    SumRealZero(keys, r0.nrr);
    FixturesConserve(Fixtures(teams), r0, cache, draws, keys);
    FixturesCount(teams);
  }

  /** One iteration of the fixture loop: updates of the `points` and `nrr`
      dicts for the fixture (a, b). */
  method PlayOne(points: map<Team, int>, nrr: map<Team, real>, pos: nat, a: Team, b: Team, cache: Cache, draws: Draws)
    returns (res: Result<Round>)
    requires a in points && b in points && a in nrr && b in nrr
    ensures res == PlayMatch(Round(points, nrr, pos), a, b, cache, draws)
  {
    if (a, b) !in cache {
      return Err(KeyError);
    }
    var pA := cache[(a, b)];
    var winner := if draws(pos) < pA then a else b;
    var points' := points[winner := points[winner] + 2];
    var nrr' := nrr;
    if winner == a {
      var m := MarginBonus(pA, draws(pos + 1));
      nrr' := nrr'[a := nrr'[a] + m];
      nrr' := nrr'[b := nrr'[b] - m];
    } else {
      var m := MarginBonus(1.0 - pA, draws(pos + 1));
      nrr' := nrr'[b := nrr'[b] + m];
      nrr' := nrr'[a := nrr'[a] - m];
    }
    res := Ok(Round(points', nrr', pos + 2));
  }

  /** One pass of the fixture loop: fixture `i` is played, and either its
      error ends the loop or the rest of the fixtures run from its result. */
  lemma FixturesStep(fixtures: seq<(Team, Team)>, i: nat, r: Round, cache: Cache, draws: Draws)
    requires i < |fixtures| && forall p <- fixtures[i..] :: Covers(r, p.0) && Covers(r, p.1)
    ensures Covers(r, fixtures[i].0) && Covers(r, fixtures[i].1)
    ensures var m := PlayMatch(r, fixtures[i].0, fixtures[i].1, cache, draws);
      && (m.Err? ==> PlayFixtures(fixtures[i..], r, cache, draws) == Err(m.error))
      && (m.Ok? ==> (forall p <- fixtures[i + 1..] :: Covers(m.value, p.0) && Covers(m.value, p.1))
                    && PlayFixtures(fixtures[i..], r, cache, draws) == PlayFixtures(fixtures[i + 1..], m.value, cache, draws))
  {
    assert fixtures[i..][0] == fixtures[i] && fixtures[i..][1..] == fixtures[i + 1..];
    assert forall p <- fixtures[i + 1..] :: p in fixtures[i..];
  }

  /** The round robin as the source runs it: a loop over the fixtures that
      updates the `points` and `nrr` dicts, then `rank_table`. */
  method PlayRoundRobin(teams: seq<Team>, cache: Cache, draws: Draws, pos0: nat) returns (res: Result<Standing>)
    ensures res == PlayGroup(teams, cache, draws, pos0)
  {
    var r := StartRound(teams, pos0);
    var fixtures := Fixtures(teams);
    assert fixtures[0..] == fixtures;
    var i := 0;
    while i < |fixtures|
      invariant 0 <= i <= |fixtures|
      invariant forall t <- teams :: Covers(r, t)
      invariant PlayFixtures(fixtures, StartRound(teams, pos0), cache, draws)
        == PlayFixtures(fixtures[i..], r, cache, draws)
    {
      var a, b := fixtures[i].0, fixtures[i].1;
      FixturesStep(fixtures, i, r, cache, draws);
      var step := PlayOne(r.points, r.nrr, r.pos, a, b, cache, draws);
      if step.Err? {
        return Err(step.error);
      }
      r := step.value;
      i := i + 1;
    }
    assert PlayFixtures(fixtures[i..], r, cache, draws) == Ok(r);
    res := Ok(Standing(RankTable(Distinct(teams), r.points, r.nrr), r.pos));
  }
}
