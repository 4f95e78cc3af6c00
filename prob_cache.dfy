/** `build_prob_cache`: the win probability of every ordered pair of teams,
    a blend of an Elo-based and a model-based probability weighted by how
    much history the weaker-history team has, clamped away from 0 and 1.
    The two probability sources and the per-team match counts are inputs. */
module ProbCache {
  import opened Reals

  type Team = string

  const MIN_MATCHES_START: int := 10
  const MIN_MATCHES_FULL: int := 50
  const PROB_CLAMP_LOW: real := 0.05
  const PROB_CLAMP_HIGH: real := 0.95

  function Min(x: int, y: int): int {
    if x <= y then x else y
  }

  /** `ml_weight`: no model influence up to 10 matches, full influence from
      50, linear in between. */
  function MlWeight(n: int): (w: real)
    ensures 0.0 <= w <= 1.0
    ensures n <= MIN_MATCHES_START ==> w == 0.0
    ensures n >= MIN_MATCHES_FULL ==> w == 1.0
    ensures MIN_MATCHES_START < n < MIN_MATCHES_FULL ==>
      40.0 * w == (n - MIN_MATCHES_START) as real
  {
    if n <= MIN_MATCHES_START then 0.0
    else if n >= MIN_MATCHES_FULL then 1.0
    else (n - MIN_MATCHES_START) as real / (MIN_MATCHES_FULL - MIN_MATCHES_START) as real
  }

  /** More history never lowers the model's weight. */
  lemma MlWeightMonotone(m: int, n: int)
    requires m <= n
    ensures MlWeight(m) <= MlWeight(n)
  {
  }

  /** `clamp_prob`: `max(0.05, min(0.95, p))`. */
  function ClampProb(p: real): (r: real)
    ensures PROB_CLAMP_LOW <= r <= PROB_CLAMP_HIGH
    ensures PROB_CLAMP_LOW <= p <= PROB_CLAMP_HIGH ==> r == p
    ensures p < PROB_CLAMP_LOW ==> r == PROB_CLAMP_LOW
    ensures p > PROB_CLAMP_HIGH ==> r == PROB_CLAMP_HIGH
  {
    var upper := if PROB_CLAMP_HIGH <= p then PROB_CLAMP_HIGH else p;
    if PROB_CLAMP_LOW >= upper then PROB_CLAMP_LOW else upper
  }

  lemma ClampIdempotent(p: real)
    ensures ClampProb(ClampProb(p)) == ClampProb(p)
  {
  }

  /** Line 77: `w * p_ml + (1 - w) * p_elo`. */
  function Blend(w: real, pMl: real, pElo: real): (p: real)
    ensures w == 0.0 ==> p == pElo
    ensures w == 1.0 ==> p == pMl
  {
    w * pMl + (1.0 - w) * pElo
  }

  /** For a weight in [0, 1] the blend lies between its two inputs. */
  lemma BlendBetween(w: real, pMl: real, pElo: real)
    requires 0.0 <= w <= 1.0
    ensures var p := Blend(w, pMl, pElo);
      (pMl <= p <= pElo) || (pElo <= p <= pMl)
  {
    var p := Blend(w, pMl, pElo);
    assert p - pElo == w * (pMl - pElo);
    assert pMl - p == (1.0 - w) * (pMl - pElo);
    if pMl >= pElo {
      MulNonNegative(w, pMl - pElo);
      MulNonNegative(1.0 - w, pMl - pElo);
    } else {
      MulNonNegative(w, pElo - pMl);
      MulNonNegative(1.0 - w, pElo - pMl);
      assert w * (pElo - pMl) == -(w * (pMl - pElo));
      assert (1.0 - w) * (pElo - pMl) == -((1.0 - w) * (pMl - pElo));
    }
  }

  /** Line 75: the weight of a pairing follows the team with less history. */
  function PairWeight(played: Team -> int, a: Team, b: Team): (w: real)
    ensures 0.0 <= w <= 1.0
  {
    MlWeight(Min(played(a), played(b)))
  }

  lemma PairWeightSymmetric(played: Team -> int, a: Team, b: Team)
    ensures PairWeight(played, a, b) == PairWeight(played, b, a)
  {
  }

  /** The value stored for the ordered pair (a, b). */
  function Entry(played: Team -> int, pElo: (Team, Team) -> real, pMl: (Team, Team) -> real, a: Team, b: Team): (p: real)
    ensures PROB_CLAMP_LOW <= p <= PROB_CLAMP_HIGH
  {
    ClampProb(Blend(PairWeight(played, a, b), pMl(a, b), pElo(a, b)))
  }

  /** The pair is `(teams[i], teams[j])` for some positions `i != j`, the
      first one below `i`, as `permutations(teams, 2)` enumerates them. */
  ghost predicate PairBefore(teams: seq<Team>, bound: int, p: (Team, Team)) {
    exists i, j :: 0 <= i < bound && i < |teams| && 0 <= j < |teams| && i != j && p == (teams[i], teams[j])
  }

  /** The cache `build_prob_cache` returns: a key for every ordered pair of
      `teams` at distinct positions, holding that pair's entry. */
  ghost predicate IsCache(cache: map<(Team, Team), real>, teams: seq<Team>, played: Team -> int,
                          pElo: (Team, Team) -> real, pMl: (Team, Team) -> real)
  {
    && (forall p :: p in cache <==> PairBefore(teams, |teams|, p))
    && (forall p <- cache.Keys :: cache[p] == Entry(played, pElo, pMl, p.0, p.1))
  }

  /** For distinct teams the keys are exactly the pairs of two different
      listed teams, and every value lies in [0.05, 0.95]. */
  lemma CacheKeys(cache: map<(Team, Team), real>, teams: seq<Team>, played: Team -> int,
                  pElo: (Team, Team) -> real, pMl: (Team, Team) -> real)
    requires IsCache(cache, teams, played, pElo, pMl)
    requires forall i, j :: 0 <= i < j < |teams| ==> teams[i] != teams[j]
    ensures forall a, b :: (a, b) in cache <==> a in teams && b in teams && a != b
    ensures forall p <- cache.Keys :: PROB_CLAMP_LOW <= cache[p] <= PROB_CLAMP_HIGH
  {
    forall a, b ensures (a, b) in cache <==> a in teams && b in teams && a != b {
      if a in teams && b in teams && a != b {
        var i :| 0 <= i < |teams| && teams[i] == a;
        var j :| 0 <= j < |teams| && teams[j] == b;
        assert PairBefore(teams, |teams|, (a, b));
      }
      if (a, b) in cache {
        var i, j :| 0 <= i < |teams| && 0 <= j < |teams| && i != j && (a, b) == (teams[i], teams[j]);
        assert i < j || j < i;
      }
    }
  }

  /** The cache as a map comprehension over the positions of `teams`. */
  function CacheSpec(teams: seq<Team>, played: Team -> int, pElo: (Team, Team) -> real, pMl: (Team, Team) -> real)
    : (cache: map<(Team, Team), real>)
    ensures IsCache(cache, teams, played, pElo, pMl)
  {
    var pairs := set i, j | 0 <= i < |teams| && 0 <= j < |teams| && i != j :: (teams[i], teams[j]);
    map p | p in pairs :: Entry(played, pElo, pMl, p.0, p.1)
  }

  /** Keys and values pin the cache down. */
  lemma IsCacheUnique(c1: map<(Team, Team), real>, c2: map<(Team, Team), real>, teams: seq<Team>,
                      played: Team -> int, pElo: (Team, Team) -> real, pMl: (Team, Team) -> real)
    requires IsCache(c1, teams, played, pElo, pMl) && IsCache(c2, teams, played, pElo, pMl)
    ensures c1 == c2
  {
    assert c1.Keys == c2.Keys;
  }

  /** The pair is `(teams[i], teams[k])` for some `k != i` below `bound`. */
  ghost predicate InRow(teams: seq<Team>, i: int, bound: int, p: (Team, Team))
    requires 0 <= i < |teams|
  {
    exists k :: 0 <= k < bound && k < |teams| && k != i && p == (teams[i], teams[k])
  }

  /** Once row `i` is complete, the keys are the pairs of the first `i + 1`
      rows. */
  lemma RowDone(teams: seq<Team>, i: int, cache: map<(Team, Team), real>)
    requires 0 <= i < |teams|
    requires forall p :: p in cache <==> PairBefore(teams, i, p) || InRow(teams, i, |teams|, p)
    ensures forall p :: p in cache <==> PairBefore(teams, i + 1, p)
  {
    forall p ensures p in cache <==> PairBefore(teams, i + 1, p) {
      if PairBefore(teams, i + 1, p) && !PairBefore(teams, i, p) {
        var i', j' :| 0 <= i' < i + 1 && i' < |teams| && 0 <= j' < |teams| && i' != j' && p == (teams[i'], teams[j']);
        assert i' == i;
        assert InRow(teams, i, |teams|, p);
      }
    }
  }

  /** `build_prob_cache`: the loop over `permutations(teams, 2)` filling the
      cache dict. */
  method BuildProbCache(teams: seq<Team>, played: Team -> int, pElo: (Team, Team) -> real, pMl: (Team, Team) -> real)
    returns (cache: map<(Team, Team), real>)
    ensures IsCache(cache, teams, played, pElo, pMl)
    ensures cache == CacheSpec(teams, played, pElo, pMl)
  {
    cache := map[];
    var i := 0;
    while i < |teams|
      invariant 0 <= i <= |teams|
      invariant forall p :: p in cache <==> PairBefore(teams, i, p)
      invariant forall p <- cache.Keys :: cache[p] == Entry(played, pElo, pMl, p.0, p.1)
    {
      var j := 0;
      while j < |teams|
        invariant 0 <= j <= |teams|
        invariant forall p :: p in cache <==> PairBefore(teams, i, p) || InRow(teams, i, j, p)
        invariant forall p <- cache.Keys :: cache[p] == Entry(played, pElo, pMl, p.0, p.1)
      {
        if j != i {
          var a, b := teams[i], teams[j];
          cache := cache[(a, b) := Entry(played, pElo, pMl, a, b)];
        }
        j := j + 1;
      }
      RowDone(teams, i, cache);
      i := i + 1;
    }
    IsCacheUnique(cache, CacheSpec(teams, played, pElo, pMl), teams, played, pElo, pMl);
  }
}
