/** The imperative body of `simulate_tournament`: the loops over groups,
    Super 8 groups, semifinals, trials and result rows that fill the
    standings dicts, extend `qualifiers`, append to `sf_pairs`,
    `sf_winners` and `results`, and increment the counter dicts. Each loop
    is proved to compute the matching function of `Bracket` or
    `Simulate`. */
module Tournament {
  import opened Errors
  import opened Seqs
  import opened RoundRobin
  import opened Bracket
  import opened Simulate
  import Slots
  import Ranking
  import ProbCache

  /** A stage's result with the tables of the groups played so far in
      front; a later table of the same name wins, as in a dict. */
  function After(positions: Slots.Positions, rest: Result<StageResult>): Result<StageResult> {
    if rest.Err? then rest else Ok(StageResult(positions + rest.value.positions, rest.value.pos))
  }

  /** `rest` with one more table assigned in front of it. */
  function Assign(name: string, order: seq<Team>, rest: Result<StageResult>): Result<StageResult> {
    if rest.Err? then Err(rest.error) else Ok(StageResult(map[name := order] + rest.value.positions, rest.value.pos))
  }

  lemma AfterAssign(positions: Slots.Positions, name: string, order: seq<Team>, rest: Result<StageResult>)
    ensures After(positions, Assign(name, order, rest)) == After(positions[name := order], rest)
  {
    if rest.Ok? {
      var r := rest.value.positions;
      assert positions + (map[name := order] + r) == positions[name := order] + r;
    }
  }

  lemma AfterEmpty(rest: Result<StageResult>)
    ensures After(map[], rest) == rest
  {
    if rest.Ok? {
      assert map[] + rest.value.positions == rest.value.positions;
    }
  }

  /** Lines 95-116: for each group, a round robin, then
      `group_positions[group_name] = rank_table(points, nrr)`. */
  method RunGroupStage(groups: seq<(string, seq<Team>)>, cache: Cache, draws: Draws, pos0: nat)
    returns (res: Result<StageResult>)
    ensures res == GroupStage(groups, cache, draws, pos0)
  {
    var positions: Slots.Positions := map[];
    var pos := pos0;
    AfterEmpty(GroupStage(groups, cache, draws, pos0));
    assert groups[0..] == groups;
    var i := 0;
    while i < |groups|
      invariant 0 <= i <= |groups|
      invariant GroupStage(groups, cache, draws, pos0) == After(positions, GroupStage(groups[i..], cache, draws, pos))
    {
      var name, teams := groups[i].0, groups[i].1;
      var st := PlayRoundRobin(teams, cache, draws, pos);
      GroupStep(groups, i, cache, draws, pos, positions);
      if st.Err? {
        return Err(st.error);
      }
      var order := st.value.order;
      positions := positions[name := order];
      pos := st.value.pos;
      i := i + 1;
    }
    assert After(positions, Ok(StageResult(map[], pos))) == Ok(StageResult(positions, pos)) by {
      assert positions + map[] == positions;
    }
    res := Ok(StageResult(positions, pos));
  }

  /** One pass of the group loop. */
  lemma GroupStep(groups: seq<(string, seq<Team>)>, i: nat, cache: Cache, draws: Draws, pos: nat, positions: Slots.Positions)
    requires i < |groups|
    ensures var st := PlayGroup(groups[i].1, cache, draws, pos);
      var here := After(positions, GroupStage(groups[i..], cache, draws, pos));
      && (st.Err? ==> here == Err(st.error))
      && (st.Ok? ==> here == After(positions[groups[i].0 := st.value.order], GroupStage(groups[i + 1..], cache, draws, st.value.pos)))
  {
    assert groups[i..][0] == groups[i] && groups[i..][1..] == groups[i + 1..];
    var st := PlayGroup(groups[i].1, cache, draws, pos);
    if st.Ok? {
      assert GroupStage(groups[i..], cache, draws, pos)
        == Assign(groups[i].0, st.value.order, GroupStage(groups[i + 1..], cache, draws, st.value.pos));
      AfterAssign(positions, groups[i].0, st.value.order, GroupStage(groups[i + 1..], cache, draws, st.value.pos));
    }
  }

  /** Lines 119-121: `qualifiers.extend(ordered[:2])` per group. */
  method CollectQualifiers(names: seq<string>, positions: Slots.Positions) returns (qs: seq<Team>)
    requires forall n <- names :: n in positions
    ensures qs == Qualifiers(names, positions)
  {
    qs := [];
    assert names[0..] == names;
    var i := 0;
    while i < |names|
      invariant 0 <= i <= |names|
      invariant Qualifiers(names, positions) == qs + Qualifiers(names[i..], positions)
    {
      var ordered := positions[names[i]];
      assert names[i..][0] == names[i] && names[i..][1..] == names[i + 1..];
      qs := qs + ordered[..Min(2, |ordered|)];
      i := i + 1;
    }
  }

  /** Lines 123-124 (and 174-175, 180-181, 184): `counts[t] += 1` for each
      `t` in turn. */
  method BumpEach(c: Counter, ts: seq<Team>) returns (r: Counter)
    requires forall t <- ts :: t in c
    ensures r == Bump(c, ts)
  {
    r := c;
    var i := 0;
    while i < |ts|
      invariant 0 <= i <= |ts|
      invariant r == Bump(c, ts[..i])
    {
      assert ts[..i + 1] == ts[..i] + [ts[i]];
      BumpAppend(c, ts[..i], ts[i]);
      BumpKeys(c, ts[..i]);
      r := r[ts[i] := r[ts[i]] + 1];
      i := i + 1;
    }
    assert ts[..i] == ts;
  }

  lemma BumpKeys(c: Counter, ts: seq<Team>)
    requires forall t <- ts :: t in c
    ensures Bump(c, ts).Keys == c.Keys
  {
  }

  /** Lines 137-157: for each Super 8 group, resolve its slots against the
      group tables, play it, and store its ranked table. */
  method RunSuper8Stage(s8: seq<(string, seq<string>)>, groupPositions: Slots.Positions, cache: Cache, draws: Draws, pos0: nat)
    returns (res: Result<StageResult>)
    ensures res == Super8Stage(s8, groupPositions, cache, draws, pos0)
  {
    var positions: Slots.Positions := map[];
    var pos := pos0;
    AfterEmpty(Super8Stage(s8, groupPositions, cache, draws, pos0));
    assert s8[0..] == s8;
    var i := 0;
    while i < |s8|
      invariant 0 <= i <= |s8|
      invariant Super8Stage(s8, groupPositions, cache, draws, pos0)
        == After(positions, Super8Stage(s8[i..], groupPositions, cache, draws, pos))
    {
      var (name, slots) := s8[i];
      var st := PlaySuper8Group(slots, groupPositions, cache, draws, pos);
      Super8Step(s8, i, groupPositions, cache, draws, pos, positions);
      if st.Err? {
        return Err(st.error);
      }
      var order := st.value.order;
      positions := positions[name := order];
      pos := st.value.pos;
      i := i + 1;
    }
    assert After(positions, Ok(StageResult(map[], pos))) == Ok(StageResult(positions, pos)) by {
      assert positions + map[] == positions;
    }
    res := Ok(StageResult(positions, pos));
  }

  /** One pass of the Super 8 loop. */
  lemma Super8Step(s8: seq<(string, seq<string>)>, i: nat, groupPositions: Slots.Positions, cache: Cache, draws: Draws, pos: nat,
                   positions: Slots.Positions)
    requires i < |s8|
    ensures var st := Super8Group(s8[i].1, groupPositions, cache, draws, pos);
      var here := After(positions, Super8Stage(s8[i..], groupPositions, cache, draws, pos));
      && (st.Err? ==> here == Err(st.error))
      && (st.Ok? ==> here == After(positions[s8[i].0 := st.value.order], Super8Stage(s8[i + 1..], groupPositions, cache, draws, st.value.pos)))
  {
    assert s8[i..][0] == s8[i] && s8[i..][1..] == s8[i + 1..];
    var st := Super8Group(s8[i].1, groupPositions, cache, draws, pos);
    if st.Ok? {
      assert Super8Stage(s8[i..], groupPositions, cache, draws, pos)
        == Assign(s8[i].0, st.value.order, Super8Stage(s8[i + 1..], groupPositions, cache, draws, st.value.pos));
      AfterAssign(positions, s8[i].0, st.value.order, Super8Stage(s8[i + 1..], groupPositions, cache, draws, st.value.pos));
    }
  }

  /** Lines 138-155: one Super 8 group's slots resolved and played. */
  method PlaySuper8Group(slots: seq<string>, groupPositions: Slots.Positions, cache: Cache, draws: Draws, pos: nat)
    returns (res: Result<Standing>)
    ensures res == Super8Group(slots, groupPositions, cache, draws, pos)
  {
    var teams := ResolveAll(slots, groupPositions);
    if teams.Err? {
      return Err(teams.error);
    }
    res := PlayRoundRobin(teams.value, cache, draws, pos);
  }

  /** Line 170: `(resolve_super8_slot(sf[0]), resolve_super8_slot(sf[1]))`. */
  method ResolvePair(sf: seq<string>, positions: Slots.Positions) returns (res: Result<(Team, Team)>)
    ensures res == SemiPair(sf, positions)
  {
    if |sf| < 1 {
      return Err(IndexError);
    }
    var a := Slots.ResolveSuper8Slot(sf[0], positions);
    if a.Err? {
      return Err(a.error);
    }
    if |sf| < 2 {
      return Err(IndexError);
    }
    var b := Slots.ResolveSuper8Slot(sf[1], positions);
    if b.Err? {
      return Err(b.error);
    }
    res := Ok((a.value, b.value));
  }

  /** A list result with `acc` in front. */
  function Prefix<T>(acc: seq<T>, rest: Result<seq<T>>): Result<seq<T>> {
    if rest.Err? then Err(rest.error) else Ok(acc + rest.value)
  }

  /** Lines 168-171: `sf_pairs.append((resolve_super8_slot(sf[0]),
      resolve_super8_slot(sf[1])))` per semifinal. */
  method ResolveSemiPairs(sfs: seq<seq<string>>, positions: Slots.Positions) returns (res: Result<seq<(Team, Team)>>)
    ensures res == SemiPairs(sfs, positions)
  {
    var pairs: seq<(Team, Team)> := [];
    assert sfs[0..] == sfs;
    PrefixEmpty(SemiPairs(sfs, positions));
    var i := 0;
    while i < |sfs|
      invariant 0 <= i <= |sfs|
      invariant SemiPairs(sfs, positions) == Prefix(pairs, SemiPairs(sfs[i..], positions))
    {
      var p := ResolvePair(sfs[i], positions);
      PairsStep(sfs, i, positions, pairs);
      if p.Err? {
        return Err(p.error);
      }
      pairs := pairs + [p.value];
      i := i + 1;
    }
    assert pairs + [] == pairs;
    res := Ok(pairs);
  }

  lemma PairsStep(sfs: seq<seq<string>>, i: nat, positions: Slots.Positions, pairs: seq<(Team, Team)>)
    requires i < |sfs|
    ensures var p := SemiPair(sfs[i], positions);
      var here := Prefix(pairs, SemiPairs(sfs[i..], positions));
      && (p.Err? ==> here == Err(p.error))
      && (p.Ok? ==> here == Prefix(pairs + [p.value], SemiPairs(sfs[i + 1..], positions)))
  {
    assert sfs[i..][0] == sfs[i] && sfs[i..][1..] == sfs[i + 1..];
    var p := SemiPair(sfs[i], positions);
    if p.Ok? {
      PrefixStep(pairs, p.value, SemiPairs(sfs[i + 1..], positions));
    }
  }

  lemma PrefixNil<T>(acc: seq<T>)
    ensures Prefix(acc, Ok([])) == Ok(acc)
  {
    assert acc + [] == acc;
  }

  lemma PrefixEmpty<T>(rest: Result<seq<T>>)
    ensures Prefix([], rest) == rest
  {
    if rest.Ok? {
      assert [] + rest.value == rest.value;
    }
  }

  lemma PrefixStep<T>(acc: seq<T>, x: T, rest: Result<seq<T>>)
    ensures Prefix(acc, if rest.Err? then Err(rest.error) else Ok([x] + rest.value)) == Prefix(acc + [x], rest)
  {
    if rest.Ok? {
      assert acc + ([x] + rest.value) == (acc + [x]) + rest.value;
    }
  }

  /** The semifinalists of one more pair come last. */
  lemma {:induction false} SemifinalistsAppend(pairs: seq<(Team, Team)>, p: (Team, Team))
    ensures Semifinalists(pairs + [p]) == Semifinalists(pairs) + [p.0, p.1]
  {
    if pairs == [] {
      assert [p][1..] == [];
    } else {
      assert (pairs + [p])[0] == pairs[0] && (pairs + [p])[1..] == pairs[1..] + [p];
      SemifinalistsAppend(pairs[1..], p);
    }
  }

  /** Lines 173-177, the counting half of the semifinal loop: both teams of
      every pair gain one semifinal place, pair by pair. The source does
      this in the same loop that plays the matches; an error in a match
      discards every counter, so the order of the two halves is not
      observable. */
  method CountSemifinalists(pairs: seq<(Team, Team)>, semi: Counter) returns (semi': Counter)
    requires forall p <- pairs :: p.0 in semi && p.1 in semi
    ensures forall t <- Semifinalists(pairs) :: t in semi
    ensures semi' == Bump(semi, Semifinalists(pairs))
  {
    semi' := semi;
    assert pairs[..0] == [];
    var i := 0;
    while i < |pairs|
      invariant 0 <= i <= |pairs|
      invariant (forall t <- Semifinalists(pairs[..i]) :: t in semi) && semi' == Bump(semi, Semifinalists(pairs[..i]))
    {
      PairBumpStep(pairs, i, semi);
      BumpKeys(semi, Semifinalists(pairs[..i]));
      semi' := CountPair(semi', pairs[i].0, pairs[i].1);
      i := i + 1;
    }
    assert pairs[..i] == pairs;
  }

  /** Lines 173-177, the playing half: one match per pair on consecutive
      draws, the first missing cache entry aborting the loop. */
  method PlaySemifinals(pairs: seq<(Team, Team)>, cache: Cache, draws: Draws, pos: nat)
    returns (winners: Result<seq<Team>>)
    ensures winners == PlaySemis(pairs, cache, draws, pos)
  {
    var won: seq<Team> := [];
    assert pairs[0..] == pairs;
    PrefixEmpty(PlaySemis(pairs, cache, draws, pos));
    var i, at := 0, pos;
    while i < |pairs|
      invariant 0 <= i <= |pairs|
      invariant PlaySemis(pairs, cache, draws, pos) == Prefix(won, PlaySemis(pairs[i..], cache, draws, at))
    {
      var w := SimulateMatchCached(pairs[i].0, pairs[i].1, cache, draws(at));
      SemisStep(pairs, i, cache, draws, at, won);
      if w.Err? {
        return Err(w.error);
      }
      won := won + [w.value];
      i, at := i + 1, at + 1;
    }
    assert pairs[i..] == [];
    PrefixNil(won);
    winners := Ok(won);
  }

  /** `semi_counts[a] += 1; semi_counts[b] += 1`. */
  method CountPair(c: Counter, a: Team, b: Team) returns (r: Counter)
    requires a in c && b in c
    ensures r == Bump(c, [a, b])
  {
    r := c[a := c[a] + 1];
    assert [a, b][1..] == [b] && [b][1..] == [];
    assert Bump(c, [a, b]) == Bump(r, [b]);
    r := r[b := r[b] + 1];
    assert Bump(c, [a, b]) == Bump(r, []);
  }

  /** Counting the places of pair `i` is counting two more teams. */
  lemma PairBumpStep(pairs: seq<(Team, Team)>, i: nat, semi: Counter)
    requires i < |pairs| && forall p <- pairs :: p.0 in semi && p.1 in semi
    ensures var ts := Semifinalists(pairs[..i]);
      && (forall t <- ts :: t in semi)
      && (forall t <- Semifinalists(pairs[..i + 1]) :: t in semi)
      && Bump(semi, Semifinalists(pairs[..i + 1])) == Bump(Bump(semi, ts), [pairs[i].0, pairs[i].1])
  {
    assert forall p <- pairs[..i] :: p in pairs;
    SemifinalistsWithin(pairs[..i], t => t in semi);
    SemifinalistsAppend(pairs[..i], pairs[i]);
    assert pairs[..i + 1] == pairs[..i] + [pairs[i]];
    BumpConcat(semi, Semifinalists(pairs[..i]), [pairs[i].0, pairs[i].1]);
  }

  /** One pass of the semifinal loop. */
  lemma SemisStep(pairs: seq<(Team, Team)>, i: nat, cache: Cache, draws: Draws, at: nat, won: seq<Team>)
    requires i < |pairs|
    ensures var w := SimulateMatchCached(pairs[i].0, pairs[i].1, cache, draws(at));
      var here := Prefix(won, PlaySemis(pairs[i..], cache, draws, at));
      && (w.Err? ==> here == Err(w.error))
      && (w.Ok? ==> here == Prefix(won + [w.value], PlaySemis(pairs[i + 1..], cache, draws, at + 1)))
  {
    assert pairs[i..][0] == pairs[i] && pairs[i..][1..] == pairs[i + 1..];
    var w := SimulateMatchCached(pairs[i].0, pairs[i].1, cache, draws(at));
    if w.Ok? {
      PrefixStep(won, w.value, PlaySemis(pairs[i + 1..], cache, draws, at + 1));
    }
  }

  /** Lines 163-184: resolve the semifinal slots, play the semifinals
      (one draw each), then the final between the first two winners on the
      next draw (an IndexError with fewer than two winners). */
  method PlayKnockout(sfs: seq<seq<string>>, positions: Slots.Positions, cache: Cache, draws: Draws, pos: nat)
    returns (res: Result<Finals>)
    ensures res == Knockout(sfs, positions, cache, draws, pos)
  {
    var pairs := ResolveSemiPairs(sfs, positions);
    if pairs.Err? {
      return Err(pairs.error);
    }
    KnockoutPlayoffs(sfs, positions, cache, draws, pos, pairs.value);
    var winners := PlaySemifinals(pairs.value, cache, draws, pos);
    if winners.Err? {
      return Err(winners.error);
    }
    PlayoffsFinal(pairs.value, cache, draws, pos, winners.value);
    if |winners.value| < 2 {
      return Err(IndexError);
    }
    var fpos := pos + |pairs.value|;
    var champ := PlayFinal(winners.value[0], winners.value[1], cache, draws, fpos);
    if champ.Err? {
      return Err(champ.error);
    }
    FinalOk(pairs.value, winners.value, cache, draws, fpos, champ.value);
    res := Ok(Finals(pairs.value, winners.value[0], winners.value[1], champ.value, fpos + 1));
  }

  /** Lines 123-124, 169 and 180-184: the counter increments of one
      trial. */
  method RecordTrial(c: Counts, o: Outcome, teams: seq<Team>) returns (r: Counts)
    requires Tracks(c, teams) && OutcomeWithin(o, teams)
    ensures r == Record(c, o, teams)
  {
    var super8 := BumpEach(c.super8, o.qualifiers);
    SemifinalistsPairs(o.finals.semis, c.semi);
    var semi := CountSemifinalists(o.finals.semis, c.semi);
    var final := CountPair(c.final, o.finals.finalA, o.finals.finalB);
    var win := CountOne(c.win, o.finals.champion);
    r := Counts(win, final, semi, super8);
  }

  /** A counter for every semifinalist is one for both teams of every pair. */
  lemma {:induction false} SemifinalistsPairs(pairs: seq<(Team, Team)>, semi: Counter)
    requires forall t <- Semifinalists(pairs) :: t in semi
    ensures forall p <- pairs :: p.0 in semi && p.1 in semi
  {
    if pairs != [] {
      var ts := Semifinalists(pairs);
      assert ts[0] == pairs[0].0 && ts[1] == pairs[0].1;
      assert forall t <- Semifinalists(pairs[1..]) :: t in ts;
      SemifinalistsPairs(pairs[1..], semi);
      assert forall p <- pairs :: p == pairs[0] || p in pairs[1..];
    }
  }

  /** `counts[t] += 1` */
  method CountOne(c: Counter, t: Team) returns (r: Counter)
    requires t in c
    ensures r == Bump(c, [t])
  {
    r := c[t := c[t] + 1];
    assert [t][1..] == [];
    assert Bump(c, [t]) == Bump(r, []);
  }

  /** The counters after one more trial and the next unread draw. */
  datatype Tally = Tally(counts: Counts, pos: nat)

  /** One trial from draw `pos`, recorded in `c`. */
  function TrialStep(config: Config, cache: Cache, draws: Draws, pos: nat, c: Counts): (res: Result<Tally>)
    requires Tracks(c, AllTeams(config))
    ensures res.Ok? <==> Trial(config, cache, draws, pos).Ok?
    ensures res.Ok? ==> Tracks(res.value.counts, AllTeams(config)) && res.value.pos > pos
  {
    var o :- Trial(config, cache, draws, pos);
    TrialCountable(config, cache, draws, pos);
    Ok(Tally(Record(c, o, AllTeams(config)), o.finals.pos))
  }

  /** Lines 91-184, the body of the trial loop: the group stage, the Super 8
      qualifiers and their count, the Super 8 stage and the knockouts,
      reading the draws in that order. */
  method RunTrial(config: Config, cache: Cache, draws: Draws, pos: nat, c: Counts) returns (res: Result<Tally>)
    requires Tracks(c, AllTeams(config))
    ensures res == TrialStep(config, cache, draws, pos, c)
  {
    var all := AllTeams(config);
    var gs := RunGroupStage(config.groups, cache, draws, pos);
    if gs.Err? {
      return Err(gs.error);
    }
    var positions := gs.value.positions;
    var names := Distinct(Names(config.groups));
    assert forall n <- names :: n in positions;
    var quals := CollectQualifiers(names, positions);
    var s8 := RunSuper8Stage(config.super8, positions, cache, draws, gs.value.pos);
    if s8.Err? {
      return Err(s8.error);
    }
    var ko := PlayKnockout(config.semiFinals, s8.value.positions, cache, draws, s8.value.pos);
    if ko.Err? {
      return Err(ko.error);
    }
    TrialCountable(config, cache, draws, pos);
    var o := Outcome(quals, ko.value);
    assert Trial(config, cache, draws, pos) == Ok(o);
    var counts := RecordTrial(c, o, all);
    res := Ok(Tally(counts, ko.value.pos));
  }

  /** One more trial of the loop: `k` trials from `pos` are one trial, then
      `k - 1` trials from where it left the draws and the counters. */
  lemma RunFromStep(k: nat, config: Config, cache: Cache, draws: Draws, pos: nat, c: Counts)
    requires k > 0 && Tracks(c, AllTeams(config))
    ensures var st := TrialStep(config, cache, draws, pos, c);
      RunFrom(k, config, cache, draws, pos, c)
        == if st.Err? then Err(st.error)
           else RunFrom(k - 1, config, cache, draws, st.value.pos, st.value.counts)
  {
    var all := AllTeams(config);
    var t := Trial(config, cache, draws, pos);
    if t.Ok? {
      var o := t.value;
      TrialCountable(config, cache, draws, pos);
      var rest := Trials(k - 1, config, cache, draws, o.finals.pos);
      if rest.Ok? {
        var outs := [o] + rest.value;
        assert Trials(k, config, cache, draws, pos) == Ok(outs);
        assert outs[0] == o && outs[1..] == rest.value;
      }
    }
  }

  /** The same number of trials left, however it is written. */
  lemma RunFromSame(a: nat, b: nat, config: Config, cache: Cache, draws: Draws, pos: nat, c: Counts)
    requires a == b && Tracks(c, AllTeams(config))
    ensures RunFrom(a, config, cache, draws, pos, c) == RunFrom(b, config, cache, draws, pos, c)
  {
  }

  /** Lines 187-197: one row per team in `all_teams` order, then the rows
      sorted by title percentage, best first. */
  method BuildResults(teams: seq<Team>, c: Counts, n: int) returns (res: Result<seq<Row>>)
    requires Tracks(c, teams)
    ensures res == Results(teams, c, n)
  {
    if teams == [] {
      return Ok([]);
    }
    if n == 0 {
      return Err(ZeroDivisionError);
    }
    var rows: seq<Row> := [];
    var i := 0;
    while i < |teams|
      invariant 0 <= i <= |teams| && Tracks(c, teams[..i])
      invariant rows == RowsOf(teams[..i], c, n)
    {
      assert teams[..i + 1] == teams[..i] + [teams[i]];
      assert forall t <- teams[..i + 1] :: t in teams;
      RowsOfAppend(teams[..i], teams[i], c, n);
      rows := rows + [RowOf(teams[i], c, n)];
      i := i + 1;
    }
    assert teams[..i] == teams;
    SortRowsIsResults(teams, c, n);
    res := Ok(Ranking.SortDesc(rows, RowKeys(rows)));
  }

  /** What one trial leaves of a run of `left` trials. */
  predicate Advanced(left: nat, left': nat, config: Config, cache: Cache, draws: Draws, pos: nat, c: Counts,
                     st: Result<Tally>)
    requires Tracks(c, AllTeams(config))
  {
    && (st.Err? ==> RunFrom(left, config, cache, draws, pos, c) == Err(st.error))
    && (st.Ok? ==> Tracks(st.value.counts, AllTeams(config))
                   && RunFrom(left, config, cache, draws, pos, c)
                      == RunFrom(left', config, cache, draws, st.value.pos, st.value.counts))
  }

  lemma AdvanceFacts(left: nat, left': nat, config: Config, cache: Cache, draws: Draws, pos: nat, c: Counts,
                     st: Result<Tally>)
    requires left == left' + 1 && Tracks(c, AllTeams(config))
    requires st == TrialStep(config, cache, draws, pos, c)
    ensures Advanced(left, left', config, cache, draws, pos, c, st)
  {
    RunFromSame(left, left' + 1, config, cache, draws, pos, c);
    RunFromStep(left' + 1, config, cache, draws, pos, c);
  }

  /** One pass of the trial loop, with what it leaves of the run. */
  method Advance(left: nat, config: Config, cache: Cache, draws: Draws, pos: nat, c: Counts)
    returns (st: Result<Tally>, left': nat)
    requires left > 0 && Tracks(c, AllTeams(config))
    ensures left' == left - 1 && Advanced(left, left', config, cache, draws, pos, c, st)
  {
    st := RunTrial(config, cache, draws, pos, c);
    left' := left - 1;
    AdvanceFacts(left, left', config, cache, draws, pos, c, st);
  }

  /** Lines 91-184: `n` trials into the counters `c0`, reading the draws
      from 0; an error in any trial ends the run. */
  method RunTrials(n: nat, config: Config, cache: Cache, draws: Draws, c0: Counts) returns (res: Result<Counts>)
    requires Tracks(c0, AllTeams(config))
    ensures res == RunFrom(n, config, cache, draws, 0, c0)
  {
    var c := c0;
    var pos: nat := 0;
    var left: nat := n;
    while left > 0
      invariant Tracks(c, AllTeams(config))
      invariant RunFrom(n, config, cache, draws, 0, c0) == RunFrom(left, config, cache, draws, pos, c)
    {
      var st, next := Advance(left, config, cache, draws, pos, c);
      if st.Err? {
        return Err(st.error);
      }
      c, pos, left := st.value.counts, st.value.pos, next;
    }
    RunFromNone(config, cache, draws, pos, c);
    res := Ok(c);
  }

  lemma RunFromNone(config: Config, cache: Cache, draws: Draws, pos: nat, c: Counts)
    requires Tracks(c, AllTeams(config))
    ensures RunFrom(0, config, cache, draws, pos, c) == Ok(c)
  {
    assert Trials(0, config, cache, draws, pos) == Ok([]);
  }

  /** `simulate_tournament`: build the probability cache for all teams, run
      `n_sims` trials into zero counters, reading the draws from 0, then the
      result rows. */
  method SimulateTournament(config: Config, nSims: int, played: Team -> int, pElo: (Team, Team) -> real,
                            pMl: (Team, Team) -> real, draws: Draws)
    returns (res: Result<seq<Row>>)
    ensures res == Simulation(config, nSims, ProbCache.CacheSpec(AllTeams(config), played, pElo, pMl), draws)
  {
    var all := AllTeams(config);
    var cache := ProbCache.BuildProbCache(all, played, pElo, pMl);
    var counts := RunTrials(if nSims < 0 then 0 else nSims, config, cache, draws, ZeroCounts(all));
    if counts.Err? {
      return Err(counts.error);
    }
    res := BuildResults(all, counts.value, nSims);
  }
}
