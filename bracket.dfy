/** One trial of `simulate_tournament`: group stage, Super 8 qualifiers,
    Super 8 stage, semifinals and final, consuming draws in the order the
    source consumes `random.random()`. */
module Bracket {
  import opened Errors
  import opened Seqs
  import opened RoundRobin
  import Slots

  /** `config["groups"]`, `config["super8"]["groups"]` and
      `config["knockout"]["semi_finals"]`, each dict as its item list. */
  datatype Config = Config(
    groups: seq<(string, seq<Team>)>,
    super8: seq<(string, seq<string>)>,
    semiFinals: seq<seq<string>>)

  /** Every team listed in some group, in listing order. */
  function GroupTeams(groups: seq<(string, seq<Team>)>): (ts: seq<Team>)
    ensures forall k, t :: 0 <= k < |groups| && t in groups[k].1 ==> t in ts
    ensures forall t <- ts :: exists k :: 0 <= k < |groups| && t in groups[k].1
  {
    if groups == [] then []
    else
      var rest := GroupTeams(groups[1..]);
      assert forall k :: 1 <= k < |groups| ==> groups[k] == groups[1..][k - 1];
      groups[0].1 + rest
  }

  /** The names of a dict given as its item list. */
  function Names<V>(items: seq<(string, V)>): (ns: seq<string>)
    ensures |ns| == |items|
    ensures forall k :: 0 <= k < |items| ==> ns[k] == items[k].0
  {
    seq(|items|, k requires 0 <= k < |items| => items[k].0)
  }

  /** Every ranked table of `positions` lists only teams of `teams`. */
  predicate Within(positions: Slots.Positions, teams: seq<Team>) {
    forall g, t :: g in positions && t in positions[g] ==> t in teams
  }

  /** The ranked table of every group, by group name, and the next draw. */
  datatype StageResult = StageResult(positions: Slots.Positions, pos: nat)

  /** Lines 97-116: a round robin per group, in dict order; a later group
      of the same name overwrites an earlier one, as a dict assignment does. */
  function GroupStage(groups: seq<(string, seq<Team>)>, cache: Cache, draws: Draws, pos: nat): (res: Result<StageResult>)
    ensures res.Ok? ==> forall k :: 0 <= k < |groups| ==> groups[k].0 in res.value.positions
    ensures res.Ok? ==> res.value.pos >= pos
    decreases |groups|
  {
    if groups == [] then Ok(StageResult(map[], pos))
    else
      var st :- PlayGroup(groups[0].1, cache, draws, pos);
      var rest :- GroupStage(groups[1..], cache, draws, st.pos);
      assert forall k :: 1 <= k < |groups| ==> groups[k] == groups[1..][k - 1];
      Ok(StageResult(map[groups[0].0 := st.order] + rest.positions, rest.pos))
  }

  /** The group tables hold only teams listed in the groups. */
  lemma {:induction false} GroupStageWithin(groups: seq<(string, seq<Team>)>, cache: Cache, draws: Draws, pos: nat)
    ensures var res := GroupStage(groups, cache, draws, pos);
      res.Ok? ==> Within(res.value.positions, GroupTeams(groups))
    decreases |groups|
  {
    if groups != [] {
      var st := PlayGroup(groups[0].1, cache, draws, pos);
      if st.Ok? {
        GroupStageWithin(groups[1..], cache, draws, st.value.pos);
        var rest := GroupStage(groups[1..], cache, draws, st.value.pos);
        if rest.Ok? {
          var positions := map[groups[0].0 := st.value.order] + rest.value.positions;
          assert GroupStage(groups, cache, draws, pos) == Ok(StageResult(positions, rest.value.pos));
          assert GroupTeams(groups) == groups[0].1 + GroupTeams(groups[1..]);
        }
      }
    }
  }

  /** With distinct group names (the keys of a dict), the table of group `k`
      is the ranked round robin of its teams, played at some cursor no
      earlier than the stage's start, and holds each of its teams once. No
      other name gets a table. */
  lemma {:induction false} GroupStageTables(groups: seq<(string, seq<Team>)>, cache: Cache, draws: Draws, pos: nat)
    requires IsDistinct(Names(groups))
    ensures var res := GroupStage(groups, cache, draws, pos);
      res.Ok? ==>
        && (forall g <- res.value.positions :: g in Names(groups))
        && (forall k :: 0 <= k < |groups| ==>
              && multiset(res.value.positions[groups[k].0]) == multiset(Distinct(groups[k].1))
              && exists p: nat :: p >= pos && PlayGroup(groups[k].1, cache, draws, p).Ok?
                                 && PlayGroup(groups[k].1, cache, draws, p).value.order == res.value.positions[groups[k].0])
    decreases |groups|
  {
    var res := GroupStage(groups, cache, draws, pos);
    if groups != [] && res.Ok? {
      var st := PlayGroup(groups[0].1, cache, draws, pos);
      var tail := groups[1..];
      assert Names(tail) == Names(groups)[1..];
      DistinctTail(Names(groups));
      GroupStageTables(tail, cache, draws, st.value.pos);
      var rest := GroupStage(tail, cache, draws, st.value.pos);
      var positions := map[groups[0].0 := st.value.order] + rest.value.positions;
      assert res == Ok(StageResult(positions, rest.value.pos));
      assert groups[0].0 !in rest.value.positions;
      forall k | 0 <= k < |groups|
        ensures && multiset(positions[groups[k].0]) == multiset(Distinct(groups[k].1))
                && exists p: nat :: p >= pos && PlayGroup(groups[k].1, cache, draws, p).Ok?
                                   && PlayGroup(groups[k].1, cache, draws, p).value.order == positions[groups[k].0]
      {
        if k == 0 {
          assert PlayGroup(groups[0].1, cache, draws, pos).value.order == positions[groups[0].0];
        } else {
          assert groups[k] == tail[k - 1];
          assert Names(tail)[k - 1] == groups[k].0;
          assert positions[groups[k].0] == rest.value.positions[tail[k - 1].0];
          var p: nat :| p >= st.value.pos && PlayGroup(tail[k - 1].1, cache, draws, p).Ok?
                        && PlayGroup(tail[k - 1].1, cache, draws, p).value.order == rest.value.positions[tail[k - 1].0];
          assert p >= pos;
        }
      }
      forall g <- positions ensures g in Names(groups) {
        if g != groups[0].0 {
          assert g in Names(tail);
        }
      }
    }
  }

  /** `ordered[:2]` for every group, in dict order. */
  function Qualifiers(names: seq<string>, positions: Slots.Positions): (qs: seq<Team>)
    requires forall n <- names :: n in positions
    ensures |qs| <= 2 * |names|
    ensures forall t <- qs :: exists n <- names :: t in positions[n][..Min(2, |positions[n]|)]
    ensures forall k, t :: 0 <= k < |names| && t in positions[names[k]][..Min(2, |positions[names[k]]|)] ==> t in qs
  {
    if names == [] then []
    else
      var table := positions[names[0]];
      var rest := Qualifiers(names[1..], positions);
      assert forall k :: 1 <= k < |names| ==> names[k] == names[1..][k - 1];
      table[..Min(2, |table|)] + rest
  }

  /** When every group has at least two teams, the qualifiers are the
      winner and runner-up of each group in turn. */
  lemma {:induction false} QualifiersInOrder(names: seq<string>, positions: Slots.Positions)
    requires forall n <- names :: n in positions && |positions[n]| >= 2
    ensures var qs := Qualifiers(names, positions);
      && |qs| == 2 * |names|
      && forall k :: 0 <= k < |names| ==> qs[2 * k] == positions[names[k]][0] && qs[2 * k + 1] == positions[names[k]][1]
  {
    if names != [] {
      assert forall n <- names[1..] :: n in names;
      QualifiersInOrder(names[1..], positions);
      var qs := Qualifiers(names, positions);
      var rest := Qualifiers(names[1..], positions);
      assert qs == positions[names[0]][..2] + rest;
      forall k | 1 <= k < |names|
        ensures qs[2 * k] == positions[names[k]][0] && qs[2 * k + 1] == positions[names[k]][1]
      {
        assert names[k] == names[1..][k - 1];
        assert qs[2 * k] == rest[2 * (k - 1)] && qs[2 * k + 1] == rest[2 * (k - 1) + 1];
      }
    }
  }

  function Min(x: int, y: int): int {
    if x <= y then x else y
  }

  /** `[resolve_group_slot(s) for s in slots]`; the first failing slot's
      error is raised. */
  function ResolveAll(slots: seq<string>, positions: Slots.Positions): (r: Result<seq<Team>>)
    ensures r.Ok? <==> forall s <- slots :: Slots.ResolveGroupSlot(s, positions).Ok?
    ensures r.Ok? ==> |r.value| == |slots|
    ensures r.Ok? ==> forall k :: 0 <= k < |slots| ==> Slots.ResolveGroupSlot(slots[k], positions) == Ok(r.value[k])
  {
    if slots == [] then Ok([])
    else
      var t :- Slots.ResolveGroupSlot(slots[0], positions);
      assert slots == [slots[0]] + slots[1..];
      var rest :- ResolveAll(slots[1..], positions);
      Ok([t] + rest)
  }

  /** Lines 138-155: `s_teams = [resolve_group_slot(s) for s in slots]`,
      then a round robin over `s_teams`. */
  function Super8Group(slots: seq<string>, groupPositions: Slots.Positions, cache: Cache, draws: Draws, pos: nat)
    : (res: Result<Standing>)
    ensures res.Ok? ==> res.value.pos >= pos
  {
    var teams :- ResolveAll(slots, groupPositions);
    PlayGroup(teams, cache, draws, pos)
  }

  /** Lines 137-157: resolve a Super 8 group's slots against the group
      tables, then play it as a round robin. */
  function Super8Stage(s8: seq<(string, seq<string>)>, groupPositions: Slots.Positions, cache: Cache, draws: Draws, pos: nat)
    : (res: Result<StageResult>)
    ensures res.Ok? ==> forall k :: 0 <= k < |s8| ==> s8[k].0 in res.value.positions
    ensures res.Ok? ==> res.value.pos >= pos
    decreases |s8|
  {
    if s8 == [] then Ok(StageResult(map[], pos))
    else
      var st :- Super8Group(s8[0].1, groupPositions, cache, draws, pos);
      var rest :- Super8Stage(s8[1..], groupPositions, cache, draws, st.pos);
      assert forall k :: 1 <= k < |s8| ==> s8[k] == s8[1..][k - 1];
      Ok(StageResult(map[s8[0].0 := st.order] + rest.positions, rest.pos))
  }

  /** With distinct Super 8 group names, the table of Super 8 group `k` is the
      ranked round robin of its resolved slots, played at some cursor no
      earlier than the stage's start, and holds each resolved team once. No
      other name gets a table. */
  lemma {:induction false} Super8StageTables(s8: seq<(string, seq<string>)>, groupPositions: Slots.Positions, cache: Cache, draws: Draws, pos: nat)
    requires IsDistinct(Names(s8))
    ensures var res := Super8Stage(s8, groupPositions, cache, draws, pos);
      res.Ok? ==>
        && (forall g <- res.value.positions :: g in Names(s8))
        && (forall k :: 0 <= k < |s8| ==>
              && ResolveAll(s8[k].1, groupPositions).Ok?
              && multiset(res.value.positions[s8[k].0]) == multiset(Distinct(ResolveAll(s8[k].1, groupPositions).value))
              && exists p: nat :: p >= pos && Super8Group(s8[k].1, groupPositions, cache, draws, p).Ok?
                                 && Super8Group(s8[k].1, groupPositions, cache, draws, p).value.order == res.value.positions[s8[k].0])
    decreases |s8|
  {
    var res := Super8Stage(s8, groupPositions, cache, draws, pos);
    if s8 != [] && res.Ok? {
      var st := Super8Group(s8[0].1, groupPositions, cache, draws, pos);
      var tail := s8[1..];
      assert Names(tail) == Names(s8)[1..];
      DistinctTail(Names(s8));
      Super8StageTables(tail, groupPositions, cache, draws, st.value.pos);
      var rest := Super8Stage(tail, groupPositions, cache, draws, st.value.pos);
      var positions := map[s8[0].0 := st.value.order] + rest.value.positions;
      assert res == Ok(StageResult(positions, rest.value.pos));
      assert s8[0].0 !in rest.value.positions;
      forall k | 0 <= k < |s8|
        ensures && ResolveAll(s8[k].1, groupPositions).Ok?
                && multiset(positions[s8[k].0]) == multiset(Distinct(ResolveAll(s8[k].1, groupPositions).value))
                && exists p: nat :: p >= pos && Super8Group(s8[k].1, groupPositions, cache, draws, p).Ok?
                                   && Super8Group(s8[k].1, groupPositions, cache, draws, p).value.order == positions[s8[k].0]
      {
        if k == 0 {
          assert Super8Group(s8[0].1, groupPositions, cache, draws, pos).value.order == positions[s8[0].0];
        } else {
          assert s8[k] == tail[k - 1];
          assert Names(tail)[k - 1] == s8[k].0;
          assert positions[s8[k].0] == rest.value.positions[tail[k - 1].0];
          var p: nat :| p >= st.value.pos && Super8Group(tail[k - 1].1, groupPositions, cache, draws, p).Ok?
                        && Super8Group(tail[k - 1].1, groupPositions, cache, draws, p).value.order == rest.value.positions[tail[k - 1].0];
          assert p >= pos;
        }
      }
      forall g <- positions ensures g in Names(s8) {
        if g != s8[0].0 {
          assert g in Names(tail);
        }
      }
    }
  }

  /** The Super 8 tables hold only teams found in the group tables. */
  lemma {:induction false} Super8StageWithin(s8: seq<(string, seq<string>)>, groupPositions: Slots.Positions, cache: Cache, draws: Draws, pos: nat, teams: seq<Team>)
    requires Within(groupPositions, teams)
    ensures var res := Super8Stage(s8, groupPositions, cache, draws, pos);
      res.Ok? ==> Within(res.value.positions, teams)
    decreases |s8|
  {
    if s8 != [] {
      var st := Super8Group(s8[0].1, groupPositions, cache, draws, pos);
      Super8GroupWithin(s8[0].1, groupPositions, cache, draws, pos, teams);
      if st.Ok? {
        Super8StageWithin(s8[1..], groupPositions, cache, draws, st.value.pos, teams);
      }
    }
  }

  /** A Super 8 table lists only teams found in the group tables. */
  lemma Super8GroupWithin(slots: seq<string>, groupPositions: Slots.Positions, cache: Cache, draws: Draws, pos: nat, teams: seq<Team>)
    requires Within(groupPositions, teams)
    ensures var st := Super8Group(slots, groupPositions, cache, draws, pos);
      st.Ok? ==> forall t <- st.value.order :: t in teams
  {
    var resolved := ResolveAll(slots, groupPositions);
    if resolved.Ok? {
      forall k | 0 <= k < |resolved.value| ensures resolved.value[k] in teams {
        assert Slots.ResolveGroupSlot(slots[k], groupPositions) == Ok(resolved.value[k]);
      }
    }
  }

  /** Lines 168-171: `(resolve_super8_slot(sf[0]), resolve_super8_slot(sf[1]))`
      per semifinal; a semifinal with fewer than two slots is an IndexError. */
  function SemiPairs(sfs: seq<seq<string>>, positions: Slots.Positions): Result<seq<(Team, Team)>>
  {
    if sfs == [] then Ok([])
    else
      var p := SemiPair(sfs[0], positions);
      var rest := SemiPairs(sfs[1..], positions);
      if p.Err? then Err(p.error)
      else if rest.Err? then Err(rest.error)
      else Ok([p.value] + rest.value)
  }

  /** One pair per semifinal, pair `k` resolved from semifinal `k`. */
  lemma {:induction false} SemiPairsResults(sfs: seq<seq<string>>, positions: Slots.Positions)
    ensures var r := SemiPairs(sfs, positions);
      && (r.Ok? ==> |r.value| == |sfs|)
      && (r.Ok? ==> forall k :: 0 <= k < |sfs| ==> SemiPair(sfs[k], positions) == Ok(r.value[k]))
  {
    if sfs != [] {
      SemiPairsResults(sfs[1..], positions);
      var r := SemiPairs(sfs, positions);
      if r.Ok? {
        var p := SemiPair(sfs[0], positions).value;
        var rest := SemiPairs(sfs[1..], positions).value;
        assert r.value == [p] + rest;
        forall k | 0 <= k < |sfs| ensures SemiPair(sfs[k], positions) == Ok(r.value[k]) {
          if k > 0 {
            assert sfs[k] == sfs[1..][k - 1] && r.value[k] == rest[k - 1];
          }
        }
      }
    }
  }

  /** Line 170 for one semifinal `sf`: its two slots resolved, the first
      one first. */
  function SemiPair(sf: seq<string>, positions: Slots.Positions): Result<(Team, Team)> {
    var a :- if |sf| < 1 then Err(IndexError) else Slots.ResolveSuper8Slot(sf[0], positions);
    var b :- if |sf| < 2 then Err(IndexError) else Slots.ResolveSuper8Slot(sf[1], positions);
    Ok((a, b))
  }

  /** A semifinal resolves exactly when it has two slots and both resolve;
      an empty one is an IndexError. */
  lemma SemiPairResolves(sf: seq<string>, positions: Slots.Positions)
    ensures var r := SemiPair(sf, positions);
      && (r.Ok? <==> |sf| >= 2 && Slots.ResolveSuper8Slot(sf[0], positions).Ok? && Slots.ResolveSuper8Slot(sf[1], positions).Ok?)
      && (r.Ok? ==> r.value == (Slots.ResolveSuper8Slot(sf[0], positions).value, Slots.ResolveSuper8Slot(sf[1], positions).value))
      && (|sf| < 1 ==> r == Err(IndexError))
  {
  }

  /** Lines 173-177: one match per semifinal pair, one draw each. */
  function PlaySemis(pairs: seq<(Team, Team)>, cache: Cache, draws: Draws, pos: nat): Result<seq<Team>>
    decreases |pairs|
  {
    if pairs == [] then Ok([])
    else
      var w := SimulateMatchCached(pairs[0].0, pairs[0].1, cache, draws(pos));
      var rest := PlaySemis(pairs[1..], cache, draws, pos + 1);
      if w.Err? then Err(w.error)
      else if rest.Err? then Err(rest.error)
      else Ok([w.value] + rest.value)
  }

  /** The semifinals are played exactly when every pair is in the cache;
      winner `k` is the winner of pair `k` on draw `pos + k`. */
  lemma {:induction false} PlaySemisResults(pairs: seq<(Team, Team)>, cache: Cache, draws: Draws, pos: nat)
    ensures var r := PlaySemis(pairs, cache, draws, pos);
      && (r.Ok? <==> forall p <- pairs :: p in cache)
      && (r.Ok? ==> |r.value| == |pairs|)
      && (r.Ok? ==> forall k :: 0 <= k < |pairs| ==>
            SimulateMatchCached(pairs[k].0, pairs[k].1, cache, draws(pos + k)) == Ok(r.value[k]))
    decreases |pairs|
  {
    if pairs != [] {
      PlaySemisResults(pairs[1..], cache, draws, pos + 1);
      assert pairs == [pairs[0]] + pairs[1..];
      var r := PlaySemis(pairs, cache, draws, pos);
      if r.Ok? {
        var rest := PlaySemis(pairs[1..], cache, draws, pos + 1);
        forall k | 0 <= k < |pairs|
          ensures SimulateMatchCached(pairs[k].0, pairs[k].1, cache, draws(pos + k)) == Ok(r.value[k])
        {
          if k > 0 {
            assert pairs[k] == pairs[1..][k - 1] && r.value[k] == rest.value[k - 1];
          }
        }
      }
    }
  }

  /** Line 183: the final, on draw `fpos`. */
  function PlayFinal(a: Team, b: Team, cache: Cache, draws: Draws, fpos: nat): (r: Result<Team>)
    ensures r.Ok? <==> (a, b) in cache
    ensures r.Ok? ==> r.value == a || r.value == b
  {
    SimulateMatchCached(a, b, cache, draws(fpos))
  }

  /** The knockout rounds of a trial. */
  datatype Finals = Finals(semis: seq<(Team, Team)>, finalA: Team, finalB: Team, champion: Team, pos: nat)

  /** Lines 168-184: resolve and play the semifinals, then the final between
      the first two semifinal winners (an IndexError with fewer than two). */
  function Knockout(sfs: seq<seq<string>>, positions: Slots.Positions, cache: Cache, draws: Draws, pos: nat): (res: Result<Finals>)
    ensures res.Ok? ==> res.value.pos > pos
  {
    var pairs :- SemiPairs(sfs, positions);
    Playoffs(pairs, cache, draws, pos)
  }

  /** Lines 173-184: the semifinals from draw `pos`, then the final. */
  function Playoffs(pairs: seq<(Team, Team)>, cache: Cache, draws: Draws, pos: nat): (res: Result<Finals>)
    ensures res.Ok? ==> res.value.pos > pos
  {
    var winners :- PlaySemis(pairs, cache, draws, pos);
    Final(pairs, winners, cache, draws, pos + |pairs|)
  }

  /** Lines 180-184: the final between the first two semifinal winners, on
      draw `fpos`; an IndexError with fewer than two winners. */
  function Final(pairs: seq<(Team, Team)>, winners: seq<Team>, cache: Cache, draws: Draws, fpos: nat): (res: Result<Finals>)
    ensures res.Ok? ==> |winners| >= 2 && res == Ok(Finals(pairs, winners[0], winners[1], res.value.champion, fpos + 1))
    ensures res.Ok? <==> |winners| >= 2 && (winners[0], winners[1]) in cache
  {
    if |winners| < 2 then Err(IndexError)
    else
      var champ :- PlayFinal(winners[0], winners[1], cache, draws, fpos);
      Ok(Finals(pairs, winners[0], winners[1], champ, fpos + 1))
  }

  /** Once the semifinal slots are resolved, the knockout is the playoffs. */
  lemma KnockoutPlayoffs(sfs: seq<seq<string>>, positions: Slots.Positions, cache: Cache, draws: Draws, pos: nat,
                         pairs: seq<(Team, Team)>)
    requires SemiPairs(sfs, positions) == Ok(pairs)
    ensures Knockout(sfs, positions, cache, draws, pos) == Playoffs(pairs, cache, draws, pos)
  {
  }

  /** Once the semifinals are played, the playoffs are the final. */
  lemma PlayoffsFinal(pairs: seq<(Team, Team)>, cache: Cache, draws: Draws, pos: nat, winners: seq<Team>)
    requires PlaySemis(pairs, cache, draws, pos) == Ok(winners)
    ensures Playoffs(pairs, cache, draws, pos) == Final(pairs, winners, cache, draws, pos + |pairs|)
  {
  }

  /** The final's result once its match is played. */
  lemma FinalOk(pairs: seq<(Team, Team)>, winners: seq<Team>, cache: Cache, draws: Draws, fpos: nat, champ: Team)
    requires |winners| >= 2 && PlayFinal(winners[0], winners[1], cache, draws, fpos) == Ok(champ)
    ensures Final(pairs, winners, cache, draws, fpos) == Ok(Finals(pairs, winners[0], winners[1], champ, fpos + 1))
  {
  }

  /** What a trial contributes to the counters. */
  datatype Outcome = Outcome(qualifiers: seq<Team>, finals: Finals)

  /** Lines 91-184: one trial, starting at draw `pos`. */
  function Trial(config: Config, cache: Cache, draws: Draws, pos: nat): (res: Result<Outcome>)
    ensures res.Ok? ==> res.value.finals.pos > pos
  {
    var gs :- GroupStage(config.groups, cache, draws, pos);
    var quals := Qualifiers(Distinct(Names(config.groups)), gs.positions);
    var s8 :- Super8Stage(config.super8, gs.positions, cache, draws, gs.pos);
    var finals :- Knockout(config.semiFinals, s8.positions, cache, draws, s8.pos);
    Ok(Outcome(quals, finals))
  }

  /** The flattened semifinalists, a and b of every pair in order. */
  function Semifinalists(pairs: seq<(Team, Team)>): (ts: seq<Team>)
    ensures |ts| == 2 * |pairs|
  {
    if pairs == [] then [] else [pairs[0].0, pairs[0].1] + Semifinalists(pairs[1..])
  }

  /** The champion is a finalist, the finalists won the first two
      semifinals, and there are as many semifinals as configured. */
  lemma KnockoutPodium(sfs: seq<seq<string>>, positions: Slots.Positions, cache: Cache, draws: Draws, pos: nat)
    ensures var res := Knockout(sfs, positions, cache, draws, pos);
      res.Ok? ==>
        var f := res.value;
        && |f.semis| == |sfs| >= 2
        && (f.champion == f.finalA || f.champion == f.finalB)
        && (f.finalA == f.semis[0].0 || f.finalA == f.semis[0].1)
        && (f.finalB == f.semis[1].0 || f.finalB == f.semis[1].1)
  {
    var res := Knockout(sfs, positions, cache, draws, pos);
    if res.Ok? {
      var pairs := SemiPairs(sfs, positions).value;
      var winners := PlaySemis(pairs, cache, draws, pos).value;
      SemiPairsResults(sfs, positions);
      PlaySemisResults(pairs, cache, draws, pos);
      assert SimulateMatchCached(pairs[0].0, pairs[0].1, cache, draws(pos + 0)) == Ok(winners[0]);
      assert SimulateMatchCached(pairs[1].0, pairs[1].1, cache, draws(pos + 1)) == Ok(winners[1]);
    }
  }

  /** Every knockout participant comes from the Super 8 tables. */
  lemma KnockoutWithin(sfs: seq<seq<string>>, positions: Slots.Positions, cache: Cache, draws: Draws, pos: nat, teams: seq<Team>)
    requires Within(positions, teams)
    ensures var res := Knockout(sfs, positions, cache, draws, pos);
      res.Ok? ==>
        var f := res.value;
        && (forall p <- f.semis :: p.0 in teams && p.1 in teams)
        && f.finalA in teams && f.finalB in teams && f.champion in teams
  {
    var res := Knockout(sfs, positions, cache, draws, pos);
    if res.Ok? {
      var pairs := SemiPairs(sfs, positions).value;
      var winners := PlaySemis(pairs, cache, draws, pos).value;
      PlaySemisResults(pairs, cache, draws, pos);
      SemiPairsWithin(sfs, positions, teams);
      assert SimulateMatchCached(pairs[0].0, pairs[0].1, cache, draws(pos + 0)) == Ok(winners[0]);
      assert SimulateMatchCached(pairs[1].0, pairs[1].1, cache, draws(pos + 1)) == Ok(winners[1]);
    }
  }

  lemma QualifiersWithin(names: seq<string>, positions: Slots.Positions, teams: seq<Team>)
    requires forall n <- names :: n in positions
    requires Within(positions, teams)
    ensures forall t <- Qualifiers(names, positions) :: t in teams
  {
    forall t <- Qualifiers(names, positions) ensures t in teams {
      var n :| n in names && t in positions[n][..Min(2, |positions[n]|)];
      assert t in positions[n];
    }
  }

  lemma SemiPairsWithin(sfs: seq<seq<string>>, positions: Slots.Positions, teams: seq<Team>)
    requires Within(positions, teams)
    ensures var r := SemiPairs(sfs, positions);
      r.Ok? ==> forall p <- r.value :: p.0 in teams && p.1 in teams
  {
    var r := SemiPairs(sfs, positions);
    SemiPairsResults(sfs, positions);
    if r.Ok? {
      forall k | 0 <= k < |r.value| ensures r.value[k].0 in teams && r.value[k].1 in teams {
        SemiPairResolves(sfs[k], positions);
        assert r.value[k].0 in positions[Slots.SplitUnderscore(sfs[k][0]).value.0];
        assert r.value[k].1 in positions[Slots.SplitUnderscore(sfs[k][1]).value.0];
      }
    }
  }

  /** Lines 116-121 of a trial: when the group names are distinct and every
      group has at least two different teams, the Super 8 qualifiers are the
      winner and runner-up of each group's ranked table, group by group in
      dict order, and each table holds exactly that group's teams. */
  lemma TrialQualifiers(config: Config, cache: Cache, draws: Draws, pos: nat)
    requires IsDistinct(Names(config.groups))
    requires forall k :: 0 <= k < |config.groups| ==> |Distinct(config.groups[k].1)| >= 2
    ensures var res := Trial(config, cache, draws, pos);
      var gs := GroupStage(config.groups, cache, draws, pos);
      res.Ok? ==>
        && gs.Ok?
        && |res.value.qualifiers| == 2 * |config.groups|
        && forall k :: 0 <= k < |config.groups| ==>
             var table := gs.value.positions[config.groups[k].0];
             && |table| >= 2
             && multiset(table) == multiset(Distinct(config.groups[k].1))
             && res.value.qualifiers[2 * k] == table[0] && res.value.qualifiers[2 * k + 1] == table[1]
  {
    var res := Trial(config, cache, draws, pos);
    TrialGroupStage(config, cache, draws, pos);
    if res.Ok? {
      var gs := GroupStage(config.groups, cache, draws, pos);
      GroupStageTables(config.groups, cache, draws, pos);
      assert Distinct(Names(config.groups)) == Names(config.groups);
      QualifiersOfTables(config.groups, gs.value.positions);
    }
  }

  /** A trial's qualifiers are `ordered[:2]` of its group stage's tables. */
  lemma TrialGroupStage(config: Config, cache: Cache, draws: Draws, pos: nat)
    ensures var res := Trial(config, cache, draws, pos);
      var gs := GroupStage(config.groups, cache, draws, pos);
      res.Ok? ==> gs.Ok? && res.value.qualifiers == Qualifiers(Distinct(Names(config.groups)), gs.value.positions)
  {
  }

  /** Tables holding each group's (at least two) teams give two qualifiers
      per group: its first and second, in group order. */
  lemma QualifiersOfTables(groups: seq<(string, seq<Team>)>, positions: Slots.Positions)
    requires forall k :: 0 <= k < |groups| ==> |Distinct(groups[k].1)| >= 2
    requires forall k :: 0 <= k < |groups| ==>
      groups[k].0 in positions && multiset(positions[groups[k].0]) == multiset(Distinct(groups[k].1))
    ensures var qs := Qualifiers(Names(groups), positions);
      && |qs| == 2 * |groups|
      && forall k :: 0 <= k < |groups| ==>
           var table := positions[groups[k].0];
           && |table| >= 2
           && qs[2 * k] == table[0] && qs[2 * k + 1] == table[1]
  {
    var names := Names(groups);
    forall k | 0 <= k < |groups| ensures |positions[groups[k].0]| >= 2 {
      assert |multiset(positions[groups[k].0])| == |multiset(Distinct(groups[k].1))|;
    }
    forall n <- names ensures n in positions && |positions[n]| >= 2 {
      var k :| 0 <= k < |names| && names[k] == n;
    }
    QualifiersInOrder(names, positions);
  }

  /** Every team a trial counts (qualifiers, semifinalists, finalists and
      champion) was listed in some group. */
  lemma TrialWithinGroups(config: Config, cache: Cache, draws: Draws, pos: nat)
    ensures var res := Trial(config, cache, draws, pos);
      res.Ok? ==>
        var o := res.value;
        var all := GroupTeams(config.groups);
        && (forall t <- o.qualifiers :: t in all)
        && (forall p <- o.finals.semis :: p.0 in all && p.1 in all)
        && o.finals.finalA in all && o.finals.finalB in all && o.finals.champion in all
  {
    var res := Trial(config, cache, draws, pos);
    if res.Ok? {
      var all := GroupTeams(config.groups);
      var gs := GroupStage(config.groups, cache, draws, pos).value;
      GroupStageWithin(config.groups, cache, draws, pos);
      QualifiersWithin(Distinct(Names(config.groups)), gs.positions, all);
      Super8StageWithin(config.super8, gs.positions, cache, draws, gs.pos, all);
      var s8 := Super8Stage(config.super8, gs.positions, cache, draws, gs.pos).value;
      KnockoutWithin(config.semiFinals, s8.positions, cache, draws, s8.pos, all);
    }
  }

  /** In a round robin over teams drawn from `all`, against a cache holding
      exactly the ordered pairs of distinct teams of `all`, the only possible
      failure is a self-pair, i.e. a team listed twice. */
  lemma PlayableIffDistinct(teams: seq<Team>, all: seq<Team>, cache: Cache, draws: Draws, pos: nat)
    requires forall t <- teams :: t in all
    requires forall a, b :: (a, b) in cache <==> a in all && b in all && a != b
    ensures PlayGroup(teams, cache, draws, pos).Ok? <==> IsDistinct(teams)
  {
    FixturesSound(teams);
    FixturesComplete(teams);
    if !IsDistinct(teams) {
      var i, j :| 0 <= i < j < |teams| && teams[i] == teams[j];
      assert (teams[i], teams[j]) in Fixtures(teams);
    }
  }
}
