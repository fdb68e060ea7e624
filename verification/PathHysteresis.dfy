/** When the daemon recommends leaving the current path, and why following it cannot go on for long. */
module PathHysteresis {
  import opened Prelude

  datatype Candidate = Candidate(id: string, score: real)

  datatype Recommendation = Unavailable | Remain | Switch(to: string)

  /** The score of the first candidate on a path. */
  function ScoreOf(candidates: seq<Candidate>, id: string): Option<real> {
    if candidates == [] then None
    else if candidates[0].id == id then Some(candidates[0].score)
    else ScoreOf(candidates[1..], id)
  }

  function Improvement(candidates: seq<Candidate>, current: Option<string>, selected: Candidate): real {
    var currentScore := if current.Some? then ScoreOf(candidates, current.value) else None;
    if currentScore.None? then selected.score else selected.score - currentScore.value
  }

  /** The recommendation for the path the routing engine selected, if it selected one. */
  function Recommend(
    candidates: seq<Candidate>, current: Option<string>, selected: Option<Candidate>, hysteresis: real): Recommendation
  {
    if selected.None? then Unavailable
    else if Some(selected.value.id) != current && Improvement(candidates, current, selected.value) >= hysteresis then
      Switch(selected.value.id)
    else Remain
  }

  ghost predicate ValidCandidates(candidates: seq<Candidate>) {
    && (forall i :: 0 <= i < |candidates| ==> 0.0 <= candidates[i].score <= 100.0)
    && forall i, j :: 0 <= i < j < |candidates| ==> candidates[i].id != candidates[j].id
  }

  lemma ScoreOfCandidate(candidates: seq<Candidate>, c: Candidate)
    requires ValidCandidates(candidates) && c in candidates
    ensures ScoreOf(candidates, c.id) == Some(c.score)
  {
    if candidates[0] != c {
      assert c in candidates[1..];
      ScoreOfCandidate(candidates[1..], c);
    }
  }

  /** The position of the first candidate on the current path; its score counts as that of the path. */
  ghost predicate Scores(candidates: seq<Candidate>, current: Option<string>, k: nat) {
    && k < |candidates| && current == Some(candidates[k].id)
    && forall j :: 0 <= j < k ==> candidates[j].id != candidates[k].id
  }

  lemma {:induction false} ScoreAt(candidates: seq<Candidate>, current: Option<string>, k: nat)
    requires Scores(candidates, current, k)
    ensures ScoreOf(candidates, candidates[k].id) == Some(candidates[k].score)
  {
    if k > 0 {
      ScoreAt(candidates[1..], current, k - 1);
    }
  }

  lemma {:induction false} Unscored(candidates: seq<Candidate>, path: string)
    requires forall c :: c in candidates ==> c.id != path
    ensures ScoreOf(candidates, path) == None
  {
    if candidates != [] {
      Unscored(candidates[1..], path);
    }
  }

  /**
   * A switch is recommended exactly to a selected path that is not the current one and scores at
   * least the hysteresis more than it, where a current path that is no candidate scores zero. With
   * nothing selected no path is available, and in every other case the daemon remains.
   */
  lemma RecommendExactly(
    candidates: seq<Candidate>, current: Option<string>, selected: Option<Candidate>, hysteresis: real, to: string)
    ensures Recommend(candidates, current, selected, hysteresis) == Switch(to) <==>
      && selected.Some? && selected.value.id == to && current != Some(to)
      && (forall k: nat :: Scores(candidates, current, k) ==> selected.value.score - candidates[k].score >= hysteresis)
      && ((forall c :: c in candidates ==> current != Some(c.id)) ==> selected.value.score >= hysteresis)
    ensures Recommend(candidates, current, selected, hysteresis) == Unavailable <==> selected.None?
  {
    forall k: nat | Scores(candidates, current, k)
      ensures ScoreOf(candidates, candidates[k].id) == Some(candidates[k].score)
    {
      ScoreAt(candidates, current, k);
    }
    if current.Some? {
      if forall c :: c in candidates ==> c.id != current.value {
        Unscored(candidates, current.value);
        assert forall k: nat :: !Scores(candidates, current, k);
      } else {
        var k := FirstOnPath(candidates, current.value);
        assert Scores(candidates, current, k);
      }
    }
  }

  lemma {:induction false} FirstOnPath(candidates: seq<Candidate>, path: string) returns (k: nat)
    requires exists c :: c in candidates && c.id == path
    ensures Scores(candidates, Some(path), k)
  {
    if candidates[0].id == path {
      k := 0;
    } else {
      var c :| c in candidates && c.id == path;
      assert c in candidates[1..];
      var j := FirstOnPath(candidates[1..], path);
      k := j + 1;
    }
  }

  // ---------------------------------------------------------------- following recommendations

  ghost predicate Recommended(candidates: seq<Candidate>, current: Option<string>, next: string, hysteresis: real) {
    exists c :: c in candidates && Recommend(candidates, current, Some(c), hysteresis) == Switch(next)
  }

  /** Each step follows a switch recommended for some selection of the engine. */
  ghost predicate Follows(candidates: seq<Candidate>, start: Option<string>, steps: seq<string>, hysteresis: real)
    decreases steps
  {
    steps != [] ==>
      && Recommended(candidates, start, steps[0], hysteresis)
      && Follows(candidates, Some(steps[0]), steps[1..], hysteresis)
  }

  /** What the score of a path is worth; an unknown path counts as zero. */
  function Worth(candidates: seq<Candidate>, path: Option<string>): real {
    if path.None? then 0.0 else
      match ScoreOf(candidates, path.value)
      case None => 0.0
      case Some(score) => score
  }

  lemma SwitchGains(candidates: seq<Candidate>, current: Option<string>, next: string, hysteresis: real)
    requires ValidCandidates(candidates) && Recommended(candidates, current, next, hysteresis)
    ensures Worth(candidates, current) + hysteresis <= Worth(candidates, Some(next)) <= 100.0
    ensures ScoreOf(candidates, next).Some?
  {
    var c :| c in candidates && Recommend(candidates, current, Some(c), hysteresis) == Switch(next);
    ScoreOfCandidate(candidates, c);
  }

  /** Every later path is worth at least one hysteresis more per step. */
  lemma {:induction false} WorthGrows(
    candidates: seq<Candidate>, start: Option<string>, steps: seq<string>, hysteresis: real, i: nat)
    requires ValidCandidates(candidates) && Follows(candidates, start, steps, hysteresis) && i < |steps|
    ensures Worth(candidates, start) + (i + 1) as real * hysteresis <= Worth(candidates, Some(steps[i])) <= 100.0
    decreases steps
  {
    SwitchGains(candidates, start, steps[0], hysteresis);
    if i > 0 {
      WorthGrows(candidates, Some(steps[0]), steps[1..], hysteresis, i - 1);
      assert (i + 1) as real * hysteresis == hysteresis + i as real * hysteresis;
    }
  }

  lemma {:induction false} FollowsTail(
    candidates: seq<Candidate>, start: Option<string>, steps: seq<string>, hysteresis: real, i: nat)
    requires Follows(candidates, start, steps, hysteresis) && i < |steps|
    ensures Follows(candidates, Some(steps[i]), steps[i + 1..], hysteresis)
    decreases steps
  {
    if i > 0 {
      FollowsTail(candidates, Some(steps[0]), steps[1..], hysteresis, i - 1);
      assert steps[1..][i..] == steps[i + 1..];
    }
  }

  lemma NeverBack(candidates: seq<Candidate>, start: string, steps: seq<string>, hysteresis: real, i: nat)
    requires ValidCandidates(candidates) && hysteresis > 0.0 && Follows(candidates, Some(start), steps, hysteresis)
    requires i < |steps|
    ensures steps[i] != start
  {
    WorthGrows(candidates, Some(start), steps, hysteresis, i);
    assert (i + 1) as real * hysteresis > 0.0;
  }

  lemma LengthBounded(candidates: seq<Candidate>, start: Option<string>, steps: seq<string>, hysteresis: real)
    requires ValidCandidates(candidates) && Follows(candidates, start, steps, hysteresis) && hysteresis > 0.0
    ensures |steps| as real * hysteresis <= 100.0
  {
    if steps != [] {
      var n := |steps| - 1;
      WorthIsPositive(candidates, start);
      WorthGrows(candidates, start, steps, hysteresis, n);
      assert (n + 1) as real * hysteresis <= 100.0;
    }
  }

  /** Whatever the engine selects, followed switches never revisit a path and number at most 100 / hysteresis. */
  lemma SwitchesBounded(candidates: seq<Candidate>, start: Option<string>, steps: seq<string>, hysteresis: real)
    requires ValidCandidates(candidates) && hysteresis > 0.0 && Follows(candidates, start, steps, hysteresis)
    ensures Distinct(steps) && (start.Some? ==> start.value !in steps)
    ensures |steps| as real * hysteresis <= 100.0
  {
    LengthBounded(candidates, start, steps, hysteresis);
    forall i, j | 0 <= i < j < |steps| ensures steps[i] != steps[j] {
      FollowsTail(candidates, start, steps, hysteresis, i);
      NeverBack(candidates, steps[i], steps[i + 1..], hysteresis, j - i - 1);
    }
    if start.Some? {
      forall i | 0 <= i < |steps| ensures steps[i] != start.value {
        NeverBack(candidates, start.value, steps, hysteresis, i);
      }
    }
  }

  lemma WorthIsPositive(candidates: seq<Candidate>, path: Option<string>)
    requires ValidCandidates(candidates)
    ensures Worth(candidates, path) >= 0.0
  {
    if path.Some? && candidates != [] && candidates[0].id != path.value {
      WorthIsPositive(candidates[1..], path);
    }
  }

  // ---------------------------------------------------------------- with the engine's own selection

  /** The first candidate of the greatest score. */
  function Best(eligible: seq<Candidate>): (c: Candidate)
    requires eligible != []
    ensures c in eligible && forall d :: d in eligible ==> d.score <= c.score
  {
    if |eligible| == 1 then eligible[0] else
      var best := Best(eligible[1..]);
      assert forall d :: d in eligible ==> d == eligible[0] || d in eligible[1..];
      if eligible[0].score >= best.score then eligible[0] else best
  }

  function Find(eligible: seq<Candidate>, id: string): (c: Option<Candidate>)
    ensures c.Some? ==> c.value in eligible && c.value.id == id
  {
    if eligible == [] then None else if eligible[0].id == id then Some(eligible[0]) else Find(eligible[1..], id)
  }

  /** What the engine knows about the current path besides its id: `flapping` routes, and whether it failed. */
  datatype Conditions = Conditions(flapping: bool, currentFailed: bool)

  /**
   * The best eligible candidate, unless the current one is eligible and less than the hysteresis
   * behind, or routes are flapping and the current one is eligible and has not failed.
   */
  function EngineSelects(
    eligible: seq<Candidate>, current: Option<string>, hysteresis: real, on: Conditions): Option<Candidate>
  {
    if eligible == [] then None else
      var best := Best(eligible);
      var kept := if current.Some? && current.value != best.id then Find(eligible, current.value) else None;
      var close := kept.Some? && best.score - kept.value.score < hysteresis;
      if close || (kept.Some? && on.flapping && !on.currentFailed) then kept else Some(best)
  }

  /** The engine selects something exactly when anything is eligible. */
  lemma EngineSelectsEligible(eligible: seq<Candidate>, current: Option<string>, hysteresis: real, on: Conditions)
    ensures EngineSelects(eligible, current, hysteresis, on).None? <==> eligible == []
    ensures EngineSelects(eligible, current, hysteresis, on).Some? ==>
      EngineSelects(eligible, current, hysteresis, on).value in eligible
  {
  }

  /**
   * An eligible candidate on the current path is selected exactly when no other is ahead of it by the
   * hysteresis, or routes flap and it has not failed. Any other selection has the greatest score.
   */
  lemma EngineExactly(
    eligible: seq<Candidate>, current: Option<string>, hysteresis: real, on: Conditions, k: nat)
    requires ValidCandidates(eligible) && hysteresis > 0.0 && k < |eligible|
    ensures var selected := EngineSelects(eligible, current, hysteresis, on);
            && selected.Some?
            && (current == Some(eligible[k].id) ==>
                 (selected == Some(eligible[k]) <==>
                   || (forall d :: d in eligible ==> d.score - eligible[k].score < hysteresis)
                   || (on.flapping && !on.currentFailed)))
            && (Some(selected.value.id) != current ==> eligible[k].score <= selected.value.score)
  {
    assert eligible[k] in eligible;
    var found := Find(eligible, eligible[k].id);
    FindFirst(eligible, k);
    assert Best(eligible) in eligible;
  }

  lemma {:induction false} FindFirst(eligible: seq<Candidate>, k: nat)
    requires k < |eligible| && forall j :: 0 <= j < k ==> eligible[j].id != eligible[k].id
    ensures Find(eligible, eligible[k].id) == Some(eligible[k])
  {
    if k > 0 {
      FindFirst(eligible[1..], k - 1);
    }
  }

  /**
   * With the engine's own selection one switch is enough: whatever is eligible among the candidates
   * and whether or not routes flap, the evaluation after a switch remains.
   */
  lemma OneSwitchSettles(
    candidates: seq<Candidate>, eligible: seq<Candidate>, current: Option<string>, hysteresis: real,
    before: Conditions, after: Conditions)
    requires hysteresis > 0.0
    ensures match Recommend(candidates, current, EngineSelects(eligible, current, hysteresis, before), hysteresis)
            case Switch(to) =>
              && (var again := EngineSelects(eligible, Some(to), hysteresis, after);
                  Recommend(candidates, Some(to), again, hysteresis) == Remain)
              && exists c :: c in eligible && c.id == to && forall d :: d in eligible ==> d.score <= c.score
            case Remain => current.Some? || Best(eligible).score < hysteresis
            case Unavailable => eligible == []
  {
    if eligible != [] {
      var best := Best(eligible);
      assert best in eligible && forall d :: d in eligible ==> d.score <= best.score;
    }
  }
}
