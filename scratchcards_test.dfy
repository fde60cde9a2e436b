/** The stand-alone copy of the day 4 scorer: its own `calc_score` over owned lists and
    its own `parse_card`. The number parser is the same as day 4's and is shared. */
module ScratchcardsTest {
  import opened Wrappers
  import opened Sorting
  import Scratchcards

  /** `calc_score`: on a bigger winning head only `mine` advances, on a smaller one only
      `winning`, and on equal heads only `mine`, with the points bumped. */
  function CalcScore(winning: seq<nat>, mine: seq<nat>, points: nat): nat
    decreases |winning| + |mine|
  {
    if winning == [] || mine == [] then points
    else if winning[0] > mine[0] then CalcScore(winning, mine[1..], points)
    else if winning[0] < mine[0] then CalcScore(winning[1..], mine, points)
    else CalcScore(winning, mine[1..], if points == 0 then 1 else points * 2)
  }

  /** The copy and the day 4 scorer agree on every input. */
  lemma {:induction false} CalcScoreAgrees(winning: seq<nat>, mine: seq<nat>, points: nat)
    ensures CalcScore(winning, mine, points) == Scratchcards.CalcScore(winning, mine, points)
    decreases |winning| + |mine|
  {
    if winning == [] || mine == [] {
    } else if winning[0] > mine[0] {
      CalcScoreAgrees(winning, mine[1..], points);
    } else if winning[0] < mine[0] {
      CalcScoreAgrees(winning[1..], mine, points);
    } else {
      CalcScoreAgrees(winning, mine[1..], if points == 0 then 1 else points * 2);
    }
  }

  /** On sorted lists the copy scores 2^(k-1) for k matches, and nothing for none;
      a repeated number of yours scores each time. */
  lemma CalcScoreOnSorted(winning: seq<nat>, mine: seq<nat>)
    requires SortedBy(winning, Scratchcards.NatKey) && SortedBy(mine, Scratchcards.NatKey)
    ensures CalcScore(winning, mine, 0) == Scratchcards.Score(Scratchcards.Matching(winning, mine))
  {
    CalcScoreAgrees(winning, mine, 0);
    Scratchcards.CalcScoreIsScore(winning, mine, 0);
    Scratchcards.CountMatchesCounts(winning, mine, 0);
  }

  /** `parse_card`: everything up to `:` is skipped, both lists are sorted, then scored. */
  function ParseCard(s: string): (r: Option<(string, nat)>)
    ensures r == Scratchcards.ParseCard(s)
  {
    match Scratchcards.SkipPast(':', s)
    case None => None
    case Some(s1) =>
      match Scratchcards.NumberLists(s1)
      case None => None
      case Some((winning, mine, rest)) =>
        var ws := SortBy(winning, Scratchcards.NatKey);
        var ms := SortBy(mine, Scratchcards.NatKey);
        CalcScoreAgrees(ws, ms, 0);
        Some((rest, CalcScore(ws, ms, 0)))
  }
}
