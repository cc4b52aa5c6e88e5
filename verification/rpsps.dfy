/** Rock, paper, scissors, python, spock: the defeat relation, one game
    decided by the first pair of different choices, best-of-n tournaments
    and the menu session. The random draws are parameters. */
module Rpsps {
  import opened Wrappers

  datatype Choice = Rock | Paper | Scissors | Python | Spock

  /** `defeat_choices_mapper`: the two choices each choice beats. */
  function Defeats(c: Choice): seq<Choice> {
    match c
    case Rock => [Scissors, Python]
    case Paper => [Rock, Spock]
    case Scissors => [Paper, Python]
    case Python => [Spock, Paper]
    case Spock => [Scissors, Rock]
  }

  predicate Beats(a: Choice, b: Choice) {
    b in Defeats(a)
  }

  /** Every choice beats exactly two others and never itself. */
  lemma DefeatsTwo(c: Choice)
    ensures |Defeats(c)| == 2 && Defeats(c)[0] != Defeats(c)[1]
    ensures !Beats(c, c)
  {
  }

  /** Of two different choices exactly one beats the other: the relation is
      a tournament on the five choices. */
  lemma ExactlyOneBeats(a: Choice, b: Choice)
    requires a != b
    ensures Beats(a, b) <==> !Beats(b, a)
  {
  }

  /** The outcome of one draw of two different choices. */
  function Decide(p1: string, p2: string, a: Choice, b: Choice): (r: string)
    requires a != b
    ensures r == p1 || r == p2
    ensures p1 != p2 ==> (r == p1 <==> Beats(a, b))
  {
    if b in Defeats(a) then p1 else p2
  }

  /** `simulate_game` over a sequence of draws: ties are redrawn, and the
      first pair of different choices decides. None means the draws ran out
      on ties, where the source would keep drawing. */
  function Game(p1: string, p2: string, draws: seq<(Choice, Choice)>): (r: Option<string>)
    ensures r.Some? ==> r.value == p1 || r.value == p2
    ensures r.None? <==> forall i :: 0 <= i < |draws| ==> draws[i].0 == draws[i].1
    ensures r.Some? ==> exists i :: && 0 <= i < |draws| && draws[i].0 != draws[i].1
                                    && (forall j :: 0 <= j < i ==> draws[j].0 == draws[j].1)
                                    && r.value == Decide(p1, p2, draws[i].0, draws[i].1)
  {
    if |draws| == 0 then None
    else if draws[0].0 != draws[0].1 then Some(Decide(p1, p2, draws[0].0, draws[0].1))
    else
      var r := Game(p1, p2, draws[1..]);
      assert forall i :: 1 <= i < |draws| ==> draws[i] == draws[1..][i - 1];
      if r.Some? then
        var i :| && 0 <= i < |draws[1..]| && draws[1..][i].0 != draws[1..][i].1
                 && (forall j :: 0 <= j < i ==> draws[1..][j].0 == draws[1..][j].1)
                 && r.value == Decide(p1, p2, draws[1..][i].0, draws[1..][i].1);
        assert forall j :: 1 <= j < i + 1 ==> draws[j] == draws[1..][j - 1];
        r
      else r
  }

  /** The number of rounds credited to `name`. */
  function Count(winners: seq<string>, name: string): (n: nat)
    ensures n <= |winners|
  {
    if |winners| == 0 then 0
    else (if winners[0] == name then 1 else 0) + Count(winners[1..], name)
  }

  /** `simulate_tournament` over the round winners: a round won by the
      first name counts for player one and every other round for player
      two; player two takes ties. */
  method SimulateTournament(p1: string, p2: string, winners: seq<string>)
    returns (champion: string, p1Wins: nat, p2Wins: nat)
    requires forall i :: 0 <= i < |winners| ==> winners[i] == p1 || winners[i] == p2
    ensures p1Wins + p2Wins == |winners|
    ensures p1Wins == Count(winners, p1)
    ensures p1Wins > p2Wins ==> champion == p1
    ensures p1Wins <= p2Wins ==> champion == p2
    ensures p1 == p2 ==> p1Wins == |winners| && p2Wins == 0
    ensures champion == Champion(p1, p2, winners)
  {
    p1Wins, p2Wins := 0, 0;
    var i := 0;
    while i < |winners|
      invariant i <= |winners|
      invariant p1Wins + p2Wins == i
      invariant p1Wins + Count(winners[i..], p1) == Count(winners, p1)
      invariant p1 == p2 ==> p2Wins == 0
    {
      assert winners[i..][1..] == winners[i + 1..];
      if winners[i] == p1 {
        p1Wins := p1Wins + 1;
      } else {
        p2Wins := p2Wins + 1;
      }
      i := i + 1;
    }
    if p1Wins > p2Wins {
      champion := p1;
    } else {
      champion := p2;
    }
  }

  /** With equal names every round is credited to player one. */
  lemma {:induction false} CountAll(winners: seq<string>, p: string)
    requires forall i :: 0 <= i < |winners| ==> winners[i] == p
    ensures Count(winners, p) == |winners|
  {
    if |winners| > 0 {
      CountAll(winners[1..], p);
    }
  }

  /** When every round went to one of the two players, the rounds not won
      by player one were won by player two. */
  lemma {:induction false} CountSplit(winners: seq<string>, p1: string, p2: string)
    requires p1 != p2
    requires forall i :: 0 <= i < |winners| ==> winners[i] == p1 || winners[i] == p2
    ensures Count(winners, p1) + Count(winners, p2) == |winners|
  {
    if |winners| > 0 {
      CountSplit(winners[1..], p1, p2);
    }
  }

  /** Over an odd number of rounds the returned player won a strict
      majority of them. */
  lemma MajorityChampion(p1: string, p2: string, winners: seq<string>, champion: string, p1Wins: nat, p2Wins: nat)
    requires |winners| % 2 == 1
    requires forall i :: 0 <= i < |winners| ==> winners[i] == p1 || winners[i] == p2
    requires p1Wins + p2Wins == |winners| && p1Wins == Count(winners, p1)
    requires p1Wins > p2Wins ==> champion == p1
    requires p1Wins <= p2Wins ==> champion == p2
    ensures 2 * Count(winners, champion) > |winners|
  {
    if p1 != p2 {
      CountSplit(winners, p1, p2);
    } else {
      CountAll(winners, p1);
    }
  }

  /** The tournament's champion as a value, for the session. */
  function Champion(p1: string, p2: string, winners: seq<string>): (r: string)
    ensures r == p1 || r == p2
    ensures p1 != p2 ==> (r == p1 <==> 2 * Count(winners, p1) > |winners|)
  {
    if Count(winners, p1) > |winners| - Count(winners, p1) then p1 else p2
  }

  /** The menu: options 1, 2 and 3 are best of 3, 5 and 7; anything else
      ends the session. */
  function RoundsFor(mode: int): (r: Option<nat>)
    ensures r.Some? <==> 1 <= mode <= 3
    ensures r.Some? ==> r.value == 2 * mode + 1 && r.value % 2 == 1
  {
    if mode == 1 then Some(3)
    else if mode == 2 then Some(5)
    else if mode == 3 then Some(7)
    else None
  }

  /** The draws of one tournament of `n` rounds: `simulate_tournament`
      calls `simulate_game` exactly `n` times, and each call names one of
      the two players. */
  predicate Drawn(winners: seq<string>, n: nat, p1: string, p2: string) {
    && |winners| == n
    && forall i :: 0 <= i < |winners| ==> winners[i] == p1 || winners[i] == p2
  }

  /** The session loop over menu selections, each with the round winners
      its tournament draws: one (champion, rounds) entry per tournament,
      until the first selection that is not 1, 2 or 3. A tournament whose
      draws are as many as the selected rounds goes to the player who won
      a strict majority of them. */
  function Session(p1: string, p2: string, plays: seq<(int, seq<string>)>): (history: seq<(string, nat)>)
    ensures |history| <= |plays|
    ensures forall i :: 0 <= i < |history| ==> && RoundsFor(plays[i].0).Some?
                                               && history[i] == (Champion(p1, p2, plays[i].1), RoundsFor(plays[i].0).value)
    ensures |history| < |plays| ==> RoundsFor(plays[|history|].0).None?
    ensures forall i :: 0 <= i < |history| && Drawn(plays[i].1, history[i].1, p1, p2) ==>
                          2 * Count(plays[i].1, history[i].0) > history[i].1
  {
    if |plays| == 0 then []
    else match RoundsFor(plays[0].0)
      case None => []
      case Some(n) =>
        var rest := Session(p1, p2, plays[1..]);
        var w := plays[0].1;
        assert Drawn(w, n, p1, p2) ==> 2 * Count(w, Champion(p1, p2, w)) > n by {
          if Drawn(w, n, p1, p2) {
            MajorityChampion(p1, p2, w, Champion(p1, p2, w), Count(w, p1), |w| - Count(w, p1));
          }
        }
        [(Champion(p1, p2, w), n)] + rest
  }
}
