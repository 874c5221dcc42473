// The rules of demos/guess_my_number.py.  The referee picks a secret number
// strictly between two bounds; each wrong guess narrows the bounds, and the
// right guess makes its player the winner and ends the game.  The random
// draws (the secret number, the AI's guesses and its waiting time) are
// parameters, and the GUI is not part of this model.

module Guess {
  import opened Wrappers

  datatype CheckError = NumberOutOfBounds  // kxg.MessageCheck("number out of bounds")

  /** The world's four fields, and whether `end_game` has been called. */
  datatype Game = Game(number: int, lower: int, upper: int, winner: int, over: bool)

  /** A PickNumber message; `number` is the draw of
    * `random.randint(lower + 1, upper - 1)`. */
  datatype PickNumber = PickNumber(lower: int, upper: int, number: int)

  /** The secret number lies strictly between the bounds. */
  predicate Bracketed(g: Game) {
    g.lower < g.number < g.upper
  }

  /** `PickNumber.on_check`: reject a number that is not strictly between
    * the bounds. */
  function CheckPick(m: PickNumber): (r: Outcome<CheckError>)
    ensures r.Pass? <==> m.lower < m.number < m.upper
  {
    if !(m.lower < m.number < m.upper) then Fail(NumberOutOfBounds) else Pass
  }

  /** `randint(lower + 1, upper - 1)` draws exactly the numbers `on_check`
    * accepts. */
  lemma DrawIsChecked(lower: int, upper: int, number: int)
    ensures lower + 1 <= number <= upper - 1 <==> CheckPick(PickNumber(lower, upper, number)).Pass?
  {
  }

  /** `PickNumber.on_execute`. */
  function Picked(g: Game, m: PickNumber): (r: Game)
    ensures CheckPick(m).Pass? ==> Bracketed(r)
    ensures r.winner == g.winner && r.over == g.over
  {
    g.(number := m.number, lower := m.lower, upper := m.upper)
  }

  function Max(a: int, b: int): int { if a >= b then a else b }
  function Min(a: int, b: int): int { if a <= b then a else b }

  /** `GuessNumber.on_execute`: the number is never changed, and only the
    * right guess touches the winner or ends the game. */
  function Guessed(g: Game, player: int, guess: int): (r: Game)
    ensures r.number == g.number
    ensures guess == g.number ==> r.winner == player && r.over
    ensures guess != g.number ==> r.winner == g.winner && r.over == g.over
  {
    if guess == g.number then g.(winner := player, over := true)
    else if guess < g.number then g.(lower := Max(guess, g.lower))
    else g.(upper := Min(guess, g.upper))
  }

  /** The right guess wins and ends the game and leaves the bounds; a wrong
    * guess keeps the number bracketed, only tightens the bounds, and
    * changes neither the winner nor whether the game is over. */
  lemma GuessOutcome(g: Game, player: int, guess: int)
    ensures var r := Guessed(g, player, guess);
            && r.number == g.number
            && (guess == g.number ==> r.winner == player && r.over && r.lower == g.lower && r.upper == g.upper)
            && (guess != g.number ==> r.winner == g.winner && r.over == g.over)
            && (guess != g.number && Bracketed(g) ==> Bracketed(r))
            && g.lower <= r.lower && r.upper <= g.upper
  {
  }

  /** A low guess moves only the lower bound and a high guess only the
    * upper one, each to the guess when the guess is tighter. */
  lemma WrongGuessBound(g: Game, player: int, guess: int)
    ensures guess < g.number ==> Guessed(g, player, guess) == g.(lower := Max(guess, g.lower))
    ensures guess > g.number ==> Guessed(g, player, guess) == g.(upper := Min(guess, g.upper))
  {
  }

  /** The number of candidates left between the bounds. */
  function Candidates(g: Game): int {
    g.upper - g.lower - 1
  }

  /** A wrong guess strictly between the bounds, as the AI draws them,
    * removes at least one candidate. */
  lemma InRangeGuessNarrows(g: Game, player: int, guess: int)
    requires Bracketed(g) && g.lower < guess < g.upper && guess != g.number
    ensures 0 <= Candidates(Guessed(g, player, guess)) < Candidates(g)
  {
  }

  /** Guesses played one after another; the game stops at the first right
    * guess. */
  function Play(g: Game, player: int, guesses: seq<int>): Game
    decreases |guesses|
  {
    if guesses == [] || g.over then g
    else Play(Guessed(g, player, guesses[0]), player, guesses[1..])
  }

  /** However the guesses go, the number stays bracketed and the bounds only
    * tighten, and once the right number is guessed the game is over and
    * won by the guesser. */
  lemma {:induction false} PlayKeepsBracket(g: Game, player: int, guesses: seq<int>)
    requires Bracketed(g)
    ensures var r := Play(g, player, guesses);
            && Bracketed(r) && r.number == g.number
            && g.lower <= r.lower && r.upper <= g.upper
            && (!g.over && g.number in guesses ==> r.over && r.winner == player)
    decreases |guesses|
  {
    if guesses != [] && !g.over {
      var next := Guessed(g, player, guesses[0]);
      GuessOutcome(g, player, guesses[0]);
      if guesses[0] != g.number {
        assert g.number in guesses ==> g.number in guesses[1..];
        PlayKeepsBracket(next, player, guesses[1..]);
      } else {
        assert Play(next, player, guesses[1..]) == next;
      }
    }
  }

  /** The world of the demo. */
  class World {
    var number: int
    var lowerBound: int
    var upperBound: int
    var winner: int
    var gameOver: bool

    constructor()
      ensures State() == Game(0, 0, 0, 0, false)
    {
      number, lowerBound, upperBound, winner := 0, 0, 0, 0;
      gameOver := false;
    }

    function State(): Game
      reads this
    {
      Game(number, lowerBound, upperBound, winner, gameOver)
    }

    /** `PickNumber.on_execute`. */
    method ExecutePick(m: PickNumber)
      modifies this
      ensures State() == Picked(old(State()), m)
    {
      number := m.number;
      lowerBound := m.lower;
      upperBound := m.upper;
    }

    /** `GuessNumber.on_execute`; `end_game` is reduced to the flag it
      * raises. */
    method ExecuteGuess(player: int, guess: int)
      modifies this
      ensures State() == Guessed(old(State()), player, guess)
    {
      if guess == number {
        winner := player;
        gameOver := true;
      } else if guess < number {
        lowerBound := Max(guess, lowerBound);
      } else if guess > number {
        upperBound := Min(guess, upperBound);
      }
    }
  }
}
