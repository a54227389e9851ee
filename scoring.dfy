/** Session lengths, the percent shown and saved, and the time-left display. */
module Scoring {

  /** The session lengths, in seconds, offered by the duration radio. */
  const DurationOptions: seq<int> := [60, 90, 120]

  /** The length a fresh session state starts with. */
  const DefaultDuration: int := 60

  predicate IsDurationOption(d: int)
  {
    d in DurationOptions
  }

  /** Percent correct: score / attempted * 100, and 0 while nothing was
      attempted, so that the guard keeps the division away from zero. */
  function Percent(score: int, attempted: int): (r: real)
    ensures attempted <= 0 ==> r == 0.0
    ensures attempted > 0 ==> r * attempted as real == 100.0 * score as real
    ensures 0 <= score <= attempted ==> 0.0 <= r <= 100.0
  {
    if attempted > 0 then
      var q := score as real / attempted as real;
      assert 0 <= score <= attempted ==> 0.0 <= q <= 1.0;
      q * 100.0
    else 0.0
  }

  /** Conversion of a float to an integer by truncation toward zero. */
  function Trunc(x: real): (n: int)
    ensures 0.0 <= x ==> 0 <= n && n as real <= x < n as real + 1.0
    ensures x < 0.0 ==> n <= 0 && x <= n as real < x + 1.0
  {
    if x >= 0.0 then x.Floor else -((-x).Floor)
  }

  /** The whole seconds left on the clock, as displayed while a session runs. */
  function TimeLeft(duration: int, elapsed: real): (r: int)
    ensures 0.0 <= elapsed < duration as real ==> 0 <= r <= duration
    ensures elapsed < duration as real ==> r as real <= duration as real - elapsed < r as real + 1.0
  {
    Trunc(duration as real - elapsed)
  }

  /** One line of the score file: date stamp, set name, session length,
      score, attempts and percent (kept as a number; its one-decimal text
      form is not modelled). */
  datatype ScoreRow = ScoreRow(date: string, setName: string, timeSeconds: int,
                               score: int, attempted: int, percent: real)
}
