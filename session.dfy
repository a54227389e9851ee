/** The session state of the drill as a value, and each block of the script
    that changes it as a function from the old state to the new one. */
module Session {
  import opened Options
  import opened Cards
  import opened Scoring

  /** Everything the drill keeps between script runs. */
  datatype State = State(
    active: bool,
    score: int,
    attempted: int,
    startTime: Option<real>,
    duration: int,
    termList: seq<Card>,
    currentTerm: Option<string>,
    correctDef: string,
    shownDef: string,
    isTrue: bool)

  /** What holds of every state the drill can reach. */
  predicate Inv(s: State)
  {
    0 <= s.score <= s.attempted &&
    IsDurationOption(s.duration) &&
    (s.active ==> s.startTime.Some?) &&
    (s.isTrue ==> s.shownDef == s.correctDef)
  }

  /** The card held is the same in both states. */
  predicate SameCard(a: State, b: State)
  {
    a.currentTerm == b.currentTerm && a.correctDef == b.correctDef &&
    a.shownDef == b.shownDef && a.isTrue == b.isTrue
  }

  /** The state set up the first time the script runs: idle, no attempts,
      a 60-second default, an empty set and no card. */
  function Initial(): (s: State)
    ensures Inv(s)
    ensures !s.active && s.score == 0 && s.attempted == 0 && s.startTime == None
    ensures s.duration == DefaultDuration && s.termList == [] && s.currentTerm == None
    ensures s.correctDef == "" && s.shownDef == "" && s.isTrue
  {
    State(false, 0, 0, None, DefaultDuration, [], None, "", "", true)
  }

  /** Start / Restart: counters reset, the clock starts, the chosen length
      and set are installed. The card the session holds is left as it was. */
  function Start(s: State, cards: seq<Card>, d: int, now: real): (r: State)
    requires Inv(s) && IsDurationOption(d)
    ensures Inv(r)
    ensures r.active && r.score == 0 && r.attempted == 0 && r.startTime == Some(now)
    ensures r.duration == d && r.termList == cards
    ensures SameCard(r, s)
  {
    s.(active := true, score := 0, attempted := 0, startTime := Some(now),
       duration := d, termList := cards)
  }

  /** Draws the next card from the current set. The shown definition is the
      entry's own one for a true item and one of another term's for a false
      item; nothing but the card changes. */
  function NextCard(s: State, d: Draw): (r: State)
    requires ValidDraw(s.termList, d)
    ensures r.currentTerm.Some? && Card(r.currentTerm.value, r.correctDef) in s.termList
    ensures r.isTrue == d.isTrue
    ensures r.isTrue ==> r.shownDef == r.correctDef
    ensures !r.isTrue ==>
              exists k :: 0 <= k < |s.termList| && s.termList[k].term != r.currentTerm.value &&
                          s.termList[k].definition == r.shownDef
    ensures r == s.(currentTerm := r.currentTerm, correctDef := r.correctDef,
                    shownDef := r.shownDef, isTrue := r.isTrue)
    ensures Inv(s) ==> Inv(r)
  {
    var card := s.termList[d.index];
    var wrong := WrongDefs(s.termList, card.term);
    var shown := if d.isTrue then card.definition
                 else assert wrong[d.wrongIndex] in wrong; wrong[d.wrongIndex];
    s.(currentTerm := Some(card.term), correctDef := card.definition,
       shownDef := shown, isTrue := d.isTrue)
  }

  /** A judgement of the card the session holds ("True" when `saysTrue`): one more
      attempt, one more point exactly when the judgement agrees with the
      card's truth flag, then a new card. */
  function Answer(s: State, saysTrue: bool, d: Draw): (r: State)
    requires Inv(s) && ValidDraw(s.termList, d)
    ensures Inv(r)
    ensures r.attempted == s.attempted + 1
    ensures saysTrue == s.isTrue ==> r.score == s.score + 1
    ensures saysTrue != s.isTrue ==> r.score == s.score
    ensures r.active == s.active && r.startTime == s.startTime
    ensures r.duration == s.duration && r.termList == s.termList
    ensures r.isTrue == d.isTrue && r.currentTerm.Some?
    ensures Card(r.currentTerm.value, r.correctDef) in s.termList
  {
    var judged := s.(attempted := s.attempted + 1,
                     score := if saysTrue == s.isTrue then s.score + 1 else s.score);
    NextCard(judged, d)
  }

  /** The session is running at `now`: started and its time not used up. */
  predicate Running(s: State, now: real)
  {
    s.active && s.startTime.Some? && now - s.startTime.value < s.duration as real
  }

  /** The expiry check: an active session whose elapsed time has reached
      its length stops; nothing else changes. */
  function Expire(s: State, now: real): (r: State)
    requires Inv(s)
    ensures Inv(r)
    ensures r.active <==> Running(s, now)
    ensures r == s.(active := r.active)
  {
    if s.active && now - s.startTime.value >= s.duration as real then s.(active := false) else s
  }

  /** The row that saving a score appends: the date stamp, the set chosen in
      the sidebar, and the session's length, score, attempts and percent. */
  function BuildRow(s: State, stamp: string, selected: string): (r: ScoreRow)
    ensures r.date == stamp && r.setName == selected && r.timeSeconds == s.duration
    ensures r.score == s.score && r.attempted == s.attempted
    ensures r.percent == Percent(s.score, s.attempted)
    ensures r.attempted == 0 ==> r.percent == 0.0
    ensures Inv(s) ==> IsDurationOption(r.timeSeconds) && 0 <= r.score <= r.attempted &&
                       0.0 <= r.percent <= 100.0
  {
    ScoreRow(stamp, selected, s.duration, s.score, s.attempted, Percent(s.score, s.attempted))
  }

  // ----- Sequences of answers -----

  /** One press of True or False, with the draw for the card that follows. */
  datatype Reply = Reply(saysTrue: bool, draw: Draw)

  /** The replies that agree with the truth flag of the card they judge,
      when the first card's flag is `truth` and every later card's flag is
      the one its draw picked. */
  function CountCorrect(truth: bool, rs: seq<Reply>): (n: nat)
    ensures n <= |rs|
    decreases |rs|
  {
    if rs == [] then 0
    else (if rs[0].saysTrue == truth then 1 else 0) + CountCorrect(rs[0].draw.isTrue, rs[1..])
  }

  /** The state after answering once per reply, in order. */
  function AnswerAll(s: State, rs: seq<Reply>): (r: State)
    requires Inv(s)
    requires forall k :: 0 <= k < |rs| ==> ValidDraw(s.termList, rs[k].draw)
    ensures Inv(r) && r.termList == s.termList
    decreases |rs|
  {
    if rs == [] then s
    else AnswerAll(Answer(s, rs[0].saysTrue, rs[0].draw), rs[1..])
  }

  /** After any sequence of answers, `attempted` has grown by the number of
      answers and `score` by the number that agreed with the card judged. */
  lemma {:induction false} AnswerAllCounts(s: State, rs: seq<Reply>)
    requires Inv(s)
    requires forall k :: 0 <= k < |rs| ==> ValidDraw(s.termList, rs[k].draw)
    ensures AnswerAll(s, rs).attempted == s.attempted + |rs|
    ensures AnswerAll(s, rs).score == s.score + CountCorrect(s.isTrue, rs)
    decreases |rs|
  {
    if rs != [] {
      var next := Answer(s, rs[0].saysTrue, rs[0].draw);
      AnswerAllCounts(next, rs[1..]);
    }
  }

  /** With duplicate definitions, a false item can show the correct text. */
  lemma FalseItemMayShowCorrectText()
    ensures var s := Start(Initial(), [Card("A", "x"), Card("B", "x")], 60, 0.0);
            var r := NextCard(s, Draw(0, false, 0));
            !r.isTrue && r.shownDef == r.correctDef
  {
  }
}
