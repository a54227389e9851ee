/** The drill's session state as an object whose fields each block of the
    script updates in place. Every method is proved against the function of
    module Session (or Script) that describes the same block. */
module Engine {
  import opened Options
  import opened Cards
  import opened Scoring
  import opened Session
  import opened Script

  class SessionState {
    var active: bool
    var score: int
    var attempted: int
    var startTime: Option<real>
    var duration: int
    var termList: seq<Card>
    var currentTerm: Option<string>
    var correctDef: string
    var shownDef: string
    var isTrue: bool

    /** The fields as a value of Session.State. */
    function Snapshot(): State
      reads this
    {
      State(active, score, attempted, startTime, duration, termList,
            currentTerm, correctDef, shownDef, isTrue)
    }

    predicate Valid()
      reads this
    {
      Inv(Snapshot())
    }

    /** The fields set up the first time the script runs. */
    constructor ()
      ensures Valid() && Snapshot() == Initial()
    {
      active := false;
      score := 0;
      attempted := 0;
      startTime := None;
      duration := DefaultDuration;
      termList := [];
      currentTerm := None;
      correctDef := "";
      shownDef := "";
      isTrue := true;
    }

    /** Start / Restart with the chosen set and length at time `now`. */
    method Start(cards: seq<Card>, d: int, now: real)
      requires Valid() && IsDurationOption(d)
      modifies this
      ensures Valid() && Snapshot() == Session.Start(old(Snapshot()), cards, d, now)
      ensures active && score == 0 && attempted == 0 && duration == d && termList == cards
      ensures currentTerm == old(currentTerm) && correctDef == old(correctDef)
      ensures shownDef == old(shownDef) && isTrue == old(isTrue)
    {
      active := true;
      score := 0;
      attempted := 0;
      startTime := Some(now);
      duration := d;
      termList := cards;
    }

    /** Draws a new card as the random choices `d` dictate. */
    method NextCard(d: Draw)
      requires ValidDraw(termList, d)
      modifies this
      ensures Snapshot() == Session.NextCard(old(Snapshot()), d)
      ensures old(Valid()) ==> Valid()
      ensures Card(currentTerm.value, correctDef) in termList && isTrue == d.isTrue
    {
      var card := termList[d.index];
      var shown := card.definition;
      if !d.isTrue {
        var wrong := WrongDefs(termList, card.term);
        shown := wrong[d.wrongIndex];
      }
      currentTerm := Some(card.term);
      correctDef := card.definition;
      shownDef := shown;
      isTrue := d.isTrue;
    }

    /** The lazy draw: a card is drawn only when there is none yet. */
    method DrawIfNone(d: Draw)
      requires Valid() && (currentTerm.None? ==> ValidDraw(termList, d))
      modifies this
      ensures Valid()
      ensures Snapshot() == if old(currentTerm).None? then Session.NextCard(old(Snapshot()), d)
                            else old(Snapshot())
    {
      if currentTerm.None? {
        NextCard(d);
      }
    }

    /** The True button: one more attempt, a point if the card is true,
        then a new card. Returns whether the judgement was right. */
    method AnswerTrue(d: Draw) returns (correct: bool)
      requires Valid() && ValidDraw(termList, d)
      modifies this
      ensures Valid() && Snapshot() == Answer(old(Snapshot()), true, d)
      ensures correct == old(isTrue)
      ensures attempted == old(attempted) + 1
      ensures score == if correct then old(score) + 1 else old(score)
    {
      correct := isTrue;
      attempted := attempted + 1;
      if isTrue {
        score := score + 1;
      }
      NextCard(d);
    }

    /** The False button: one more attempt, a point if the card is false,
        then a new card. Returns whether the judgement was right. */
    method AnswerFalse(d: Draw) returns (correct: bool)
      requires Valid() && ValidDraw(termList, d)
      modifies this
      ensures Valid() && Snapshot() == Answer(old(Snapshot()), false, d)
      ensures correct == !old(isTrue)
      ensures attempted == old(attempted) + 1
      ensures score == if correct then old(score) + 1 else old(score)
    {
      correct := !isTrue;
      attempted := attempted + 1;
      if !isTrue {
        score := score + 1;
      }
      NextCard(d);
    }

    /** The expiry check at time `now`; reports whether it ended the session. */
    method Tick(now: real) returns (expired: bool)
      requires Valid()
      modifies this
      ensures Valid() && Snapshot() == Expire(old(Snapshot()), now)
      ensures expired <==> old(active) && !active
      ensures score == old(score) && attempted == old(attempted)
      ensures currentTerm == old(currentTerm) && correctDef == old(correctDef)
      ensures shownDef == old(shownDef) && isTrue == old(isTrue)
    {
      expired := false;
      if active {
        var elapsed := now - startTime.value;
        if elapsed >= duration as real {
          active := false;
          expired := true;
        }
      }
    }

    /** The game logic of one run (expiry check, lazy draw, answer buttons,
        time-left display), as Script.GameLogic describes it. */
    method PlayStep(press: Press, now: real, lazy: Draw, next: Draw)
      returns (expired: bool, percentShown: Option<real>, timeLeft: Option<int>, display: Option<Card>)
      requires Valid() && DrawsOk(Snapshot(), press, now, lazy, next)
      modifies this
      ensures Valid()
      ensures var o := GameLogic(old(Snapshot()), press, now, lazy, next);
              Snapshot() == o.state && expired == o.saveOffered &&
              percentShown == o.percentShown && timeLeft == o.timeLeft && display == o.display
    {
      ghost var s0 := Snapshot();
      expired, percentShown, timeLeft, display := false, None, None, None;
      if active {
        expired := Tick(now);
        if expired {
          percentShown := Some(Percent(score, attempted));
        } else {
          var elapsed := now - startTime.value;
          DrawIfNone(lazy);
          display := Some(Card(currentTerm.value, shownDef));
          ghost var shown := Snapshot();
          assert shown.termList == s0.termList;
          if press == TruePress {
            var _ := AnswerTrue(next);
          } else if press == FalsePress {
            var _ := AnswerFalse(next);
          }
          timeLeft := Some(TimeLeft(duration, elapsed));
        }
      }
    }

    /** One run of the corrected script (Script.FixedPass): the Save button
        is offered whenever a session is finished, and the page shows the
        card held after the answer buttons are handled. The Start block
        reads the clock as `startNow`, the game logic later as `now`. Returns
        what the run shows and the row it saves; appending that row to the
        score file is not modelled. */
    method RunPass(press: Press, ui: Sidebar, startNow: real, now: real, stamp: string, lazy: Draw, next: Draw)
      returns (saveOffered: bool, saved: Option<ScoreRow>, percentShown: Option<real>, timeLeft: Option<int>,
               display: Option<Card>)
      requires Valid() && SidebarOk(ui)
      requires DrawsOk(StartBlock(Snapshot(), press, ui, startNow), press, now, lazy, next)
      modifies this
      ensures Valid()
      ensures var o := FixedPass(old(Snapshot()), press, ui, startNow, now, stamp, lazy, next);
              Snapshot() == o.state && saveOffered == o.saveOffered && saved == o.saved &&
              percentShown == o.percentShown && timeLeft == o.timeLeft && display == o.display
    {
      if press == StartPress {
        Start(ui.sets[ui.selected], ui.duration, startNow);
      }
      saved := None;
      if press == SavePress && !active && startTime.Some? {
        saved := Some(BuildRow(Snapshot(), stamp, ui.selected));
      }
      var expired;
      expired, percentShown, timeLeft, display := PlayStep(press, now, lazy, next);
      if display.Some? {
        display := Some(Card(currentTerm.value, shownDef));
      }
      saveOffered := !active && startTime.Some?;
    }
  }
}
