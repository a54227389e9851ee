/** One run of the drill script, top to bottom: the Start block, then the
    game logic (expiry check, lazy card draw, answer buttons, time-left
    display), and the score-saving button. At most one button is pressed
    per run. */
module Script {
  import opened Options
  import opened Cards
  import opened Scoring
  import opened Session

  /** The button whose click caused this run, if any. */
  datatype Press = NoPress | StartPress | TruePress | FalsePress | SavePress

  predicate IsAnswer(p: Press)
  {
    p == TruePress || p == FalsePress
  }

  /** The sidebar: the loaded study sets by name, the set chosen in the
      select box and the length chosen on the radio. */
  datatype Sidebar = Sidebar(sets: map<string, seq<Card>>, selected: string, duration: int)

  /** The select box offers only loaded set names; the radio only the offered lengths. */
  predicate SidebarOk(ui: Sidebar)
  {
    ui.selected in ui.sets && IsDurationOption(ui.duration)
  }

  /** What one run leaves behind: the new state, whether the Save button was
      put on screen, the row saved (if any), the percent announced when the
      session completes, the seconds-left display while it runs, and the
      term and definition the page shows while it runs. */
  datatype Outcome = Outcome(state: State, saveOffered: bool, saved: Option<ScoreRow>,
                             percentShown: Option<real>, timeLeft: Option<int>,
                             display: Option<Card>)

  /** The term and the shown definition of the card a state holds. */
  function CardShown(s: State): (c: Card)
    requires s.currentTerm.Some?
    ensures c.term == s.currentTerm.value && c.definition == s.shownDef
  {
    Card(s.currentTerm.value, s.shownDef)
  }

  /** A session has been started and is over. */
  predicate Finished(s: State)
  {
    !s.active && s.startTime.Some?
  }

  /** The Start block: a click on Start / Restart, at clock reading
      `startNow`, installs the chosen set and length. */
  function StartBlock(s: State, press: Press, ui: Sidebar, startNow: real): (r: State)
    requires Inv(s) && SidebarOk(ui)
    ensures Inv(r)
    ensures press != StartPress ==> r == s
    ensures press == StartPress ==>
              r.active && r.score == 0 && r.attempted == 0 && r.startTime == Some(startNow) &&
              r.duration == ui.duration && r.termList == ui.sets[ui.selected] && SameCard(r, s)
  {
    if press == StartPress then Start(s, ui.sets[ui.selected], ui.duration, startNow) else s
  }

  /** The random draws are made only from lists that are not empty: the lazy
      draw when a running session has no card yet, the answer draw when a
      running session receives an answer. */
  predicate DrawsOk(s0: State, press: Press, now: real, lazy: Draw, next: Draw)
  {
    (Running(s0, now) && s0.currentTerm.None? ==> ValidDraw(s0.termList, lazy)) &&
    (Running(s0, now) && IsAnswer(press) ==> ValidDraw(s0.termList, next))
  }

  /** The game logic of one run on the state `s0` left by the Start block. */
  function GameLogic(s0: State, press: Press, now: real, lazy: Draw, next: Draw): (o: Outcome)
    requires Inv(s0) && DrawsOk(s0, press, now, lazy, next)
    ensures Inv(o.state) && o.saved == None
    ensures o.state.termList == s0.termList && o.state.duration == s0.duration
    ensures o.state.startTime == s0.startTime
    // an answer is applied only while the session runs; otherwise only expiry happens
    ensures !Running(s0, now) ==> o.state == Expire(s0, now) && o.timeLeft == None && o.display == None
    ensures Running(s0, now) ==>
              o.state.active && o.state.currentTerm.Some? &&
              o.state.attempted == s0.attempted + (if IsAnswer(press) then 1 else 0)
    ensures o.saveOffered <==> s0.active && !Running(s0, now)
    ensures o.saveOffered ==> !o.state.active
    ensures o.percentShown.Some? <==> o.saveOffered
    ensures o.percentShown.Some? ==> 0.0 <= o.percentShown.value <= 100.0
    ensures Running(s0, now) && s0.startTime.value <= now ==>
              o.timeLeft.Some? && 0 <= o.timeLeft.value <= s0.duration
    ensures Running(s0, now) ==> o.timeLeft == Some(TimeLeft(s0.duration, now - s0.startTime.value))
    ensures o.percentShown.Some? ==> o.percentShown.value == Percent(s0.score, s0.attempted)
    // the score moves by the judgement of the card the state holds (drawn lazily if there was none)
    ensures Running(s0, now) ==>
              var c := if s0.currentTerm.None? then NextCard(s0, lazy) else s0;
              o.state.score == s0.score + (if IsAnswer(press) && (press == TruePress) == c.isTrue then 1 else 0)
    // without an answer the card is kept, or drawn lazily when there was none
    ensures Running(s0, now) && !IsAnswer(press) ==>
              o.state == (if s0.currentTerm.None? then NextCard(s0, lazy) else s0)
    // an answer replaces the card with the one the `next` draw picks from the set
    ensures Running(s0, now) && IsAnswer(press) ==>
              o.state.isTrue == next.isTrue &&
              Card(o.state.currentTerm.value, o.state.correctDef) in s0.termList &&
              (!o.state.isTrue ==>
                 exists k :: 0 <= k < |s0.termList| && s0.termList[k].term != o.state.currentTerm.value &&
                             s0.termList[k].definition == o.state.shownDef)
    // the page shows the card as it was before the answer buttons are handled
    ensures Running(s0, now) ==>
              var c := if s0.currentTerm.None? then NextCard(s0, lazy) else s0;
              o.display == Some(CardShown(c))
  {
    if !s0.active then Outcome(s0, false, None, None, None, None)
    else
      var elapsed := now - s0.startTime.value;
      if elapsed >= s0.duration as real then
        var done := s0.(active := false);
        Outcome(done, true, None, Some(Percent(done.score, done.attempted)), None, None)
      else
        var shown := if s0.currentTerm.None? then NextCard(s0, lazy) else s0;
        var after := if press == TruePress then Answer(shown, true, next)
                     else if press == FalsePress then Answer(shown, false, next)
                     else shown;
        Outcome(after, false, None, None, Some(TimeLeft(after.duration, elapsed)), Some(CardShown(shown)))
  }

  /** The run as the script is written: the Save button is drawn, and its
      click looked at, only inside the branch where an active session expires. */
  function WrittenPass(s: State, press: Press, ui: Sidebar, startNow: real, now: real, stamp: string,
                       lazy: Draw, next: Draw): (o: Outcome)
    requires Inv(s) && SidebarOk(ui)
    requires DrawsOk(StartBlock(s, press, ui, startNow), press, now, lazy, next)
    ensures Inv(o.state)
    ensures o.saved.Some? ==> press == SavePress && s.active
    ensures o.saveOffered ==> !o.state.active
    // the state and what the page shows are those of the game logic after the Start block
    ensures var m := GameLogic(StartBlock(s, press, ui, startNow), press, now, lazy, next);
            o.state == m.state && o.saveOffered == m.saveOffered && o.percentShown == m.percentShown &&
            o.timeLeft == m.timeLeft && o.display == m.display
    // a row is saved exactly when Save is clicked in a run that offers it
    ensures o.saved.Some? <==> press == SavePress && o.saveOffered
    ensures o.saved.Some? ==> o.saved.value == BuildRow(o.state, stamp, ui.selected)
  {
    var s0 := StartBlock(s, press, ui, startNow);
    var m := GameLogic(s0, press, now, lazy, next);
    if m.saveOffered && press == SavePress then
      m.(saved := Some(BuildRow(m.state, stamp, ui.selected)))
    else m
  }

  /** As written, the Save button never saves: it is offered only by the run
      that ends the session, and the run its click causes starts with the
      session already inactive, so the branch holding the button is skipped. */
  lemma SaveNeverRuns(s: State, press: Press, ui: Sidebar, startNow: real, now: real, stamp: string,
                      lazy: Draw, next: Draw,
                      ui2: Sidebar, startNow2: real, now2: real, stamp2: string, lazy2: Draw, next2: Draw)
    requires Inv(s) && SidebarOk(ui) && SidebarOk(ui2)
    requires DrawsOk(StartBlock(s, press, ui, startNow), press, now, lazy, next)
    requires WrittenPass(s, press, ui, startNow, now, stamp, lazy, next).saveOffered
    ensures var o1 := WrittenPass(s, press, ui, startNow, now, stamp, lazy, next);
            DrawsOk(StartBlock(o1.state, SavePress, ui2, startNow2), SavePress, now2, lazy2, next2) &&
            WrittenPass(o1.state, SavePress, ui2, startNow2, now2, stamp2, lazy2, next2).saved == None
  {
  }

  /** The corrected run. The Save button is drawn whenever a session is
      finished, so that its click reaches the save, and the term and
      definition are put on the page after the answer buttons are handled,
      so that the page shows the card the next click is scored against. The
      state changes are those of the script as written. */
  function FixedPass(s: State, press: Press, ui: Sidebar, startNow: real, now: real, stamp: string,
                     lazy: Draw, next: Draw): (o: Outcome)
    requires Inv(s) && SidebarOk(ui)
    requires DrawsOk(StartBlock(s, press, ui, startNow), press, now, lazy, next)
    ensures Inv(o.state)
    ensures o.state == WrittenPass(s, press, ui, startNow, now, stamp, lazy, next).state
    ensures o.timeLeft == WrittenPass(s, press, ui, startNow, now, stamp, lazy, next).timeLeft
    ensures o.percentShown == WrittenPass(s, press, ui, startNow, now, stamp, lazy, next).percentShown
    ensures WrittenPass(s, press, ui, startNow, now, stamp, lazy, next).saveOffered ==> o.saveOffered
    ensures o.saveOffered <==> Finished(o.state)
    ensures o.saved.Some? <==> press == SavePress && Finished(s)
    ensures o.display.Some? <==> WrittenPass(s, press, ui, startNow, now, stamp, lazy, next).display.Some?
    ensures o.display.Some? ==> o.state.currentTerm.Some? && o.display == Some(CardShown(o.state))
    ensures o.saved.Some? ==> o.saved.value == BuildRow(s, stamp, ui.selected)
  {
    var s0 := StartBlock(s, press, ui, startNow);
    var saved := if press == SavePress && Finished(s0) then Some(BuildRow(s0, stamp, ui.selected)) else None;
    var m := GameLogic(s0, press, now, lazy, next);
    var display := if Running(s0, now) then Some(CardShown(m.state)) else None;
    m.(saveOffered := Finished(m.state), saved := saved, display := display)
  }

  /** Corrected: after a run that offers the Save button, clicking it saves
      the finished session's row and changes nothing else. */
  lemma FixedSaveRecordsSession(s: State, press: Press, ui: Sidebar, startNow: real, now: real, stamp: string,
                                lazy: Draw, next: Draw,
                                ui2: Sidebar, startNow2: real, now2: real, stamp2: string, lazy2: Draw, next2: Draw)
    requires Inv(s) && SidebarOk(ui) && SidebarOk(ui2)
    requires DrawsOk(StartBlock(s, press, ui, startNow), press, now, lazy, next)
    requires FixedPass(s, press, ui, startNow, now, stamp, lazy, next).saveOffered
    ensures var o1 := FixedPass(s, press, ui, startNow, now, stamp, lazy, next);
            DrawsOk(StartBlock(o1.state, SavePress, ui2, startNow2), SavePress, now2, lazy2, next2) &&
            var o2 := FixedPass(o1.state, SavePress, ui2, startNow2, now2, stamp2, lazy2, next2);
            o2.state == o1.state && o2.saved.Some? &&
            o2.saved.value.score == o1.state.score &&
            o2.saved.value.attempted == o1.state.attempted &&
            o2.saved.value.timeSeconds == o1.state.duration &&
            o2.saved.value.percent == Percent(o1.state.score, o1.state.attempted) &&
            0.0 <= o2.saved.value.percent <= 100.0
  {
  }

  /** As written, the page shows the card as it was before the answer
      buttons are handled, and nothing redraws it after `next_card`. In the
      set (A, x), (B, y), a True click on the true card A / x scores a point
      and stores the false card B / x, yet the page still shows A / x. A True
      click on that A / x, a true pairing of the set, then scores nothing:
      it is judged against the stored B / x, which the learner never saw. */
  lemma AnswerScoredAgainstUnseenCard()
    ensures var cards := [Card("A", "x"), Card("B", "y")];
            var ui := Sidebar(map["S" := cards], "S", 60);
            var o0 := WrittenPass(Initial(), StartPress, ui, 0.0, 0.0, "", Draw(0, true, 0), Draw(0, true, 0));
            var o1 := WrittenPass(o0.state, TruePress, ui, 1.0, 1.0, "", Draw(0, true, 0), Draw(1, false, 0));
            var o2 := WrittenPass(o1.state, TruePress, ui, 2.0, 2.0, "", Draw(0, true, 0), Draw(0, true, 0));
            o0.display == Some(Card("A", "x")) && o1.state.score == 1 &&
            o1.display == Some(Card("A", "x")) && Card("A", "x") in cards &&
            CardShown(o1.state) == Card("B", "x") && !o1.state.isTrue &&
            o2.state.attempted == 2 && o2.state.score == 1
  {
  }

  /** Corrected, the page after a running run shows the card the state
      holds, and the next True or False click is scored by that card's
      truth flag. */
  lemma FixedAnswerScoredAgainstShownCard(s: State, press: Press, ui: Sidebar, startNow: real, now: real,
                                          stamp: string, lazy: Draw, next: Draw,
                                          press2: Press, ui2: Sidebar, now2: real, stamp2: string,
                                          lazy2: Draw, next2: Draw)
    requires Inv(s) && SidebarOk(ui) && SidebarOk(ui2) && IsAnswer(press2)
    requires DrawsOk(StartBlock(s, press, ui, startNow), press, now, lazy, next)
    requires FixedPass(s, press, ui, startNow, now, stamp, lazy, next).display.Some?
    requires Running(FixedPass(s, press, ui, startNow, now, stamp, lazy, next).state, now2)
    requires ValidDraw(FixedPass(s, press, ui, startNow, now, stamp, lazy, next).state.termList, next2)
    ensures var o1 := FixedPass(s, press, ui, startNow, now, stamp, lazy, next);
            o1.state.currentTerm.Some? && o1.display == Some(CardShown(o1.state)) &&
            DrawsOk(StartBlock(o1.state, press2, ui2, now2), press2, now2, lazy2, next2) &&
            var o2 := FixedPass(o1.state, press2, ui2, now2, now2, stamp2, lazy2, next2);
            o2.state.attempted == o1.state.attempted + 1 &&
            o2.state.score == o1.state.score + (if (press2 == TruePress) == o1.state.isTrue then 1 else 0)
  {
  }

  /** Once the time is up, a click on True or False only ends the session. */
  lemma AnswerIgnoredOnceExpired(s: State, press: Press, ui: Sidebar, startNow: real, now: real, stamp: string,
                                 lazy: Draw, next: Draw)
    requires Inv(s) && SidebarOk(ui) && IsAnswer(press)
    requires s.active && now - s.startTime.value >= s.duration as real
    ensures DrawsOk(StartBlock(s, press, ui, startNow), press, now, lazy, next)
    ensures WrittenPass(s, press, ui, startNow, now, stamp, lazy, next).state == s.(active := false)
  {
  }

  /** The Start block and the game logic read the clock separately, the
      game logic later: a 60-second session started with a gap of less than
      a second between the two readings shows 59 seconds left, and only 60
      when the readings coincide. A run 61 seconds later finds it complete. */
  lemma SixtySecondSession(startNow: real, now: real)
    requires startNow <= now < startNow + 1.0
    ensures var ui := Sidebar(map["Section C" := [Card("A", "x"), Card("B", "y")]], "Section C", 60);
            var o1 := WrittenPass(Initial(), StartPress, ui, startNow, now, "", Draw(0, true, 0), Draw(0, true, 0));
            o1.timeLeft == Some(if now == startNow then 60 else 59) &&
            var o2 := WrittenPass(o1.state, NoPress, ui, now + 61.0, now + 61.0, "", Draw(0, true, 0), Draw(0, true, 0));
            !o2.state.active && o2.saveOffered
  {
  }
}
