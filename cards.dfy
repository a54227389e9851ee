/** A small Option type for the values the drill keeps as "maybe absent"
    (no start time yet, no current term yet, no row saved). */
module Options {
  datatype Option<+T> = None | Some(value: T)
}

/** Study sets and the random draw of one true/false item from a set. */
module Cards {

  /** One row of a study set: a term and its definition. */
  datatype Card = Card(term: string, definition: string)

  /** The candidate "wrong" definitions for `term`: the definitions of every
      entry whose term differs, in set order. Entries are filtered by term,
      not by definition text, so a candidate may read exactly like the
      correct definition. */
  function WrongDefs(cards: seq<Card>, term: string): (r: seq<string>)
    ensures |r| <= |cards|
    ensures forall d :: d in r ==>
              exists k :: 0 <= k < |cards| && cards[k].term != term && cards[k].definition == d
    decreases |cards|
  {
    if cards == [] then []
    else
      var rest := WrongDefs(cards[1..], term);
      assert forall d :: d in rest ==>
               exists k :: 1 <= k < |cards| && cards[k].term != term && cards[k].definition == d by {
        forall d | d in rest
          ensures exists k :: 1 <= k < |cards| && cards[k].term != term && cards[k].definition == d
        {
          var k' :| 0 <= k' < |cards[1..]| && cards[1..][k'].term != term && cards[1..][k'].definition == d;
          assert cards[k' + 1] == cards[1..][k'];
        }
      }
      (if cards[0].term != term then [cards[0].definition] else []) + rest
  }

  /** Every entry with a different term contributes its definition. */
  lemma {:induction false} WrongDefsComplete(cards: seq<Card>, term: string, k: nat)
    requires k < |cards| && cards[k].term != term
    ensures cards[k].definition in WrongDefs(cards, term)
  {
    if k > 0 {
      assert cards[1..][k - 1] == cards[k];
      WrongDefsComplete(cards[1..], term, k - 1);
    }
  }

  /** A wrong definition can be drawn exactly when some entry has another term. */
  lemma WrongDefsNonEmpty(cards: seq<Card>, term: string)
    ensures WrongDefs(cards, term) != [] <==>
            exists k :: 0 <= k < |cards| && cards[k].term != term
  {
    var r := WrongDefs(cards, term);
    if r != [] {
      assert r[0] in r;
    }
    if exists k :: 0 <= k < |cards| && cards[k].term != term {
      var k :| 0 <= k < |cards| && cards[k].term != term;
      WrongDefsComplete(cards, term, k);
    }
  }

  /** The outcome of the three random choices behind one card: the entry
      picked from the set, the truth flag, and (used only when the flag is
      false) the position picked among the wrong definitions. */
  datatype Draw = Draw(index: nat, isTrue: bool, wrongIndex: nat)

  /** The draws for which no random choice is made from an empty list. */
  predicate ValidDraw(cards: seq<Card>, d: Draw)
  {
    d.index < |cards| &&
    (!d.isTrue ==> d.wrongIndex < |WrongDefs(cards, cards[d.index].term)|)
  }

  /** A draw can pick a false item for entry `i` exactly when some entry of
      the set carries a different term. */
  lemma FalseDrawPossible(cards: seq<Card>, i: nat)
    requires i < |cards|
    ensures (exists j: nat :: ValidDraw(cards, Draw(i, false, j))) <==>
            (exists k :: 0 <= k < |cards| && cards[k].term != cards[i].term)
  {
    WrongDefsNonEmpty(cards, cards[i].term);
    if WrongDefs(cards, cards[i].term) != [] {
      assert ValidDraw(cards, Draw(i, false, 0));
    }
  }

  /** The worked example: the definitions other than term "A"'s. */
  lemma WrongDefsExample()
    ensures WrongDefs([Card("A", "x"), Card("B", "y"), Card("C", "x")], "A") == ["y", "x"]
  {
  }
}
