/** The transitions of the memory game: a tap on a card (gated), the flip it
    performs, and the resolution of a pending pair that the flip schedules.
    The delay before a resolution is not modelled: a flip reports the pair it
    scheduled, and the caller applies Resolve to whatever state is current
    when the delay has elapsed. */
module Game {
  import opened Cards

  /** The two cards a flip captured when they became the pending pair, in
      list order. Their ids and values are fixed at capture time. */
  datatype Pair = Pair(first: Card, second: Card)

  /** What one synchronous call publishes: the new snapshot, and the
      resolution it scheduled, if any. */
  datatype Outcome = Outcome(state: GameState, scheduled: Option<Pair>)

  /** The card list after tapping `cardId`: every card with that id turns
      over, every other card is left as it was. */
  function ToggleCard(cs: seq<Card>, cardId: int): (r: seq<Card>)
    ensures |r| == |cs|
    ensures forall i :: 0 <= i < |cs| ==>
              && r[i].id == cs[i].id
              && r[i].value == cs[i].value
              && r[i].isMatched == cs[i].isMatched
              && (r[i].isFlipped != cs[i].isFlipped <==> cs[i].id == cardId)
  {
    seq(|cs|, i requires 0 <= i < |cs| =>
      if cs[i].id == cardId then cs[i].(isFlipped := !cs[i].isFlipped) else cs[i])
  }

  /** Tapping the same id twice restores the card list: a second tap on a
      face-up card is an undo. */
  lemma ToggleTwiceRestores(cs: seq<Card>, cardId: int)
    ensures ToggleCard(ToggleCard(cs, cardId), cardId) == cs
  {
  }

  /** `flipCard`, synchronous part. Only the cards with the tapped id change,
      and only in `isFlipped`; the list keeps its length and order; one move
      is counted; completion is untouched. The gate is open exactly when fewer
      than two cards are now face up and unmatched, and a resolution is
      scheduled exactly when two are (see FlipClosesGate, FlipSchedulesPair). */
  function FlipCard(s: GameState, cardId: int): (o: Outcome)
    ensures |o.state.cards| == |s.cards|
    ensures forall i :: 0 <= i < |s.cards| && s.cards[i].id != cardId ==> o.state.cards[i] == s.cards[i]
    ensures forall i :: 0 <= i < |s.cards| && s.cards[i].id == cardId ==>
              o.state.cards[i] == s.cards[i].(isFlipped := !s.cards[i].isFlipped)
    ensures o.state.moves == s.moves + 1
    ensures o.state.isGameComplete == s.isGameComplete
  {
    var updated := ToggleCard(s.cards, cardId);
    var flippedUnmatched := FlippedUnmatched(updated);
    var next := s.(cards := updated, canFlipCard := |flippedUnmatched| < 2, moves := s.moves + 1);
    if |flippedUnmatched| == 2 then
      Outcome(next, Some(Pair(flippedUnmatched[0], flippedUnmatched[1])))
    else
      Outcome(next, None)
  }

  /** After a flip the gate is open exactly when no two cards are face up and
      unmatched. */
  lemma FlipClosesGate(s: GameState, cardId: int)
    ensures FlipCard(s, cardId).state.canFlipCard <==> !HasTwoFaceUp(FlipCard(s, cardId).state.cards)
  {
    TwoFaceUpIffCount(FlipCard(s, cardId).state.cards);
  }

  /** A flip schedules a resolution exactly when it leaves a pending pair, and
      the scheduled pair is that pair's two cards in list order. */
  lemma FlipSchedulesPair(s: GameState, cardId: int)
    ensures var o := FlipCard(s, cardId);
            o.scheduled.Some? <==> exists i, j :: PendingAt(o.state.cards, i, j)
    ensures var o := FlipCard(s, cardId);
            forall i, j :: PendingAt(o.state.cards, i, j) ==>
              o.scheduled == Some(Pair(o.state.cards[i], o.state.cards[j]))
  {
    var cs := FlipCard(s, cardId).state.cards;
    if |FlippedUnmatched(cs)| == 2 {
      CountTwoIsPending(cs);
    }
    forall i, j | PendingAt(cs, i, j)
      ensures FlipCard(s, cardId).scheduled == Some(Pair(cs[i], cs[j]))
    {
      PendingPairFilters(cs, i, j);
    }
  }

  /** The tap on `cardId` is dropped: the gate is closed, the game is over,
      no card has that id, or the first card with that id is already matched. */
  ghost predicate Ignored(s: GameState, cardId: int) {
    || !s.canFlipCard
    || s.isGameComplete
    || (forall i :: 0 <= i < |s.cards| ==> s.cards[i].id != cardId)
    || (exists i :: FirstWithId(s.cards, cardId, i) && s.cards[i].isMatched)
  }

  /** `onCardClick`: an ignored tap changes nothing and schedules nothing;
      any other tap is a flip, and so counts one move. */
  function OnCardClick(s: GameState, cardId: int): (o: Outcome)
    ensures Ignored(s, cardId) ==> o == Outcome(s, None)
    ensures !Ignored(s, cardId) ==> o == FlipCard(s, cardId)
    ensures o.state.moves == s.moves + 1 <==> !Ignored(s, cardId)
  {
    if !s.canFlipCard || s.isGameComplete then Outcome(s, None)
    else match FindCard(s.cards, cardId)
      case None => Outcome(s, None)
      case Some(card) => if card.isMatched then Outcome(s, None) else FlipCard(s, cardId)
  }

  /** No two cards share an id. */
  ghost predicate DistinctIds(cs: seq<Card>) {
    forall i, j :: 0 <= i < j < |cs| ==> cs[i].id != cs[j].id
  }

  /** The gated entry point keeps the face-up unmatched cards at two or fewer:
      from a state with at most two, and fewer than two while the gate is open,
      a tap leaves at most two, leaves the gate open only below two, and
      schedules a resolution exactly when it leaves two. */
  lemma ClickKeepsAtMostTwo(s: GameState, cardId: int)
    requires DistinctIds(s.cards)
    requires |FlippedUnmatched(s.cards)| <= 2
    requires s.canFlipCard ==> |FlippedUnmatched(s.cards)| < 2
    ensures var o := OnCardClick(s, cardId);
            && |FlippedUnmatched(o.state.cards)| <= 2
            && (o.state.canFlipCard ==> |FlippedUnmatched(o.state.cards)| < 2)
    ensures var o := OnCardClick(s, cardId);
            !Ignored(s, cardId) ==> (o.scheduled.Some? <==> |FlippedUnmatched(o.state.cards)| == 2)
  {
    if !Ignored(s, cardId) {
      var k :| 0 <= k < |s.cards| && s.cards[k].id == cardId;
      OneChangeAddsAtMostOne(s.cards, FlipCard(s, cardId).state.cards, k);
    }
  }

  /** The card list after resolving the pair with ids `firstId`, `secondId`:
      a match locks both cards face up, a mismatch turns both face down. */
  function ResolveCards(cs: seq<Card>, firstId: int, secondId: int, isMatch: bool): (r: seq<Card>)
    ensures |r| == |cs|
  {
    seq(|cs|, i requires 0 <= i < |cs| =>
      var c := cs[i];
      if c.id == firstId || c.id == secondId then
        if isMatch then c.(isMatched := true, isFlipped := true) else c.(isFlipped := false)
      else c)
  }

  /** The body of the scheduled resolution, run on the state current when the
      delay has elapsed. Whether the pair matches is decided by the values
      captured at flip time. Only the cards carrying the two captured ids
      change: on a match both become matched and face up, otherwise both turn
      face down and stay as matched as they were. No card loses its match.
      The gate reopens, the move count is kept, and the game is complete
      exactly when every card of a full deck is matched. */
  function Resolve(s: GameState, first: Card, second: Card): (r: GameState)
    ensures |r.cards| == |s.cards|
    ensures forall i :: 0 <= i < |s.cards| ==> r.cards[i].id == s.cards[i].id && r.cards[i].value == s.cards[i].value
    ensures forall i :: 0 <= i < |s.cards| && s.cards[i].id != first.id && s.cards[i].id != second.id ==>
              r.cards[i] == s.cards[i]
    ensures first.value == second.value ==>
              forall i :: 0 <= i < |s.cards| && (s.cards[i].id == first.id || s.cards[i].id == second.id) ==>
                r.cards[i].isMatched && r.cards[i].isFlipped
    ensures first.value != second.value ==>
              forall i :: 0 <= i < |s.cards| && (s.cards[i].id == first.id || s.cards[i].id == second.id) ==>
                !r.cards[i].isFlipped && r.cards[i].isMatched == s.cards[i].isMatched
    ensures forall i :: 0 <= i < |s.cards| && s.cards[i].isMatched ==> r.cards[i].isMatched
    ensures r.canFlipCard && r.moves == s.moves
    ensures |s.cards| == DeckSize ==>
              (r.isGameComplete <==> forall i :: 0 <= i < |r.cards| ==> r.cards[i].isMatched)
  {
    var isMatch := first.value == second.value;
    var resolved := ResolveCards(s.cards, first.id, second.id, isMatch);
    s.(cards := resolved, canFlipCard := true, isGameComplete := MatchedCount(resolved) == CardPairs * 2)
  }
}
