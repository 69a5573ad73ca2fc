/** One game session: the published state together with the resolutions that
    have been scheduled and not yet run. A tap runs `onCardClick` and appends
    the resolution it scheduled; the end of a delay runs the oldest scheduled
    resolution (all delays are equal, so they run in scheduling order); a reset
    deals a new deck and, as in the source, cancels nothing. */
module Session {
  import opened Cards
  import opened Deck
  import opened Game

  datatype Machine = Machine(game: GameState, scheduled: seq<Pair>)

  datatype Event = Tap(cardId: int) | DelayElapsed | Reset(shuffled: seq<int>)

  /** A reset must come with a shuffle of the paired values. */
  ghost predicate WellFormedEvent(ev: Event) {
    ev.Reset? ==> IsShuffleOfPairs(ev.shuffled)
  }

  /** The view model right after construction: a dealt game, nothing scheduled. */
  function Start(shuffled: seq<int>): Machine
    requires IsShuffleOfPairs(shuffled)
  {
    Machine(InitializeGame(shuffled), [])
  }

  function Step(m: Machine, ev: Event): Machine
    requires WellFormedEvent(ev)
  {
    match ev
    case Tap(cardId) =>
      var o := OnCardClick(m.game, cardId);
      Machine(o.state, m.scheduled + if o.scheduled.Some? then [o.scheduled.value] else [])
    case DelayElapsed =>
      if |m.scheduled| == 0 then m
      else Machine(Resolve(m.game, m.scheduled[0].first, m.scheduled[0].second), m.scheduled[1..])
    case Reset(shuffled) =>
      Machine(ResetGame(shuffled), m.scheduled)
  }

  /** A full deck whose ids are the cards' positions and whose values come in
      pairs. */
  ghost predicate DeckShape(cs: seq<Card>) {
    && |cs| == DeckSize
    && (forall i :: 0 <= i < |cs| ==> cs[i].id == i)
    && (forall v :: multiset(Values(cs))[v] == if 1 <= v <= CardPairs then 2 else 0)
  }

  /** Matched cards stay face up. */
  ghost predicate MatchedShown(cs: seq<Card>) {
    forall i :: 0 <= i < |cs| && cs[i].isMatched ==> cs[i].isFlipped
  }

  /** Either nothing is scheduled, the gate is open and no two cards are face
      up and unmatched, or exactly one resolution is scheduled, the gate is
      closed, and that resolution holds the current pending pair in list
      order. */
  ghost predicate GateAgrees(m: Machine) {
    var cs := m.game.cards;
    && |m.scheduled| <= 1
    && (|m.scheduled| == 0 ==> m.game.canFlipCard && !HasTwoFaceUp(cs))
    && (|m.scheduled| == 1 ==>
          && !m.game.canFlipCard
          && exists i, j :: PendingAt(cs, i, j) && m.scheduled[0] == Pair(cs[i], cs[j]))
  }

  /** The invariant of every state reached through the gated entry point. */
  ghost predicate Inv(m: Machine) {
    var cs := m.game.cards;
    && DeckShape(cs)
    && MatchedShown(cs)
    && (m.game.isGameComplete <==> forall i :: 0 <= i < |cs| ==> cs[i].isMatched)
    && GateAgrees(m)
  }

  /** A freshly constructed session satisfies the invariant. */
  lemma StartEstablishesInv(shuffled: seq<int>)
    requires IsShuffleOfPairs(shuffled)
    ensures Inv(Start(shuffled))
  {
    var cs := Start(shuffled).game.cards;
    assert !cs[0].isMatched;
  }

  /** A reset while nothing is scheduled yields a session satisfying the
      invariant. */
  lemma ResetEstablishesInv(m: Machine, shuffled: seq<int>)
    requires IsShuffleOfPairs(shuffled)
    requires |m.scheduled| == 0
    ensures Inv(Step(m, Reset(shuffled)))
  {
    var cs := Step(m, Reset(shuffled)).game.cards;
    assert !cs[0].isMatched;
  }

  /** In every invariant state at most two cards are face up and unmatched,
      and fewer than two while the gate is open. */
  lemma AtMostTwoFaceUp(m: Machine)
    requires Inv(m)
    ensures |FlippedUnmatched(m.game.cards)| <= 2
    ensures m.game.canFlipCard ==> |FlippedUnmatched(m.game.cards)| < 2
  {
    var cs := m.game.cards;
    if |m.scheduled| == 0 {
      TwoFaceUpIffCount(cs);
    } else {
      var i, j :| PendingAt(cs, i, j) && m.scheduled[0] == Pair(cs[i], cs[j]);
      PendingPairFilters(cs, i, j);
    }
  }

  /** A tap that is not ignored flips the card at position `cardId` in a
      session with nothing scheduled; the result keeps the invariant. */
  lemma {:induction false} AdmittedTapPreservesInv(m: Machine, cardId: int)
    requires Inv(m) && !Ignored(m.game, cardId)
    ensures Inv(Step(m, Tap(cardId)))
  {
    var s := m.game;
    var cs := s.cards;
    assert |m.scheduled| == 0;
    var k :| 0 <= k < |cs| && cs[k].id == cardId;
    assert FirstWithId(cs, cardId, k);
    var o := FlipCard(s, cardId);
    var cs' := o.state.cards;
    assert Step(m, Tap(cardId)).game == o.state;
    assert DeckShape(cs') by {
      assert Values(cs') == Values(cs);
    }
    assert MatchedShown(cs');
    AdmittedTapGate(m, cardId, k);
  }

  lemma {:induction false} AdmittedTapGate(m: Machine, cardId: int, k: int)
    requires Inv(m) && !Ignored(m.game, cardId)
    requires 0 <= k < |m.game.cards| && m.game.cards[k].id == cardId
    ensures GateAgrees(Step(m, Tap(cardId)))
  {
    var s := m.game;
    var cs := s.cards;
    assert |m.scheduled| == 0;
    TwoFaceUpIffCount(cs);
    var o := FlipCard(s, cardId);
    var cs' := o.state.cards;
    assert forall i :: 0 <= i < |cs| && i != k ==> cs'[i] == cs[i];
    OneChangeAddsAtMostOne(cs, cs', k);
    FlipClosesGate(s, cardId);
    FlipSchedulesPair(s, cardId);
    TwoFaceUpIffCount(cs');
    if |FlippedUnmatched(cs')| == 2 {
      CountTwoIsPending(cs');
      var i, j :| PendingAt(cs', i, j);
      assert Step(m, Tap(cardId)).scheduled == [Pair(cs'[i], cs'[j])];
    } else {
      assert Step(m, Tap(cardId)).scheduled == [];
    }
  }

  /** A tap keeps the invariant. */
  lemma TapPreservesInv(m: Machine, cardId: int)
    requires Inv(m)
    ensures Inv(Step(m, Tap(cardId)))
  {
    if !Ignored(m.game, cardId) {
      AdmittedTapPreservesInv(m, cardId);
    } else {
      assert Step(m, Tap(cardId)) == m;
    }
  }

  /** Running the scheduled resolution keeps the invariant: afterwards nothing
      is scheduled, the gate is open and no card is face up and unmatched. */
  lemma DelayPreservesInv(m: Machine)
    requires Inv(m)
    ensures Inv(Step(m, DelayElapsed))
    ensures |Step(m, DelayElapsed).scheduled| == 0
    ensures |m.scheduled| == 1 ==> |FlippedUnmatched(Step(m, DelayElapsed).game.cards)| == 0
  {
    var cs := m.game.cards;
    if |m.scheduled| == 0 {
      TwoFaceUpIffCount(cs);
    } else {
      var i, j :| PendingAt(cs, i, j) && m.scheduled[0] == Pair(cs[i], cs[j]);
      var r := Resolve(m.game, cs[i], cs[j]);
      var cs' := r.cards;
      assert cs[i].id == i && cs[j].id == j;
      assert Values(cs') == Values(cs);
      forall k | 0 <= k < |cs'|
        ensures !FaceUp(cs'[k])
        ensures cs'[k].isMatched ==> cs'[k].isFlipped
      {
        assert cs[k].id == k;
      }
      NoneFaceUp(cs');
      TwoFaceUpIffCount(cs');
    }
  }

  /** Every event the gated entry point, a delay or an idle reset can deliver
      keeps the invariant. A reset while a resolution is still scheduled is
      excluded: the source does not cancel that resolution. */
  lemma StepPreservesInv(m: Machine, ev: Event)
    requires Inv(m) && WellFormedEvent(ev)
    requires ev.Reset? ==> |m.scheduled| == 0
    ensures Inv(Step(m, ev))
  {
    match ev
    case Tap(cardId) => TapPreservesInv(m, cardId);
    case DelayElapsed => DelayPreservesInv(m);
    case Reset(shuffled) => ResetEstablishesInv(m, shuffled);
  }

  /** A finished game is frozen: no tap and no delay changes it, so it stays
      complete until a reset. */
  lemma CompletionIsFinal(m: Machine, ev: Event)
    requires Inv(m) && WellFormedEvent(ev)
    requires m.game.isGameComplete && !ev.Reset?
    ensures Step(m, ev) == m
  {
  }

  /** Neither a tap nor a resolution ever unmatches a card. */
  lemma MatchesArePermanent(m: Machine, ev: Event, k: int)
    requires WellFormedEvent(ev) && !ev.Reset?
    requires 0 <= k < |m.game.cards| && m.game.cards[k].isMatched
    ensures k < |Step(m, ev).game.cards| && Step(m, ev).game.cards[k].isMatched
  {
  }

  function Run(m: Machine, evs: seq<Event>): Machine
    requires forall n :: 0 <= n < |evs| ==> WellFormedEvent(evs[n])
    decreases |evs|
  {
    if |evs| == 0 then m else Run(Step(m, evs[0]), evs[1..])
  }

  /** Every reset in the run arrives while nothing is scheduled. */
  ghost predicate ResetsOnlyWhenIdle(m: Machine, evs: seq<Event>)
    requires forall n :: 0 <= n < |evs| ==> WellFormedEvent(evs[n])
    decreases |evs|
  {
    |evs| == 0 ||
    ((evs[0].Reset? ==> |m.scheduled| == 0) && ResetsOnlyWhenIdle(Step(m, evs[0]), evs[1..]))
  }

  /** Every session reached from an invariant state, by taps, delays and idle
      resets, satisfies the invariant; in particular at most two cards are
      ever face up and unmatched. */
  lemma {:induction false} RunPreservesInv(m: Machine, evs: seq<Event>)
    requires forall n :: 0 <= n < |evs| ==> WellFormedEvent(evs[n])
    requires Inv(m) && ResetsOnlyWhenIdle(m, evs)
    ensures Inv(Run(m, evs))
    ensures |FlippedUnmatched(Run(m, evs).game.cards)| <= 2
    decreases |evs|
  {
    if |evs| == 0 {
      AtMostTwoFaceUp(m);
    } else {
      StepPreservesInv(m, evs[0]);
      RunPreservesInv(Step(m, evs[0]), evs[1..]);
    }
  }

  /** The first tap of a round turns card a face up and leaves the gate open. */
  lemma {:induction false} FirstTapOfRound(m: Machine, a: int)
    requires Inv(m) && |m.scheduled| == 0 && !m.game.isGameComplete
    requires forall k :: 0 <= k < |m.game.cards| ==> !FaceUp(m.game.cards[k])
    requires 0 <= a < DeckSize && !m.game.cards[a].isMatched
    ensures var m1 := Step(m, Tap(a));
            && Inv(m1) && m1.scheduled == [] && m1.game.canFlipCard && !m1.game.isGameComplete
            && m1.game.moves == m.game.moves + 1
            && |m1.game.cards| == |m.game.cards|
            && m1.game.cards[a] == m.game.cards[a].(isFlipped := true)
            && (forall k :: 0 <= k < |m.game.cards| && k != a ==> m1.game.cards[k] == m.game.cards[k])
            && SoleFaceUpAt(m1.game.cards, a)
  {
    var cs := m.game.cards;
    assert FirstWithId(cs, a, a);
    var m1 := Step(m, Tap(a));
    TapPreservesInv(m, a);
    assert m1.game == FlipCard(m.game, a).state;
    assert SoleFaceUpAt(m1.game.cards, a);
    SoleFaceUpFilters(m1.game.cards, a);
  }

  /** The second tap of a round, on another unmatched card b, turns it face
      up, closes the gate and schedules the two cards in list order. */
  lemma {:induction false} SecondTapOfRound(m: Machine, a: int, b: int)
    requires Inv(m) && |m.scheduled| == 0 && !m.game.isGameComplete
    requires SoleFaceUpAt(m.game.cards, a)
    requires 0 <= b < DeckSize && b != a && !m.game.cards[b].isMatched
    ensures var m2 := Step(m, Tap(b));
            var lo := if a < b then a else b;
            var hi := if a < b then b else a;
            && Inv(m2) && !m2.game.canFlipCard
            && m2.scheduled == [Pair(m2.game.cards[lo], m2.game.cards[hi])]
            && m2.game.moves == m.game.moves + 1
            && |m2.game.cards| == |m.game.cards|
            && m2.game.cards[b] == m.game.cards[b].(isFlipped := true)
            && (forall k :: 0 <= k < |m.game.cards| && k != b ==> m2.game.cards[k] == m.game.cards[k])
  {
    var cs := m.game.cards;
    assert FirstWithId(cs, b, b);
    TapPreservesInv(m, b);
    var o := OnCardClick(m.game, b);
    assert o == FlipCard(m.game, b);
    var cs2 := ToggleCard(cs, b);
    assert o.state.cards == cs2;
    var lo := if a < b then a else b;
    var hi := if a < b then b else a;
    assert PendingAt(cs2, lo, hi) by {
      forall k | 0 <= k < |cs2| && FaceUp(cs2[k]) ensures k == lo || k == hi {
        if k != b {
          assert cs2[k] == cs[k];
        }
      }
    }
    PendingPairFilters(cs2, lo, hi);
    assert o.scheduled == Some(Pair(cs2[lo], cs2[hi]));
    assert Step(m, Tap(b)) == Machine(o.state, [Pair(cs2[lo], cs2[hi])]);
  }

  /** The end of a round's delay: the two cards a and b turned face up from
      the list `cs` either lock in as a match or return to how `cs` had them. */
  lemma ResolutionOfRound(m2: Machine, cs: seq<Card>, a: int, b: int)
    requires var cs2 := m2.game.cards;
             && |cs| == |cs2|
             && (forall k :: 0 <= k < |cs2| ==> cs2[k].id == k)
             && 0 <= a < |cs| && 0 <= b < |cs| && a != b
             && !cs[a].isFlipped && !cs[a].isMatched && !cs[b].isFlipped && !cs[b].isMatched
             && cs2[a] == cs[a].(isFlipped := true) && cs2[b] == cs[b].(isFlipped := true)
             && (forall k :: 0 <= k < |cs| && k != a && k != b ==> cs2[k] == cs[k])
             && m2.scheduled == [if a < b then Pair(cs2[a], cs2[b]) else Pair(cs2[b], cs2[a])]
    ensures var m3 := Step(m2, DelayElapsed);
            && m3.scheduled == [] && m3.game.canFlipCard
            && m3.game.moves == m2.game.moves
            && |m3.game.cards| == |cs|
            && (forall k :: 0 <= k < |cs| && k != a && k != b ==> m3.game.cards[k] == cs[k])
            && (cs[a].value == cs[b].value ==>
                  && m3.game.cards[a] == cs[a].(isFlipped := true, isMatched := true)
                  && m3.game.cards[b] == cs[b].(isFlipped := true, isMatched := true))
            && (cs[a].value != cs[b].value ==> m3.game.cards == cs)
  {
  }

  /** One round of play from an idle session with no card face up: tapping
      two different unmatched cards a and b and letting the delay elapse
      counts two moves and reopens the gate with nothing scheduled. If the two
      cards hold the same value both end matched and face up; otherwise the
      card list is exactly as before the round. No other card changes. */
  lemma {:induction false} TwoTapRound(m: Machine, a: int, b: int)
    requires Inv(m) && |m.scheduled| == 0 && !m.game.isGameComplete
    requires forall k :: 0 <= k < |m.game.cards| ==> !FaceUp(m.game.cards[k])
    requires 0 <= a < DeckSize && 0 <= b < DeckSize && a != b
    requires !m.game.cards[a].isMatched && !m.game.cards[b].isMatched
    ensures var m3 := Step(Step(Step(m, Tap(a)), Tap(b)), DelayElapsed);
            && Inv(m3) && m3.scheduled == [] && m3.game.canFlipCard
            && m3.game.moves == m.game.moves + 2
            && |m3.game.cards| == |m.game.cards|
            && (forall k :: 0 <= k < |m.game.cards| && k != a && k != b ==> m3.game.cards[k] == m.game.cards[k])
            && (m.game.cards[a].value == m.game.cards[b].value ==>
                  && m3.game.cards[a] == m.game.cards[a].(isFlipped := true, isMatched := true)
                  && m3.game.cards[b] == m.game.cards[b].(isFlipped := true, isMatched := true))
            && (m.game.cards[a].value != m.game.cards[b].value ==> m3.game.cards == m.game.cards)
  {
    var cs := m.game.cards;
    FirstTapOfRound(m, a);
    var m1 := Step(m, Tap(a));
    SecondTapOfRound(m1, a, b);
    var m2 := Step(m1, Tap(b));
    var cs2 := m2.game.cards;
    assert !FaceUp(cs[a]) && !FaceUp(cs[b]);
    assert cs2[a] == cs[a].(isFlipped := true);
    assert forall k :: 0 <= k < |cs| && k != a && k != b ==> cs2[k] == cs[k];
    ResolutionOfRound(m2, cs, a, b);
    DelayPreservesInv(m2);
  }

  /** A worked session on any deal whose first two cards differ: tapping
      cards 0 and 1 closes the gate and schedules that pair, and a further
      tap is ignored. */
  lemma {:induction false} DealtGamePending(sh: seq<int>)
    requires IsShuffleOfPairs(sh) && |sh| == DeckSize
    requires sh[0] != sh[1]
    ensures var m2 := Step(Step(Start(sh), Tap(0)), Tap(1));
            && m2.game.moves == 2 && !m2.game.canFlipCard
            && m2.scheduled == [Pair(m2.game.cards[0], m2.game.cards[1])]
            && Step(m2, Tap(2)) == m2
  {
    var m0 := Start(sh);
    StartEstablishesInv(sh);
    var cs := m0.game.cards;
    assert forall n :: 0 <= n < |cs| ==> !FaceUp(cs[n]);
    FirstTapOfRound(m0, 0);
    var m1 := Step(m0, Tap(0));
    SecondTapOfRound(m1, 0, 1);
    var m2 := Step(m1, Tap(1));
    assert Ignored(m2.game, 2);
  }

  /** After the delay the mismatched pair is face down again and the deck is
      as dealt, two moves on. */
  lemma {:induction false} DealtGameMismatch(sh: seq<int>)
    requires IsShuffleOfPairs(sh) && |sh| == DeckSize
    requires sh[0] != sh[1]
    ensures Step(Step(Step(Start(sh), Tap(0)), Tap(1)), DelayElapsed) == Machine(Start(sh).game.(moves := 2), [])
  {
    var m0 := Start(sh);
    StartEstablishesInv(sh);
    var cs := m0.game.cards;
    assert cs[0].value == sh[0] && cs[1].value == sh[1];
    assert forall n :: 0 <= n < |cs| ==> !FaceUp(cs[n]);
    TwoTapRound(m0, 0, 1);
    var m3 := Step(Step(Step(m0, Tap(0)), Tap(1)), DelayElapsed);
    assert !m3.game.isGameComplete by {
      assert !m3.game.cards[1].isMatched;
    }
  }

  /** Continuing that session: tapping card 0 and the other card k of its pair
      leaves both matched and face up, four moves on, with the game not yet
      complete. */
  lemma {:induction false} DealtGameMatch(sh: seq<int>, k: int)
    requires IsShuffleOfPairs(sh) && |sh| == DeckSize
    requires 0 < k < DeckSize && sh[k] == sh[0]
    ensures var m3 := Machine(Start(sh).game.(moves := 2), []);
            var m6 := Step(Step(Step(m3, Tap(0)), Tap(k)), DelayElapsed);
            && m6.game.moves == 4 && m6.game.canFlipCard && m6.scheduled == [] && !m6.game.isGameComplete
            && m6.game.cards[0].isMatched && m6.game.cards[0].isFlipped
            && m6.game.cards[k].isMatched && m6.game.cards[k].isFlipped
  {
    var m0 := Start(sh);
    StartEstablishesInv(sh);
    var m3 := Machine(m0.game.(moves := 2), []);
    var cs := m3.game.cards;
    assert cs[0].value == sh[0] && cs[k].value == sh[k];
    assert forall n :: 0 <= n < |cs| ==> !FaceUp(cs[n]);
    assert Inv(m3);
    TwoTapRound(m3, 0, k);
    var m6 := Step(Step(Step(m3, Tap(0)), Tap(k)), DelayElapsed);
    var other := if k == 1 then 2 else 1;
    assert !m6.game.cards[other].isMatched;
  }
}
