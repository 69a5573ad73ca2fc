/** Dealing a new game: the values 1..CardPairs are each taken twice, put in
    the order a shuffle chose, and every card gets its position as its id.
    The shuffle itself is random and not modelled; its result is a parameter
    whose only promise is that it reorders the paired values. */
module Deck {
  import opened Cards

  /** `List(n) { it + 1 }`: the values 1..n in ascending order. */
  function CountingUp(n: nat): (r: seq<int>)
    ensures |r| == n
  {
    seq(n, i => i + 1)
  }

  /** `cardValues + cardValues`: every pair value twice. */
  function PairedValues(): seq<int> {
    CountingUp(CardPairs) + CountingUp(CardPairs)
  }

  /** What `shuffled()` promises: the same values, in some order. */
  ghost predicate IsShuffleOfPairs(shuffled: seq<int>) {
    multiset(shuffled) == multiset(PairedValues())
  }

  /** Each of 1..n occurs once in CountingUp(n); nothing else occurs. */
  lemma {:induction false} CountingUpOccurrences(n: nat, v: int)
    ensures multiset(CountingUp(n))[v] == if 1 <= v <= n then 1 else 0
  {
    if n > 0 {
      assert CountingUp(n) == CountingUp(n - 1) + [n];
      CountingUpOccurrences(n - 1, v);
    }
  }

  /** `mapIndexed { index, value -> Card(id = index, value = value) }`. */
  function Deal(values: seq<int>): (cs: seq<Card>)
    ensures |cs| == |values|
  {
    seq(|values|, i requires 0 <= i < |values| => FreshCard(i, values[i]))
  }

  /** `initializeGame`: a fresh deck of 2 * CardPairs face-down, unmatched
      cards holding each value 1..CardPairs exactly twice, ids equal to
      positions, in the shuffle's order, with zero moves, the gate open and
      the game not complete. */
  function InitializeGame(shuffled: seq<int>): (s: GameState)
    requires IsShuffleOfPairs(shuffled)
    ensures |s.cards| == DeckSize
    ensures forall i :: 0 <= i < |s.cards| ==> s.cards[i].id == i
    ensures forall i :: 0 <= i < |s.cards| ==> !s.cards[i].isFlipped && !s.cards[i].isMatched
    ensures Values(s.cards) == shuffled
    ensures forall v :: multiset(Values(s.cards))[v] == if 1 <= v <= CardPairs then 2 else 0
    ensures s.moves == 0 && s.canFlipCard && !s.isGameComplete
  {
    assert |shuffled| == |multiset(PairedValues())| == DeckSize;
    var cs := Deal(shuffled);
    assert Values(cs) == shuffled;
    forall v ensures multiset(Values(cs))[v] == if 1 <= v <= CardPairs then 2 else 0 {
      CountingUpOccurrences(CardPairs, v);
    }
    FreshState(cs)
  }

  /** `resetGame`: deal again, then force the game open and not complete.
      Because dealing already yields exactly those flags, the result is a
      fresh game in every respect. */
  function ResetGame(shuffled: seq<int>): (s: GameState)
    requires IsShuffleOfPairs(shuffled)
    ensures |s.cards| == DeckSize
    ensures forall i :: 0 <= i < |s.cards| ==> s.cards[i].id == i
    ensures forall i :: 0 <= i < |s.cards| ==> !s.cards[i].isFlipped && !s.cards[i].isMatched
    ensures forall v :: multiset(Values(s.cards))[v] == if 1 <= v <= CardPairs then 2 else 0
    ensures s.moves == 0 && s.canFlipCard && !s.isGameComplete
  {
    var dealt := InitializeGame(shuffled);
    dealt.(isGameComplete := false, canFlipCard := true)
  }

  /** The defensive flag reset in `resetGame` changes nothing: resetting is
      initializing. */
  lemma ResetIsInitialize(shuffled: seq<int>)
    requires IsShuffleOfPairs(shuffled)
    ensures ResetGame(shuffled) == InitializeGame(shuffled)
  {
  }
}
