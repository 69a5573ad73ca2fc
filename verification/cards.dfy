/** Cards and the game-state snapshot of the memory game, together with the
    counts the state machine recomputes after every change of the card list:
    the face-up unmatched cards (which close the input gate) and the matched
    cards (which end the game). */
module Cards {

  /** Number of distinct card values; the deck holds two cards of each. */
  const CardPairs: nat := 8

  /** Number of cards in a full deck. */
  const DeckSize: nat := CardPairs * 2

  datatype Option<+T> = None | Some(value: T)

  /** One card. `id` is the card's position in the dealt deck, `value` names
      its pair. The source builds cards as `Card(id, value)`; this model
      assumes both flags default to false there (see FreshCard). */
  datatype Card = Card(id: int, value: int, isFlipped: bool, isMatched: bool)

  /** The observable game, replaced as a whole on every transition. */
  datatype GameState = GameState(cards: seq<Card>, moves: int, canFlipCard: bool, isGameComplete: bool)

  /** `Card(id, value)`: assumed defaults, face down and unmatched. */
  function FreshCard(id: int, value: int): Card {
    Card(id, value, false, false)
  }

  /** `GameState(cards = ...)`: assumed defaults, no moves yet, the gate open
      and the game not complete. `GameState()` is FreshState([]). */
  function FreshState(cards: seq<Card>): GameState {
    GameState(cards, 0, true, false)
  }

  /** The values of a card list, in list order. */
  function Values(cs: seq<Card>): (vs: seq<int>)
    ensures |vs| == |cs|
  {
    seq(|cs|, i requires 0 <= i < |cs| => cs[i].value)
  }

  /** A card that is shown but not yet part of a found pair. */
  predicate FaceUp(c: Card) {
    c.isFlipped && !c.isMatched
  }

  /** `filter { it.isFlipped && !it.isMatched }`: the face-up unmatched cards
      in list order. */
  function FlippedUnmatched(cs: seq<Card>): (r: seq<Card>)
    ensures |r| <= |cs|
    ensures forall k :: 0 <= k < |r| ==> FaceUp(r[k])
  {
    if |cs| == 0 then []
    else (if FaceUp(cs[0]) then [cs[0]] else []) + FlippedUnmatched(cs[1..])
  }

  /** `count { it.isMatched }`. The count reaches the list's length exactly
      when every card is matched. */
  function MatchedCount(cs: seq<Card>): (n: nat)
    ensures n <= |cs|
    ensures n == |cs| <==> forall i :: 0 <= i < |cs| ==> cs[i].isMatched
  {
    if |cs| == 0 then 0
    else (if cs[0].isMatched then 1 else 0) + MatchedCount(cs[1..])
  }

  /** Index i holds the first card of the list whose id is `id`. */
  ghost predicate FirstWithId(cs: seq<Card>, id: int, i: int) {
    0 <= i < |cs| && cs[i].id == id && forall k :: 0 <= k < i ==> cs[k].id != id
  }

  /** `firstOrNull { it.id == id }`. */
  function FindCard(cs: seq<Card>, id: int): (r: Option<Card>)
    ensures r.None? <==> forall i :: 0 <= i < |cs| ==> cs[i].id != id
    ensures r.Some? ==> exists i :: FirstWithId(cs, id, i) && r.value == cs[i]
  {
    if |cs| == 0 then None
    else if cs[0].id == id then
      assert FirstWithId(cs, id, 0);
      Some(cs[0])
    else
      var r := FindCard(cs[1..], id);
      assert r.Some? ==> exists i :: FirstWithId(cs, id, i) && r.value == cs[i] by {
        if r.Some? {
          var i :| FirstWithId(cs[1..], id, i) && r.value == cs[1..][i];
          assert FirstWithId(cs, id, i + 1);
        }
      }
      r
  }

  /** Two distinct positions of the list hold face-up unmatched cards. */
  ghost predicate HasTwoFaceUp(cs: seq<Card>) {
    exists i, j :: 0 <= i < j < |cs| && FaceUp(cs[i]) && FaceUp(cs[j])
  }

  /** Position i holds the only face-up unmatched card of the list. */
  ghost predicate SoleFaceUpAt(cs: seq<Card>, i: int) {
    0 <= i < |cs| && FaceUp(cs[i]) && forall k :: 0 <= k < |cs| && FaceUp(cs[k]) ==> k == i
  }

  /** Positions i < j hold the only two face-up unmatched cards of the list:
      a pending pair. */
  ghost predicate PendingAt(cs: seq<Card>, i: int, j: int) {
    0 <= i < j < |cs| && FaceUp(cs[i]) && FaceUp(cs[j])
    && forall k :: 0 <= k < |cs| && FaceUp(cs[k]) ==> k == i || k == j
  }

  /** The filter is empty exactly when no card is face up and unmatched. */
  lemma {:induction false} NoneFaceUp(cs: seq<Card>)
    ensures |FlippedUnmatched(cs)| == 0 <==> forall k :: 0 <= k < |cs| ==> !FaceUp(cs[k])
  {
    if |cs| > 0 {
      var t := cs[1..];
      NoneFaceUp(t);
      assert forall k :: 1 <= k < |cs| ==> cs[k] == t[k - 1];
    }
  }

  /** Counting the filter agrees with looking for two face-up positions: the
      gate `size < 2` is open exactly when no two cards are face up and
      unmatched. */
  lemma TwoFaceUpIffCount(cs: seq<Card>)
    ensures |FlippedUnmatched(cs)| >= 2 <==> HasTwoFaceUp(cs)
  {
    if |FlippedUnmatched(cs)| >= 2 {
      CountTwoGivesTwoFaceUp(cs);
    }
    if HasTwoFaceUp(cs) {
      var i, j :| 0 <= i < j < |cs| && FaceUp(cs[i]) && FaceUp(cs[j]);
      TwoFaceUpGivesCountTwo(cs, i, j);
    }
  }

  lemma {:induction false} CountTwoGivesTwoFaceUp(cs: seq<Card>)
    requires |FlippedUnmatched(cs)| >= 2
    ensures HasTwoFaceUp(cs)
  {
    var t := cs[1..];
    if FaceUp(cs[0]) {
      assert |FlippedUnmatched(cs)| == 1 + |FlippedUnmatched(t)|;
      var k := SomeFaceUp(t);
      ShiftedTwoFaceUp(cs, 0, k + 1);
    } else {
      assert |FlippedUnmatched(cs)| == |FlippedUnmatched(t)|;
      CountTwoGivesTwoFaceUp(t);
      var i, j :| 0 <= i < j < |t| && FaceUp(t[i]) && FaceUp(t[j]);
      ShiftedTwoFaceUp(cs, i + 1, j + 1);
    }
  }

  /** A position of a non-empty filter's list that holds a face-up unmatched card. */
  lemma SomeFaceUp(cs: seq<Card>) returns (k: int)
    requires |FlippedUnmatched(cs)| >= 1
    ensures 0 <= k < |cs| && FaceUp(cs[k])
  {
    NoneFaceUp(cs);
    k :| 0 <= k < |cs| && FaceUp(cs[k]);
  }

  lemma ShiftedTwoFaceUp(cs: seq<Card>, i: int, j: int)
    requires 0 <= i < j < |cs|
    requires FaceUp(cs[i]) && FaceUp(cs[j])
    ensures HasTwoFaceUp(cs)
  {
  }

  lemma {:induction false} TwoFaceUpGivesCountTwo(cs: seq<Card>, i: int, j: int)
    requires 0 <= i < j < |cs| && FaceUp(cs[i]) && FaceUp(cs[j])
    ensures |FlippedUnmatched(cs)| >= 2
  {
    var t := cs[1..];
    if i == 0 {
      assert FaceUp(t[j - 1]);
      NoneFaceUp(t);
    } else {
      TwoFaceUpGivesCountTwo(t, i - 1, j - 1);
    }
  }

  /** A list whose only face-up unmatched card sits at i filters to that card. */
  lemma {:induction false} SoleFaceUpFilters(cs: seq<Card>, i: int)
    requires SoleFaceUpAt(cs, i)
    ensures FlippedUnmatched(cs) == [cs[i]]
  {
    var t := cs[1..];
    if i == 0 {
      NoneFaceUp(t);
      assert forall k :: 0 <= k < |t| ==> !FaceUp(t[k]) by {
        forall k | 0 <= k < |t| ensures !FaceUp(t[k]) {
          assert t[k] == cs[k + 1];
        }
      }
    } else {
      assert SoleFaceUpAt(t, i - 1) by {
        forall k | 0 <= k < |t| && FaceUp(t[k]) ensures k == i - 1 {
          assert t[k] == cs[k + 1];
        }
      }
      SoleFaceUpFilters(t, i - 1);
    }
  }

  /** A pending pair at i < j is exactly what the filter yields, in list
      order: the first captured card is cs[i], the second cs[j]. */
  lemma {:induction false} PendingPairFilters(cs: seq<Card>, i: int, j: int)
    requires PendingAt(cs, i, j)
    ensures FlippedUnmatched(cs) == [cs[i], cs[j]]
  {
    var t := cs[1..];
    if i == 0 {
      assert SoleFaceUpAt(t, j - 1) by {
        forall k | 0 <= k < |t| && FaceUp(t[k]) ensures k == j - 1 {
          assert t[k] == cs[k + 1];
        }
      }
      SoleFaceUpFilters(t, j - 1);
    } else {
      assert PendingAt(t, i - 1, j - 1) by {
        forall k | 0 <= k < |t| && FaceUp(t[k]) ensures k == i - 1 || k == j - 1 {
          assert t[k] == cs[k + 1];
        }
      }
      PendingPairFilters(t, i - 1, j - 1);
    }
  }

  /** A filter of length one comes from a sole face-up card. */
  lemma {:induction false} CountOneIsSole(cs: seq<Card>)
    requires |FlippedUnmatched(cs)| == 1
    ensures exists i :: SoleFaceUpAt(cs, i)
  {
    var t := cs[1..];
    if FaceUp(cs[0]) {
      NoneFaceUp(t);
      assert forall k :: 1 <= k < |cs| ==> cs[k] == t[k - 1];
      assert SoleFaceUpAt(cs, 0);
    } else {
      CountOneIsSole(t);
      var i :| SoleFaceUpAt(t, i);
      assert SoleFaceUpAt(cs, i + 1) by {
        forall k | 0 <= k < |cs| && FaceUp(cs[k]) ensures k == i + 1 {
          assert k > 0;
          assert t[k - 1] == cs[k];
        }
      }
    }
  }

  /** A filter of length two comes from a pending pair. */
  lemma {:induction false} CountTwoIsPending(cs: seq<Card>)
    requires |FlippedUnmatched(cs)| == 2
    ensures exists i, j :: PendingAt(cs, i, j)
  {
    var t := cs[1..];
    if FaceUp(cs[0]) {
      CountOneIsSole(t);
      var j :| SoleFaceUpAt(t, j);
      assert PendingAt(cs, 0, j + 1) by {
        forall k | 0 <= k < |cs| && FaceUp(cs[k]) ensures k == 0 || k == j + 1 {
          if k > 0 {
            assert FaceUp(t[k - 1]);
          }
        }
      }
    } else {
      CountTwoIsPending(t);
      var i, j :| PendingAt(t, i, j);
      assert PendingAt(cs, i + 1, j + 1) by {
        forall k | 0 <= k < |cs| && FaceUp(cs[k]) ensures k == i + 1 || k == j + 1 {
          assert k > 0;
          assert t[k - 1] == cs[k];
        }
      }
    }
  }

  /** Changing a single card moves the face-up unmatched count up by at most one. */
  lemma {:induction false} OneChangeAddsAtMostOne(cs: seq<Card>, cs': seq<Card>, k: int)
    requires |cs'| == |cs| && 0 <= k < |cs|
    requires forall i :: 0 <= i < |cs| && i != k ==> cs'[i] == cs[i]
    ensures |FlippedUnmatched(cs')| <= |FlippedUnmatched(cs)| + 1
  {
    if k == 0 {
      assert cs'[1..] == cs[1..];
    } else {
      OneChangeAddsAtMostOne(cs[1..], cs'[1..], k - 1);
    }
  }
}
