# Memory game state machine

A Dafny model of `MemoryGameViewModel`, the state machine behind a
tile-matching memory game. A deck of `2 * CARD_PAIRS` cards (two of each
value `1..CARD_PAIRS`, `CARD_PAIRS = 8`) is shuffled and dealt with each
card's position as its id. The player taps cards. A tap is ignored while the
input gate `canFlipCard` is closed, after the game is complete, for an
unknown id, or on a matched card. Any other tap flips the card and counts a
move. When two unmatched cards are face up, the gate closes and a delayed
resolution is scheduled with the two captured cards. After the delay it either
locks the pair in as matched or turns both cards back. It then reopens the
gate and recomputes completion.

The model is functional. Every transition takes a `GameState` value and
returns the next one.

- `cards.dfy` (module `Cards`): `Card`, `GameState`, the assumed defaults of
  their constructors, and the list operations the source recomputes: the
  face-up-unmatched filter, the matched count and the first card with an id.
  It also holds lemmas that tie the filter's length to an index-based
  description of face-up cards.
- `deck.dfy` (module `Deck`): `initializeGame` and `resetGame`. The shuffle's
  result is a parameter. Its only promise is that it reorders the paired
  values.
- `game.dfy` (module `Game`): `onCardClick`, the synchronous part of
  `flipCard`, and the body of the delayed resolution as `Resolve`. A flip
  reports the pair it scheduled. The caller applies `Resolve` once the delay
  has elapsed.
- `session.dfy` (module `Session`): a session is the published state plus the
  queue of scheduled resolutions that have not run yet. Its events are a tap,
  the end of a delay (the oldest resolution runs; every delay is the same
  500 ms) and a reset. The module defines the reachable-state invariant,
  proves that every event preserves it, and works through a sample session.

Assumed defaults: the `Card` and `GameState` declarations are not part of this
model. `Card(id, value)` is taken to mean `isFlipped = false` and
`isMatched = false` (`Cards.FreshCard`). `GameState(cards = ...)` is taken to
mean `moves = 0`, `canFlipCard = true` and `isGameComplete = false`
(`Cards.FreshState`). `GameState()` is the same with no cards.

In the mismatch branch, the source's resolution leaves `isMatched` as it was.
It does not set it to false. `Game.Resolve` follows the code. In every
reachable state the two captured cards are unmatched, so the two readings
agree there (`Session.DelayPreservesInv`).

## Model

| member | source | states |
|---|---|---|
| `Cards.FlippedUnmatched` | app/src/main/java/com/netomi/samplegame/MemoryGameViewModel.kt:51 | the filter returns no more cards than the list holds, and every card it returns is face up and unmatched |
| `Cards.MatchedCount` | app/src/main/java/com/netomi/samplegame/MemoryGameViewModel.kt:79 | the matched count never exceeds the list length, and equals it exactly when every card is matched |
| `Cards.FindCard` | app/src/main/java/com/netomi/samplegame/MemoryGameViewModel.kt:36 | `firstOrNull` finds nothing exactly when no card has the id; otherwise it returns the card at the first position holding that id |
| `Cards.NoneFaceUp` | app/src/main/java/com/netomi/samplegame/MemoryGameViewModel.kt:51 | the filter is empty exactly when no position holds a face-up unmatched card |
| `Cards.TwoFaceUpIffCount` | app/src/main/java/com/netomi/samplegame/MemoryGameViewModel.kt:51-55 | the filter has two or more cards exactly when two distinct positions hold face-up unmatched cards, so the gate `size < 2` is open exactly when no two cards are face up and unmatched |
| `Cards.CountTwoGivesTwoFaceUp` | app/src/main/java/com/netomi/samplegame/MemoryGameViewModel.kt:51 | a filter of two or more cards comes from two distinct face-up unmatched positions |
| `Cards.TwoFaceUpGivesCountTwo` | app/src/main/java/com/netomi/samplegame/MemoryGameViewModel.kt:51 | two distinct face-up unmatched positions give a filter of at least two cards |
| `Cards.SoleFaceUpFilters` | app/src/main/java/com/netomi/samplegame/MemoryGameViewModel.kt:51 | when a single position is face up and unmatched, the filter is exactly that card |
| `Cards.PendingPairFilters` | app/src/main/java/com/netomi/samplegame/MemoryGameViewModel.kt:51-61 | when exactly the positions i < j are face up and unmatched, the filter is `[cs[i], cs[j]]`, so `first` is the earlier card in the list and `second` the later |
| `Cards.CountOneIsSole` | app/src/main/java/com/netomi/samplegame/MemoryGameViewModel.kt:51 | a one-card filter comes from a single face-up unmatched position |
| `Cards.CountTwoIsPending` | app/src/main/java/com/netomi/samplegame/MemoryGameViewModel.kt:59-61 | a two-card filter comes from exactly two face-up unmatched positions, a pending pair |
| `Cards.OneChangeAddsAtMostOne` | app/src/main/java/com/netomi/samplegame/MemoryGameViewModel.kt:45-51 | changing one card of the list raises the face-up unmatched count by at most one |
| `Deck.CountingUpOccurrences` | app/src/main/java/com/netomi/samplegame/MemoryGameViewModel.kt:25 | `List(n) { it + 1 }` holds each of 1..n exactly once and nothing else |
| `Deck.InitializeGame` | app/src/main/java/com/netomi/samplegame/MemoryGameViewModel.kt:24-31 | a fresh game has `2 * CARD_PAIRS` cards in the shuffle's order. Each card's id is its position. Every card is face down and unmatched. Each value 1..CARD_PAIRS occurs exactly twice and no other value occurs. Moves are 0, the gate is open and the game is not complete |
| `Deck.ResetGame` | app/src/main/java/com/netomi/samplegame/MemoryGameViewModel.kt:90-96 | a reset yields a fresh deck with the same properties, `isGameComplete == false` and `canFlipCard == true` |
| `Deck.ResetIsInitialize` | app/src/main/java/com/netomi/samplegame/MemoryGameViewModel.kt:90-96 | the flags that `resetGame` forces are already those of a fresh game, so a reset equals an initialization |
| `Game.ToggleCard` | app/src/main/java/com/netomi/samplegame/MemoryGameViewModel.kt:45-49 | the tap keeps the list's length and every card's id, value and match. A card's `isFlipped` changes exactly when its id is the tapped one |
| `Game.ToggleTwiceRestores` | app/src/main/java/com/netomi/samplegame/MemoryGameViewModel.kt:45-49 | tapping the same id twice restores the card list: the second tap on a face-up card undoes the first |
| `Game.FlipCard` | app/src/main/java/com/netomi/samplegame/MemoryGameViewModel.kt:41-57 | a flip changes only the cards carrying the tapped id, and only their `isFlipped`. Every other card is identical. Length and order are kept, `moves` rises by exactly 1, and completion is unchanged |
| `Game.FlipClosesGate` | app/src/main/java/com/netomi/samplegame/MemoryGameViewModel.kt:51-55 | after a flip the gate is open exactly when no two cards of the updated list are face up and unmatched |
| `Game.FlipSchedulesPair` | app/src/main/java/com/netomi/samplegame/MemoryGameViewModel.kt:59-63 | a flip schedules a resolution exactly when the updated list holds a pending pair, and the scheduled pair is that pair's two cards in list order |
| `Game.OnCardClick` | app/src/main/java/com/netomi/samplegame/MemoryGameViewModel.kt:33-39 | in four cases a tap returns the state unchanged and schedules nothing: the gate is closed, the game is complete, no card has the id, or the first card with the id is matched. Otherwise it is exactly a flip. `moves` rises by one exactly when the tap is not ignored |
| `Game.ClickKeepsAtMostTwo` | app/src/main/java/com/netomi/samplegame/MemoryGameViewModel.kt:33-61 | with distinct ids, start from at most two face-up unmatched cards, and fewer than two while the gate is open. Then a tap keeps both facts, and an admitted tap schedules a resolution exactly when it leaves two |
| `Game.Resolve` | app/src/main/java/com/netomi/samplegame/MemoryGameViewModel.kt:66-85 | only the cards carrying the two captured ids change, on any deck. On equal captured values both become matched and face up. Otherwise both turn face down and keep their match. No card is unmatched. The gate reopens, `moves` is kept, and on a full deck the game is complete exactly when every card is matched |
| `Session.StartEstablishesInv` | app/src/main/java/com/netomi/samplegame/MemoryGameViewModel.kt:20-31 | the session right after construction satisfies the reachable-state invariant |
| `Session.ResetEstablishesInv` | app/src/main/java/com/netomi/samplegame/MemoryGameViewModel.kt:90-96 | a reset while nothing is scheduled yields a session satisfying the invariant |
| `Session.AtMostTwoFaceUp` | app/src/main/java/com/netomi/samplegame/MemoryGameViewModel.kt:51-61 | in every invariant state at most two cards are face up and unmatched, and fewer than two while the gate is open |
| `Session.AdmittedTapPreservesInv` | app/src/main/java/com/netomi/samplegame/MemoryGameViewModel.kt:33-57 | a tap that is not ignored keeps the deck shape, keeps matched cards face up, and keeps completion in step with the matches |
| `Session.AdmittedTapGate` | app/src/main/java/com/netomi/samplegame/MemoryGameViewModel.kt:51-63 | after a tap that is not ignored, either nothing is scheduled and the gate is open with fewer than two cards face up, or one resolution is scheduled, the gate is closed and the resolution holds the pending pair |
| `Session.TapPreservesInv` | app/src/main/java/com/netomi/samplegame/MemoryGameViewModel.kt:33-63 | every tap keeps the reachable-state invariant |
| `Session.DelayPreservesInv` | app/src/main/java/com/netomi/samplegame/MemoryGameViewModel.kt:63-85 | running the scheduled resolution keeps the invariant and leaves nothing scheduled. After a real resolution no card is face up and unmatched |
| `Session.StepPreservesInv` | app/src/main/java/com/netomi/samplegame/MemoryGameViewModel.kt:33-96 | taps, delays and resets made while nothing is scheduled all keep the invariant |
| `Session.CompletionIsFinal` | app/src/main/java/com/netomi/samplegame/MemoryGameViewModel.kt:33-37 | a complete game is frozen: no tap and no delay changes it, so completion never goes from true to false except by a reset |
| `Session.MatchesArePermanent` | app/src/main/java/com/netomi/samplegame/MemoryGameViewModel.kt:45-77 | no tap and no resolution ever turns a matched card unmatched |
| `Session.RunPreservesInv` | app/src/main/java/com/netomi/samplegame/MemoryGameViewModel.kt:33-96 | every session reached by taps, delays and resets made while nothing is scheduled satisfies the invariant, so at most two cards are ever face up and unmatched |
| `Session.FirstTapOfRound` | app/src/main/java/com/netomi/samplegame/MemoryGameViewModel.kt:33-57 | from an idle session with nothing face up, tapping an unmatched card turns only that card face up, counts a move and leaves the gate open |
| `Session.SecondTapOfRound` | app/src/main/java/com/netomi/samplegame/MemoryGameViewModel.kt:33-63 | tapping a second unmatched card turns it face up, closes the gate and schedules the two cards in list order |
| `Session.ResolutionOfRound` | app/src/main/java/com/netomi/samplegame/MemoryGameViewModel.kt:66-85 | when a round's delay ends, a matching pair is locked in face up. A mismatched pair returns the card list to how it was before the round. All other cards are unchanged |
| `Session.TwoTapRound` | app/src/main/java/com/netomi/samplegame/MemoryGameViewModel.kt:33-85 | a full round of two taps and a delay counts two moves and reopens the gate. It matches the two cards if their values agree and otherwise restores the card list |
| `Session.DealtGamePending` | app/src/main/java/com/netomi/samplegame/MemoryGameViewModel.kt:33-63 | on a deal whose first two cards differ, tapping 0 and 1 gives two moves, closes the gate and schedules that pair, and a third tap is ignored |
| `Session.DealtGameMismatch` | app/src/main/java/com/netomi/samplegame/MemoryGameViewModel.kt:66-85 | when the delay ends, the mismatched pair is face down again and the session is the dealt game with two moves |
| `Session.DealtGameMatch` | app/src/main/java/com/netomi/samplegame/MemoryGameViewModel.kt:33-85 | tapping card 0 and its partner, then waiting, leaves both matched and face up with four moves, the gate open, and the game not yet complete |

## Left out

- Coroutine scheduling: `viewModelScope.launch` and `delay(500)` are not modelled as timing. A flip reports the pair it scheduled. `Session.Step` runs the oldest scheduled resolution on a `DelayElapsed` event.
- Publication: `MutableStateFlow`/`StateFlow` and the `ViewModel` lifecycle are Android plumbing. Each assignment to `_gameState.value` is the next `GameState` value.
- The randomness of `List.shuffled()`: it is a library call. The shuffled value list is a parameter that must be a reordering of the paired values. Whether the shuffle is uniform is not stated.
- Reset while a resolution is pending: `Session.Step` keeps that resolution scheduled, as the source does, and it later runs against the new deck. `Game.Resolve` still touches only the captured ids on any deck. `Session.StepPreservesInv` and `Session.RunPreservesInv` require that a reset comes while nothing is scheduled. Nothing is proved about the stale resolution.
- Direct calls to the public `flipCard` that skip the gate: only the frame and counter contract of `Game.FlipCard` covers them. The invariant is stated for the `onCardClick` entry point.
- `moves` is a Kotlin `Int`. The model uses an unbounded integer, so wrap-around after 2^31 - 1 moves is not modelled.
- The `Card` and `GameState` declarations are not part of this model. Their constructor defaults are the assumptions stated above.
