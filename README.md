# House-party game: rules engine and keyboard handler

This project models the core of a browser party game written in TypeScript.
The player hosts a series of parties. Each party admits guests one at a time
from a shuffled draw pile through the front door. Guests carry popularity,
cash, sometimes a star flag and sometimes trouble. Too much trouble brings
the police: the party shuts down and one guest must be banned from the
rolodex for good. Ending a party banks the guests' popularity and cash,
each clamped to a cap. Enough stars in the house wins the scenario.
Running out of parties loses it.

Two pieces of the game are modelled:

- **The rules engine** (`src/lib/game-engine.ts`):
  - the guest factory, with its module-level id counter;
  - the rolodex builder;
  - the Fisher–Yates shuffle;
  - the trouble and star counts;
  - the initial state;
  - every case of the reducer from (state, action) to the next state.
- **The keyboard handler** (`src/hooks/useKeyboardNavigation.ts`). This is
  the function from the current state and a pressed key to at most one
  command:
  - dismiss an overlay;
  - move the selection;
  - open the door;
  - end the party;
  - blame a guest after a shutdown.

Files:

| file | module | contents |
|---|---|---|
| `types.dfy` | `Types` | the records and unions of `src/lib/types.ts` |
| `constants.dfy` | `Constants` | the game's reference data and limits as one `Config` record, with `ValidConfig` naming what the rules rely on |
| `array_ops.dfy` | `ArrayOps` | JavaScript's `filter` and `findIndex` on sequences |
| `game_engine.dfy` | `GameEngine` | see below |
| `engine_properties.dfy` | `EngineProperties` | see below |
| `keyboard_navigation.dfy` | `KeyboardNavigation` | the key handler and its properties |

`GameEngine` holds:

- the pure reducer `Reduce`, one function per action;
- the loops as module-level methods: the shuffle over an array (`Shuffle`)
  and the reward loop (`TallyRewards`);
- the parts that touch the id counter as methods of the class `Engine`,
  which owns it: the guest factory (`CreateGuestInstance`), the nested
  rolodex loops (`AppendCopies`, `BuildInitialRolodex`), the initial state
  (`CreateInitialState`) and the reducer with its START_GAME case
  (`GameReducer`).

Each method is proved equal to the function that specifies it.

`EngineProperties` holds:

- what each action does;
- an invariant `Inv` that every reachable state keeps:
  - the house never exceeds its capacity;
  - both counters equal a recount;
  - during a party and in the shutdown that may end it, the house plus the
    draw pile is a permutation of the non-banned rolodex;
  - guest ids are distinct;
- `Run`, a fold of the reducer over a trace of actions, with the facts
  that the invariant survives every run and that a ban is permanent.

Effects are made explicit:

- **`Math.random`** becomes an oracle `rnd: nat -> nat`. At loop index
  `i`, the swap partner is `rnd(i) % (i + 1)`, so every index in `[0, i]`
  can be drawn (`ChoiceReachesEvery`).
- **The id counter.**
  - Guest ids `"guest_N"` are represented by the number `N`.
  - The counter's value is a field of `Engine`.
  - The pure `Reduce` receives the counter's value as a parameter; only
    START_GAME reads it.
- **Callbacks.** The handler's `actions.*` calls become a returned
  `Option<Command>`.
- **Key codes.** The eight codes the handler tests are constructors of
  `KeyCode`; every other code is the single constructor `OtherKey`, on
  which the handler never acts.

The round-trip lemmas of the keyboard handler assume that no two guests in
the house share an id; with duplicate ids the handler's `findIndex` finds
the first copy and a Right followed by a Left need not come back.
`EngineProperties.InvGivesHouseDistinct` shows that every reachable state
meets the assumption, because ids come from the counter and every action
keeps them distinct.

Where the code differs from the game's intended design, the model follows
the code:

- BAN_GUEST and SELECT_ITEM act in every phase.
- DISMISS acts only after a party has ended. In a won or lost scenario it
  leaves the state as it is.
- The abilities, the shop, peeking and scenario advance are declared as
  actions but have no case in the reducer, so they leave the state
  unchanged.

## Model

| member | source | states |
|---|---|---|
| ArrayOps.Filter | src/lib/game-engine.ts:65-71 | the filtered list is no longer than the input, its elements come from the input and satisfy the predicate, and every input element satisfying the predicate is kept |
| ArrayOps.FilterAppend | src/lib/game-engine.ts:138-140 | filtering a concatenation is the concatenation of the filtered parts |
| ArrayOps.FilterAll | src/lib/game-engine.ts:97 | filtering a list whose elements all satisfy the predicate returns it unchanged |
| ArrayOps.FindIndex | src/hooks/useKeyboardNavigation.ts:35-37 | -1 exactly when no element matches; otherwise the index of the first match |
| GameEngine.NewGuest | src/lib/game-engine.ts:26-43 | builds the guest for an archetype and an id: the definition's base values, every runtime flag cleared, a climber level only for climbers and an appearance count only for werewolves; NewGuestIsFresh states its id, ban, ability and trouble fields |
| GameEngine.NewGuestIsFresh | src/lib/game-engine.ts:26-43 | a new guest carries the counter's id, is not banned, has its ability unused, is active trouble exactly when its archetype's ability is "trouble", and is a star exactly when the archetype is |
| GameEngine.Copies | src/lib/game-engine.ts:48-50 | the guests the inner loop creates for one entry: max(quantity, 0) new guests of its archetype with consecutive ids from the counter; Engine.AppendCopies is proved to build exactly these |
| GameEngine.Rolodex | src/lib/game-engine.ts:45-53 | the rolodex has one guest per copy of every entry, numbered consecutively from the counter, none banned |
| GameEngine.RolodexIdsDistinct | src/lib/game-engine.ts:25-53 | no two guests of a rolodex share an id |
| GameEngine.RolodexesShareNoId | src/lib/game-engine.ts:25-53 | a rolodex built after the counter has moved past an earlier one shares no id with it |
| GameEngine.Choice | src/lib/game-engine.ts:59 | the swap partner at index i lies in [0, i] |
| GameEngine.ChoiceReachesEvery | src/lib/game-engine.ts:59 | every index in [0, i] is the swap partner for some oracle, so the oracle does not restrict which shuffles are possible |
| GameEngine.Swap | src/lib/game-engine.ts:60 | exchanges positions i and j and leaves every other position alone; SwapPermutes proves it a permutation |
| GameEngine.FisherYatesFrom | src/lib/game-engine.ts:58-61 | the sequence once the loop has swapped positions i down to 1 with their drawn partners; FisherYatesPermutes proves it a permutation |
| GameEngine.Shuffled | src/lib/game-engine.ts:56-63 | the shuffle's result for the draws: the loop from the last index, or the input when it is empty; ShuffledIsPermutation and ShuffledKeepsDistinctIds state its properties |
| GameEngine.SwapPermutes | src/lib/game-engine.ts:60 | a swap permutes the sequence |
| GameEngine.FisherYatesPermutes | src/lib/game-engine.ts:58-61 | the remaining loop iterations keep the length and the multiset of elements |
| GameEngine.ShuffledIsPermutation | src/lib/game-engine.ts:56-63 | the shuffle returns a permutation of its input for every sequence of draws |
| GameEngine.ShuffledShortIsIdentity | src/lib/game-engine.ts:58 | sequences of length 0 or 1 come back unchanged, because the loop never runs |
| GameEngine.SwapKeepsDistinctIds | src/lib/game-engine.ts:60 | a swap keeps guest ids distinct |
| GameEngine.FisherYatesKeepsDistinctIds | src/lib/game-engine.ts:58-61 | the shuffle loop keeps guest ids distinct |
| GameEngine.ShuffledKeepsDistinctIds | src/lib/game-engine.ts:56-63 | shuffling keeps guest ids distinct |
| GameEngine.Shuffle | src/lib/game-engine.ts:56-63 | the in-place swap loop over a copy of the input returns exactly the Fisher–Yates result for the draws, a permutation of the input |
| GameEngine.CountTrouble | src/lib/game-engine.ts:65-67 | the number of active, uncancelled trouble guests is at most the number of guests |
| GameEngine.CountStars | src/lib/game-engine.ts:69-71 | the number of stars is at most the number of guests |
| GameEngine.CountsAfterAdmit | src/lib/game-engine.ts:138-140 | admitting a guest raises the trouble count by one exactly when it is active trouble, and the star count by one exactly when it is a star |
| GameEngine.TotalPopularity | src/lib/game-engine.ts:190-195 | the sum of the guests' popularity; TallyRewards is proved to compute it |
| GameEngine.TotalCash | src/lib/game-engine.ts:190-195 | the sum of the guests' cash; TallyRewards is proved to compute it |
| GameEngine.TallyRewards | src/lib/game-engine.ts:190-195 | the reward loop sums every guest's popularity and cash |
| GameEngine.ClampToCap | src/lib/game-engine.ts:197-207 | min-then-max lands in [0, cap] for a non-negative cap, keeps a value already there, turns one above the cap into the cap and one below zero into zero |
| GameEngine.InitialState | src/lib/game-engine.ts:77-114 | the state a scenario starts in: a party numbered 1 with an empty house, zero scores and counters, the caps and limits from the configuration, the front door selected, and the shuffled non-banned rolodex as draw pile; InitialStateSatisfiesInv states its properties |
| GameEngine.HasUsableAbility | src/lib/game-engine.ts:159-161 | some guest has an unused ability other than trouble; OpenDoorAdmitsHead states the caption it chooses |
| GameEngine.OpenDoorStep | src/lib/game-engine.ts:128-175 | OPEN_DOOR case by case: no change outside a party, a caption for a full house or an empty pile, otherwise admitting the head of the pile with a shutdown when trouble reaches the limit; OpenDoorOutsidePartyIsNoOp, OpenDoorRefusedChangesOnlyCaption, OpenDoorAdmitsHead and OpenDoorPreservesInv state its properties |
| GameEngine.EndPartyStep | src/lib/game-engine.ts:177-210 | END_PARTY: no change outside a party, a win with enough stars, otherwise the clamped scores; EndPartyOutsidePartyIsNoOp, EndPartyWins, EndPartyScores and EndPartyPreservesInv state its properties |
| GameEngine.SelectItemStep | src/lib/game-engine.ts:212-216 | SELECT_ITEM in any phase; SelectItemChangesOnlySelection states it |
| GameEngine.BanInRolodex | src/lib/game-engine.ts:220-222 | the rolodex with every entry carrying the id marked banned; BanGuestMarksOnlyTarget states its properties |
| GameEngine.BanGuestStep | src/lib/game-engine.ts:218-229 | BAN_GUEST in any phase: the marked rolodex, the party-ended phase and the banned caption; BanGuestMarksOnlyTarget, BanGuestPreservesInv and BanIsPermanent state its properties |
| GameEngine.DismissStep | src/lib/game-engine.ts:231-261 | DISMISS: no change outside party-ended, a loss after the last party, otherwise the next party with a fresh shuffle of the non-banned rolodex; DismissOutsidePartyEndedIsNoOp, DismissAfterLastPartyLoses, DismissStartsNextParty and DismissPreservesInv state its properties |
| GameEngine.Reduce | src/lib/game-engine.ts:120-266 | the reducer: a fresh scenario for START_GAME, the step functions for the five handled actions, and the state unchanged for every other action; ReducePreservesInv, UnimplementedActionsAreNoOps, WonStaysWon and ReduceKeepsBans state its properties |
| GameEngine.Engine.constructor | src/lib/game-engine.ts:25 | the counter starts at 0 |
| GameEngine.Engine.CreateGuestInstance | src/lib/game-engine.ts:26-43 | returns the guest built from its archetype with the current counter as id, and advances the counter by one |
| GameEngine.Engine.AppendCopies | src/lib/game-engine.ts:48-50 | the inner loop appends one fresh guest per copy and advances the counter by the number of copies |
| GameEngine.Engine.BuildInitialRolodex | src/lib/game-engine.ts:45-53 | the nested loops produce exactly the rolodex numbered from the counter, and advance the counter by its length |
| GameEngine.Engine.CreateInitialState | src/lib/game-engine.ts:77-114 | the initial state holds the freshly built rolodex and its shuffled non-banned guests; the counter advances by the rolodex's length |
| GameEngine.Engine.GameReducer | src/lib/game-engine.ts:120-266 | the reducer's result is the pure reducer's at the current counter; only START_GAME moves the counter |
| EngineProperties.OpenDoorOutsidePartyIsNoOp | src/lib/game-engine.ts:129 | outside a party, OPEN_DOOR returns the state unchanged |
| EngineProperties.OpenDoorRefusedChangesOnlyCaption | src/lib/game-engine.ts:130-135 | during a party, a full house or an empty pile changes only the caption: "full" if the house is full, otherwise "no more guests" |
| EngineProperties.OpenDoorAdmitsHead | src/lib/game-engine.ts:137-174 | a successful admission appends the head of the pile to the house and drops it from the pile; keeps the house within capacity; sets both counters to a recount; shuts down exactly when trouble reaches the limit and then selects the first guest; otherwise stays in the party with the "has arrived" caption, or once the house is full the "actions still available" or "full" caption; changes no other field |
| EngineProperties.CanOpenDoorIffAdmits | src/components/game/Sidebar.tsx:14-17 | the sidebar's "can open door" condition holds exactly when OPEN_DOOR admits a guest; otherwise the house is unchanged |
| EngineProperties.EndPartyOutsidePartyIsNoOp | src/lib/game-engine.ts:178 | outside a party, END_PARTY returns the state unchanged |
| EngineProperties.EndPartyWins | src/lib/game-engine.ts:181-187 | enough stars wins the scenario; only phase and caption change |
| EngineProperties.EndPartyScores | src/lib/game-engine.ts:189-209 | otherwise popularity and cash become max(0, min(old + total, cap)), lie in [0, cap] for a non-negative cap, the phase becomes party-ended, and only the caption changes besides |
| EngineProperties.EndPartyTwoGuestExample | src/lib/game-engine.ts:189-209 | two guests worth (2, 1) and (3, 0) bank +5 popularity and +1 cash and say so in the caption |
| EngineProperties.SelectItemChangesOnlySelection | src/lib/game-engine.ts:212-216 | SELECT_ITEM sets the selection in every phase and changes nothing else |
| EngineProperties.BanGuestMarksOnlyTarget | src/lib/game-engine.ts:218-229 | BAN_GUEST keeps the rolodex's length and ids, sets the ban flag exactly on entries carrying the id, never clears one, leaves every other field of every entry alone, and ends the party |
| EngineProperties.DismissOutsidePartyEndedIsNoOp | src/lib/game-engine.ts:233-260 | outside party-ended, DISMISS returns the state unchanged |
| EngineProperties.DismissAfterLastPartyLoses | src/lib/game-engine.ts:235-242 | dismissing the last party loses the scenario; only phase and caption change |
| EngineProperties.DismissStartsNextParty | src/lib/game-engine.ts:244-258 | the next party starts with an empty house, zero counters, idle action, no peeked guest, the front door selected, the "party n of m" caption and turnsRemaining = maxParties - old partyNumber; its draw pile is a permutation of the non-banned rolodex, every element a non-banned rolodex entry; no other field changes |
| EngineProperties.UnimplementedActionsAreNoOps | src/lib/game-engine.ts:263-264 | every declared action without a case leaves the state unchanged |
| EngineProperties.WonStaysWon | src/lib/game-engine.ts:120-266 | a won scenario stays won under every action except a restart and a ban |
| EngineProperties.FilterKeepsDistinctIds | src/lib/game-engine.ts:244 | filtering keeps guest ids distinct |
| EngineProperties.InitialStateSatisfiesInv | src/lib/game-engine.ts:77-114 | a new scenario starts in a party with an empty house, the front door selected and nothing banned; its draw pile is a permutation of the whole rolodex, and the invariant holds |
| EngineProperties.OpenDoorPreservesInv | src/lib/game-engine.ts:128-175 | OPEN_DOOR keeps the invariant |
| EngineProperties.EndPartyPreservesInv | src/lib/game-engine.ts:177-210 | END_PARTY keeps the invariant |
| EngineProperties.BanGuestPreservesInv | src/lib/game-engine.ts:218-229 | BAN_GUEST keeps the invariant |
| EngineProperties.DismissPreservesInv | src/lib/game-engine.ts:231-261 | DISMISS keeps the invariant |
| EngineProperties.ReducePreservesInv | src/lib/game-engine.ts:120-266 | every action keeps the invariant |
| EngineProperties.PartyGuestsAreNotBanned | src/lib/game-engine.ts:97 | during a party and in a shutdown, every guest in the house or the pile is a non-banned rolodex entry, and none carries a banned entry's id |
| EngineProperties.ShutdownBlameBansRolodexEntry | src/lib/game-engine.ts:218-229 | in a reachable shutdown, banning any house guest marks a rolodex entry with that guest's id as banned, so the blamed guest is kept out of later parties |
| EngineProperties.InvGivesHouseDistinct | src/lib/game-engine.ts:137-138 | in every reachable state no two guests in the house share an id, which the keyboard round-trip lemmas assume |
| EngineProperties.HouseAndPileAreDisjoint | src/lib/game-engine.ts:137-138 | no guest id is both in the house and in the draw pile |
| EngineProperties.RunPreservesInv | src/lib/game-engine.ts:120-266 | every state reached by a run of actions keeps the invariant, so the house never exceeds capacity and the counters never drift |
| EngineProperties.ReduceKeepsBans | src/lib/game-engine.ts:220-222 | no action but a restart clears a ban or changes a rolodex entry's id |
| EngineProperties.BanIsPermanent | src/lib/game-engine.ts:218-261 | over any run without a restart, a banned entry stays banned and, whenever a party is on, no guest in the house or the pile carries its id |
| KeyboardNavigation.SelectableItems | src/hooks/useKeyboardNavigation.ts:18-24 | the item list is one longer than the house; item 0 is the front door and item i+1 is guest i |
| KeyboardNavigation.GetSelectableItems | src/hooks/useKeyboardNavigation.ts:18-24 | the push loop builds exactly that list |
| KeyboardNavigation.ItemIndex | src/hooks/useKeyboardNavigation.ts:35-37 | findIndex over the item list for the guest item with the id; FindIndex states its result and SelectedIndex its use |
| KeyboardNavigation.GuestIndex | src/hooks/useKeyboardNavigation.ts:87 | findIndex over the house for the guest with the id; GuestIndexOfMember and ShutdownCurrentIndex state its use |
| KeyboardNavigation.SelectedIndex | src/hooks/useKeyboardNavigation.ts:29-41 | the index is in range for a non-empty list; it is 0 for the front door, for no selection and for a guest missing from the list, and otherwise the first item with the selected guest's id |
| KeyboardNavigation.ShutdownCurrentIndex | src/hooks/useKeyboardNavigation.ts:84-89 | the shutdown start index is in range for a non-empty house, is the selected guest's position when it is in the house, and is 0 when no guest is selected or the selected guest is not in the house |
| KeyboardNavigation.ArrowTarget | src/hooks/useKeyboardNavigation.ts:113-138 | only the four arrows yield a target, and from an index in [0, last] the target is in [0, last] |
| KeyboardNavigation.DismissKey | src/hooks/useKeyboardNavigation.ts:65-76 | the overlay keys: X, Z, Enter and Space dismiss, every other key does nothing; DismissPhasesOnlyDismiss states it |
| KeyboardNavigation.ShutdownKey | src/hooks/useKeyboardNavigation.ts:78-105 | shutdown keys: nothing with an empty house, wrapping arrows over the guests, X or Enter blaming the selected guest; ShutdownNavigationWraps, ShutdownRightThenLeftReturns, ShutdownLeftThenRightReturns and ShutdownConfirmBansSelection state its properties |
| KeyboardNavigation.PartyKey | src/hooks/useKeyboardNavigation.ts:107-157 | party keys: clamped arrow moves over the item list, X and Z on the front door; PartyNavigationClamps, ArrowTargetSteps, PartyActionKeys and PartyArrowsReturn state its properties |
| KeyboardNavigation.HandleKeyDown | src/hooks/useKeyboardNavigation.ts:47-158 | the phase dispatch of the handler: overlay keys after a party, a win or a loss, shutdown keys, party keys, and nothing on the title and shop screens; OtherPhasesIgnoreKeys, BanCommandsOnlyInShutdown and SelectionsStayInScene state properties across phases |
| KeyboardNavigation.DismissPhasesOnlyDismiss | src/hooks/useKeyboardNavigation.ts:65-76 | after a party, a win or a loss, only X, Z, Enter and Space produce a command, and it is dismiss |
| KeyboardNavigation.OtherPhasesIgnoreKeys | src/hooks/useKeyboardNavigation.ts:64-158 | on the title and shop screens no key produces a command |
| KeyboardNavigation.ShutdownNavigationWraps | src/hooks/useKeyboardNavigation.ts:79-97 | with no guests nothing happens; otherwise Right/Down select guest (cur+1) mod n and Left/Up guest (cur-1+n) mod n, both valid indices |
| KeyboardNavigation.ShutdownRightThenLeftReturns | src/hooks/useKeyboardNavigation.ts:91-97 | in a shutdown, Right and then Left come back to the guest the navigation started from |
| KeyboardNavigation.ShutdownLeftThenRightReturns | src/hooks/useKeyboardNavigation.ts:91-97 | in a shutdown, Left and then Right come back to the guest the navigation started from |
| KeyboardNavigation.ShutdownConfirmBansSelection | src/hooks/useKeyboardNavigation.ts:98-103 | in a shutdown, X or Enter blames the selected guest by its id, and nothing happens without a selected guest or with an empty house |
| KeyboardNavigation.ShutdownOtherKeysIgnored | src/hooks/useKeyboardNavigation.ts:91-104 | in a shutdown, every key other than the four arrows, X and Enter (Z and Space included) does nothing |
| KeyboardNavigation.BanCommandsOnlyInShutdown | src/hooks/useKeyboardNavigation.ts:78-105 | a ban command arises only in a shutdown with guests present, only from X or Enter, and only for the selected guest |
| KeyboardNavigation.PartyNavigationClamps | src/hooks/useKeyboardNavigation.ts:107-140 | in a party, an arrow selects the item at its target index, which is a valid index into the item list |
| KeyboardNavigation.ArrowTargetSteps | src/hooks/useKeyboardNavigation.ts:113-138 | Right and Down step forward by 1 and 10, stopping at the last index; Left and Up step back by 1 and 10, stopping at 0; Right then Left, and Left then Right, return to the start |
| KeyboardNavigation.PartyActionKeys | src/hooks/useKeyboardNavigation.ts:141-155 | in a party, X opens the door and Z ends the party only while the front door is selected; other non-arrow keys do nothing |
| KeyboardNavigation.SelectionsStayInScene | src/hooks/useKeyboardNavigation.ts:78-140 | every selection the handler asks for is the front door or a guest in the house |
| KeyboardNavigation.SelectedIndexOfItem | src/hooks/useKeyboardNavigation.ts:29-41 | with distinct ids, the index of the item at position t is t |
| KeyboardNavigation.PartyRightFromItem | src/hooks/useKeyboardNavigation.ts:113-116 | in a party, Right from any item but the last selects the next item |
| KeyboardNavigation.PartyLeftFromItem | src/hooks/useKeyboardNavigation.ts:118-121 | in a party, Left from any item but the front door selects the previous item |
| KeyboardNavigation.PartyArrowsReturn | src/hooks/useKeyboardNavigation.ts:113-121 | in a party, Right and then Left from any item but the last come back to it |

## Left out

- Abilities, the shop, peeking, targeted actions, house expansion and
  scenario advance. They are declared as actions and state fields but have
  no behaviour in the reducer. The model carries the declarations, and
  `UnimplementedActionsAreNoOps` states that they leave the state alone.
- `TOGGLE_ROLODEX`, which `src/hooks/useGameState.ts:35` dispatches. It is
  not a declared action, so it has no constructor here. The reducer's
  default case would return the state unchanged for it, as it does for the
  declared actions without a case.
- Caption text. Each caption is a constructor of `Caption` carrying the
  numbers and names it shows. The wording and the `toUpperCase` formatting
  are not modelled.
- The contents of the constants module (guest definitions, the default
  rolodex, scenarios, limits). It is not part of this model. It is a
  `Config` parameter, and the invariant results assume `ValidConfig`:
  - a non-negative house size;
  - a positive trouble limit;
  - non-negative caps;
  - at least one scenario.
- GameEngine.InitialState and GameEngine.Engine.CreateInitialState require a
  scenario index within the scenario list. For any other index the source
  reads a field of `undefined` and throws.
- The distribution of the shuffle. The random draws are an oracle; no
  claim is made about probabilities or uniformity.
- Guest id strings. An id `"guest_N"` is represented by the number `N`. The
  mapping is injective, so id comparisons agree.
- Numbers. Popularity, cash and every counter are JavaScript numbers
  (floating point); the model uses unbounded integers.
- The React components and hooks. This covers:
  - rendering;
  - `useReducer` wiring;
  - registering the key listener on `window`;
  - `preventDefault`.

  The sidebar's door condition is modelled only as the predicate
  `CanOpenDoor`.
- Aliasing. The engine's records are immutable values here. In the source,
  the reducer shares unchanged arrays and guests between the old and new
  state. No code mutates them, so nothing observable depends on the sharing.
