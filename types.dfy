/** Core game types of the party-house simulation: guest archetypes and
    abilities, guest instances, phases, selectable items, the game state and
    the actions the reducer accepts. */
module Types {

  datatype Option<+T> = None | Some(value: T)

  /** Every distinct guest archetype in the game. */
  datatype GuestType =
    // Default guests (always in the starting rolodex)
    | OldFriend | RichPal | WildBuddy
    // Non-star purchasable guests
    | Driver | PrivateI | Hippy | CuteDog | Security | Wrestler | WatchDog
    | Spy | Grillmaster | Athlete | Dancer | MrPopular | Celebrity
    | TicketTaker | Comedian | Photographer | Caterer | Auctioneer | Mascot
    | Introvert | Stylist | Bartender | Writer | Climber | Cheerleader
    | Greeter | Magician | Cupid | Counselor | Werewolf | Monkey | RockStar
    | Gangster | Gambler
    // Star guests
    | Alien | Leprechaun | Genie | Dragon | Dinosaur | Mermaid | Ghost
    | Unicorn | Superhero

  /** Abilities a guest can have. Only `Trouble` has behaviour in the engine. */
  datatype AbilityType =
    | Trouble | CancelTrouble | Fetch | Boot | Peek | ShuffleOut | BringOne
    | BringTwo | PhotographerAbility | ComedianAbility | DancerAbility
    | MascotAbility | IntrovertAbility | StylistAbility | BartenderAbility
    | WriterAbility | ClimberAbility | CheerleaderAbility | GreeterAbility
    | MagicianAbility | CupidAbility | CounselorAbility | WerewolfAbility

  /** Immutable blueprint of one archetype. */
  datatype GuestDefinition = GuestDefinition(
    guestType: GuestType,
    name: string,
    shopCost: int,
    basePopularity: int,
    baseCash: int,
    ability: Option<AbilityType>,
    isStar: bool,
    maxCopies: int,
    color: string)

  /** A concrete guest instance; `id` is the numeric suffix of the
      instance's "guest_<n>" identifier. */
  datatype Guest = Guest(
    id: nat,
    guestType: GuestType,
    name: string,
    popularity: int,
    cash: int,
    ability: Option<AbilityType>,
    isStar: bool,
    abilityUsed: bool,
    troubleActive: bool,
    troubleCancelled: bool,
    climberLevel: Option<int>,
    werewolfAppearances: Option<int>,
    banned: bool)

  datatype GamePhase = Title | Party | PartyEnded | Shutdown | Shop | ScenarioWon | ScenarioLost

  datatype PartyAction = Idle | Admitting | Peeking | SelectingTarget | SelectingPair | Animating

  /** A selectable object of the scene. */
  datatype SelectableItem = GuestItem(guest: Guest) | FrontDoor | NoItem

  /** The caption line, one constructor per message the engine writes. */
  datatype Caption =
    | GetThisPartyStarted                       // "GET THIS PARTY STARTED!"
    | PartyIsFull                               // "THE PARTY IS FULL."
    | NoMoreGuests                              // "NO MORE GUESTS AVAILABLE."
    | CopsHaveShownUp                           // shutdown message
    | FullButActionsAvailable                   // "PARTY FULL, BUT ACTIONS STILL AVAILABLE."
    | HasArrived(guestName: string)             // "<NAME> HAS ARRIVED!"
    | YouWin                                    // "YOU WIN! THE PARTY WAS LEGENDARY!"
    | PartyEndedWith(popGain: int, cashGain: int) // "YOU HAVE ENDED THE PARTY. +p POP, +c CASH"
    | GuestBanned                               // "GUEST BANNED. MOVING ON..."
    | OutOfTime                                 // "OUT OF TIME! THE SUMMER IS OVER."
    | PartyOf(partyNumber: int, maxParties: int) // "PARTY n OF m. LET'S GO!"

  /** The complete game state at any point in time. */
  datatype GameState = GameState(
    phase: GamePhase,
    scenarioIndex: nat,
    partyNumber: int,
    maxParties: int,
    popularity: int,
    cash: int,
    maxPopularity: int,
    maxCash: int,
    houseSize: int,
    nextExpansionCost: int,
    guestsInHouse: seq<Guest>,
    rolodex: seq<Guest>,
    drawPile: seq<Guest>,
    starsRequired: int,
    scenarioStarTypes: seq<GuestType>,
    activeTroubleCount: int,
    troubleLimit: int,
    currentAction: PartyAction,
    peekedGuest: Option<Guest>,
    selectedItem: SelectableItem,
    caption: Caption,
    starsInHouse: int,
    turnsRemaining: int)

  /** Actions the player can dispatch to the game reducer. */
  datatype GameAction =
    | StartGame
    | OpenDoor
    | EndParty
    | UseAbility(guestId: nat)
    | SelectTarget(guestId: nat)
    | SelectItem(item: SelectableItem)
    | PeekAccept
    | PeekReject
    | BanGuest(guestId: nat)
    | BuyGuest(guestType: GuestType)
    | ExpandHouse
    | EndShop
    | NextScenario
    | Dismiss
}
