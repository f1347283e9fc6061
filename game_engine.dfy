/** The rules engine: the entity factory, the Fisher–Yates shuffle, the
    trouble and star counts, the initial state and the reducer from
    (state, action) to the next state. */
module GameEngine {
  import opened Types
  import opened Constants
  import opened ArrayOps

  // ============================================================
  // Entity factory
  // ============================================================

  /** The guest that `createGuestInstance(t)` returns when the module's id
      counter stands at `id`: base values from the definition, every runtime
      flag cleared, trouble active exactly for the "trouble" ability, a
      climber level only for climbers and an appearance counter only for
      werewolves. */
  function NewGuest(def: GuestDefinition, t: GuestType, id: nat): Guest {
    Guest(
      id := id,
      guestType := def.guestType,
      name := def.name,
      popularity := def.basePopularity,
      cash := def.baseCash,
      ability := def.ability,
      isStar := def.isStar,
      abilityUsed := false,
      troubleActive := def.ability == Some(Trouble),
      troubleCancelled := false,
      climberLevel := if t == Climber then Some(1) else None,
      werewolfAppearances := if t == Werewolf then Some(0) else None,
      banned := false)
  }

  predicate IsActiveTrouble(g: Guest) { g.troubleActive && !g.troubleCancelled }

  predicate IsStar(g: Guest) { g.isStar }

  predicate NotBanned(g: Guest) { !g.banned }

  /** A freshly created guest carries the requested id, is not banned, has its
      ability unused, and counts as trouble exactly when its archetype's
      ability is "trouble". */
  lemma NewGuestIsFresh(def: GuestDefinition, t: GuestType, id: nat)
    ensures NewGuest(def, t, id).id == id
    ensures NotBanned(NewGuest(def, t, id)) && !NewGuest(def, t, id).abilityUsed
    ensures IsActiveTrouble(NewGuest(def, t, id)) <==> def.ability == Some(Trouble)
    ensures IsStar(NewGuest(def, t, id)) <==> def.isStar
  {
  }

  /** How many times the inner loop of the rolodex builder runs for a
      quantity: the loop `i < quantity` does not run for a non-positive one. */
  function CopyCount(quantity: int): nat {
    if quantity > 0 then quantity else 0
  }

  function TotalCopies(entries: seq<RolodexEntry>): nat {
    if entries == [] then 0
    else TotalCopies(entries[..|entries| - 1]) + CopyCount(entries[|entries| - 1].quantity)
  }

  /** The guests created for one rolodex entry, numbered from `firstId`. */
  function Copies(defs: GuestType -> GuestDefinition, t: GuestType, quantity: int, firstId: nat): (r: seq<Guest>)
    ensures |r| == CopyCount(quantity)
    ensures forall k :: 0 <= k < |r| ==> r[k] == NewGuest(defs(t), t, firstId + k)
  {
    seq(CopyCount(quantity), k requires 0 <= k => NewGuest(defs(t), t, firstId + k))
  }

  /** The rolodex that `buildInitialRolodex` returns when the id counter
      stands at `firstId`: every entry expanded into its copies, in order,
      with consecutive ids. */
  function Rolodex(defs: GuestType -> GuestDefinition, entries: seq<RolodexEntry>, firstId: nat): (r: seq<Guest>)
    ensures |r| == TotalCopies(entries)
    ensures forall k :: 0 <= k < |r| ==> r[k].id == firstId + k && NotBanned(r[k])
    decreases |entries|
  {
    if entries == [] then []
    else
      var prefix := Rolodex(defs, entries[..|entries| - 1], firstId);
      var last := entries[|entries| - 1];
      prefix + Copies(defs, last.guestType, last.quantity, firstId + |prefix|)
  }

  lemma CopiesGrow(defs: GuestType -> GuestDefinition, t: GuestType, n: nat, firstId: nat)
    ensures Copies(defs, t, n + 1, firstId) == Copies(defs, t, n, firstId) + [NewGuest(defs(t), t, firstId + n)]
  {
  }

  lemma RolodexStep(defs: GuestType -> GuestDefinition, entries: seq<RolodexEntry>, e: nat, firstId: nat)
    requires e < |entries|
    ensures Rolodex(defs, entries[..e + 1], firstId)
         == Rolodex(defs, entries[..e], firstId)
          + Copies(defs, entries[e].guestType, entries[e].quantity, firstId + |Rolodex(defs, entries[..e], firstId)|)
  {
    assert entries[..e + 1][..e] == entries[..e];
  }

  /** No two guests of the sequence share an id. */
  ghost predicate DistinctIds(gs: seq<Guest>) {
    forall i, j :: 0 <= i < |gs| && 0 <= j < |gs| && gs[i].id == gs[j].id ==> i == j
  }

  lemma RolodexIdsDistinct(defs: GuestType -> GuestDefinition, entries: seq<RolodexEntry>, firstId: nat)
    ensures DistinctIds(Rolodex(defs, entries, firstId))
  {
  }

  /** Ids stay unique across rolodexes built one after the other: a rolodex
      built once the counter has moved past an earlier one shares no id
      with it. */
  lemma RolodexesShareNoId(defs: GuestType -> GuestDefinition, entries: seq<RolodexEntry>,
                           first: nat, later: seq<RolodexEntry>, second: nat)
    requires first + TotalCopies(entries) <= second
    ensures forall i, j :: 0 <= i < |Rolodex(defs, entries, first)| && 0 <= j < |Rolodex(defs, later, second)| ==>
      Rolodex(defs, entries, first)[i].id != Rolodex(defs, later, second)[j].id
  {
  }

  // ============================================================
  // Randomizer: Fisher–Yates
  // ============================================================

  /** The index the Fisher–Yates step at position `i` swaps with. The source
      draws it uniformly from [0, i]; here the oracle `rnd` picks it, and
      every index in [0, i] can be picked. */
  function Choice(rnd: nat -> nat, i: nat): (j: nat)
    ensures j <= i
  {
    rnd(i) % (i + 1)
  }

  /** Every index in [0, i] is drawn by some oracle: the one that always
      answers that index. */
  lemma ChoiceReachesEvery(i: nat, j: nat)
    requires j <= i
    ensures Choice((_: nat) => j, i) == j
  {
    assert j == 0 * (i + 1) + j;
  }

  function Swap<T>(s: seq<T>, i: nat, j: nat): (r: seq<T>)
    requires i < |s| && j < |s|
    ensures |r| == |s| && r[i] == s[j] && r[j] == s[i]
    ensures forall k :: 0 <= k < |s| && k != i && k != j ==> r[k] == s[k]
  {
    s[i := s[j]][j := s[i]]
  }

  /** The sequence once the shuffle loop has handled positions i, i-1, ..., 1. */
  function FisherYatesFrom<T>(s: seq<T>, i: nat, rnd: nat -> nat): seq<T>
    requires i < |s|
    decreases i
  {
    if i == 0 then s else FisherYatesFrom(Swap(s, i, Choice(rnd, i)), i - 1, rnd)
  }

  /** What `shuffle` returns for the random draws `rnd`. */
  function Shuffled<T>(s: seq<T>, rnd: nat -> nat): seq<T> {
    if |s| == 0 then s else FisherYatesFrom(s, |s| - 1, rnd)
  }

  lemma UpdatePermutes<T>(s: seq<T>, i: nat, v: T)
    requires i < |s|
    ensures multiset(s[i := v]) == multiset(s) - multiset{s[i]} + multiset{v}
  {
  }

  lemma SwapPermutes<T>(s: seq<T>, i: nat, j: nat)
    requires i < |s| && j < |s|
    ensures multiset(Swap(s, i, j)) == multiset(s)
  {
    if i != j {
      UpdatePermutes(s, i, s[j]);
      UpdatePermutes(s[i := s[j]], j, s[i]);
    }
  }

  lemma {:induction false} FisherYatesPermutes<T>(s: seq<T>, i: nat, rnd: nat -> nat)
    requires i < |s|
    ensures |FisherYatesFrom(s, i, rnd)| == |s|
    ensures multiset(FisherYatesFrom(s, i, rnd)) == multiset(s)
    decreases i
  {
    if i > 0 {
      SwapPermutes(s, i, Choice(rnd, i));
      FisherYatesPermutes(Swap(s, i, Choice(rnd, i)), i - 1, rnd);
    }
  }

  /** The shuffle returns a permutation of its input, whatever the draws. */
  lemma ShuffledIsPermutation<T>(s: seq<T>, rnd: nat -> nat)
    ensures |Shuffled(s, rnd)| == |s|
    ensures multiset(Shuffled(s, rnd)) == multiset(s)
  {
    if |s| > 0 {
      FisherYatesPermutes(s, |s| - 1, rnd);
    }
  }

  /** Sequences of length zero or one come back unchanged. */
  lemma ShuffledShortIsIdentity<T>(s: seq<T>, rnd: nat -> nat)
    requires |s| <= 1
    ensures Shuffled(s, rnd) == s
  {
  }

  lemma SwapKeepsDistinctIds(s: seq<Guest>, i: nat, j: nat)
    requires i < |s| && j < |s| && DistinctIds(s)
    ensures DistinctIds(Swap(s, i, j))
  {
    var r := Swap(s, i, j);
    forall a, b | 0 <= a < |r| && 0 <= b < |r| && r[a].id == r[b].id
      ensures a == b
    {
      var a' := if a == i then j else if a == j then i else a;
      var b' := if b == i then j else if b == j then i else b;
      assert r[a] == s[a'] && r[b] == s[b'];
    }
  }

  lemma {:induction false} FisherYatesKeepsDistinctIds(s: seq<Guest>, i: nat, rnd: nat -> nat)
    requires i < |s| && DistinctIds(s)
    ensures DistinctIds(FisherYatesFrom(s, i, rnd))
    decreases i
  {
    if i > 0 {
      SwapKeepsDistinctIds(s, i, Choice(rnd, i));
      FisherYatesKeepsDistinctIds(Swap(s, i, Choice(rnd, i)), i - 1, rnd);
    }
  }

  lemma ShuffledKeepsDistinctIds(s: seq<Guest>, rnd: nat -> nat)
    requires DistinctIds(s)
    ensures DistinctIds(Shuffled(s, rnd))
  {
    if |s| > 0 {
      FisherYatesKeepsDistinctIds(s, |s| - 1, rnd);
    }
  }

  /** Fisher–Yates on a fresh copy of the input: for i from n-1 down to 1,
      swap position i with the drawn position j in [0, i]. */
  method Shuffle<T>(arr: seq<T>, rnd: nat -> nat) returns (r: seq<T>)
    ensures r == Shuffled(arr, rnd)
    ensures multiset(r) == multiset(arr)
  {
    var a := new T[|arr|](k requires 0 <= k < |arr| => arr[k]);
    assert a[..] == arr;
    var i := a.Length - 1;
    while i > 0
      invariant -1 <= i < a.Length && (i == -1 ==> a.Length == 0)
      invariant 0 <= i ==> FisherYatesFrom(a[..], i, rnd) == Shuffled(arr, rnd)
    {
      var j := Choice(rnd, i);
      ghost var before := a[..];
      a[i], a[j] := a[j], a[i];
      assert a[..] == before[i := before[j]][j := before[i]];
      assert FisherYatesFrom(before, i, rnd) == FisherYatesFrom(a[..], i - 1, rnd);
      i := i - 1;
    }
    r := a[..];
    ShuffledIsPermutation(arr, rnd);
  }

  // ============================================================
  // Counting and scoring
  // ============================================================

  /** The guests whose trouble is active and not cancelled. */
  function CountTrouble(guests: seq<Guest>): (n: nat)
    ensures n <= |guests|
  {
    |Filter(guests, IsActiveTrouble)|
  }

  function CountStars(guests: seq<Guest>): (n: nat)
    ensures n <= |guests|
  {
    |Filter(guests, IsStar)|
  }

  /** Admitting one guest raises the trouble count by one exactly when that
      guest is active trouble, and the star count by one exactly when it is a
      star. */
  lemma CountsAfterAdmit(guests: seq<Guest>, g: Guest)
    ensures CountTrouble(guests + [g]) == CountTrouble(guests) + (if IsActiveTrouble(g) then 1 else 0)
    ensures CountStars(guests + [g]) == CountStars(guests) + (if IsStar(g) then 1 else 0)
  {
    FilterAppend(guests, [g], IsActiveTrouble);
    FilterAppend(guests, [g], IsStar);
  }

  function TotalPopularity(guests: seq<Guest>): int {
    if guests == [] then 0
    else TotalPopularity(guests[..|guests| - 1]) + guests[|guests| - 1].popularity
  }

  function TotalCash(guests: seq<Guest>): int {
    if guests == [] then 0
    else TotalCash(guests[..|guests| - 1]) + guests[|guests| - 1].cash
  }

  /** The reward loop of END_PARTY: it adds up every guest's popularity and
      cash. */
  method TallyRewards(guests: seq<Guest>) returns (popGain: int, cashGain: int)
    ensures popGain == TotalPopularity(guests)
    ensures cashGain == TotalCash(guests)
  {
    popGain, cashGain := 0, 0;
    for i := 0 to |guests|
      invariant popGain == TotalPopularity(guests[..i])
      invariant cashGain == TotalCash(guests[..i])
    {
      assert guests[..i + 1][..i] == guests[..i];
      popGain := popGain + guests[i].popularity;
      cashGain := cashGain + guests[i].cash;
    }
    assert guests[..|guests|] == guests;
  }

  function Min(a: int, b: int): int { if a <= b then a else b }

  function Max(a: int, b: int): int { if a >= b then a else b }

  /** `Math.max(0, Math.min(x, cap))`: with a non-negative cap the result
      lies in [0, cap], a value already there is kept, one above the cap
      becomes the cap and one below zero becomes zero. */
  function ClampToCap(x: int, cap: int): (r: int)
    ensures 0 <= cap ==> 0 <= r <= cap
    ensures 0 <= x <= cap ==> r == x
    ensures 0 <= cap < x ==> r == cap
    ensures x < 0 ==> r == 0
  {
    Max(0, Min(x, cap))
  }

  // ============================================================
  // Initial state
  // ============================================================

  /** `createInitialState` for the rolodex its builder produced and the
      draws its shuffle consumed. */
  function InitialState(cfg: Config, scenarioIndex: nat, rolodex: seq<Guest>, rnd: nat -> nat): GameState
    requires scenarioIndex < |cfg.scenarios|
  {
    GameState(
      phase := Party,
      scenarioIndex := scenarioIndex,
      partyNumber := 1,
      maxParties := cfg.maxPartiesPerScenario,
      popularity := 0,
      cash := 0,
      maxPopularity := cfg.initialPopularityCap,
      maxCash := cfg.initialCashCap,
      houseSize := cfg.initialHouseSize,
      nextExpansionCost := cfg.initialExpansionCost,
      guestsInHouse := [],
      rolodex := rolodex,
      drawPile := Shuffled(Filter(rolodex, NotBanned), rnd),
      starsRequired := cfg.starsRequired,
      scenarioStarTypes := cfg.scenarios[scenarioIndex].starTypes,
      activeTroubleCount := 0,
      troubleLimit := cfg.troubleLimit,
      currentAction := Idle,
      peekedGuest := None,
      selectedItem := FrontDoor,
      caption := GetThisPartyStarted,
      starsInHouse := 0,
      turnsRemaining := cfg.maxPartiesPerScenario)
  }

  // ============================================================
  // Reducer
  // ============================================================

  /** Some guest in the sequence still has an unused ability other than
      trouble. */
  predicate HasUsableAbility(guests: seq<Guest>) {
    exists i :: 0 <= i < |guests| && !guests[i].abilityUsed && guests[i].ability.Some? && guests[i].ability != Some(Trouble)
  }

  /** OPEN_DOOR: admit the head of the draw pile if the party is on, the
      house has room and the pile is not empty. */
  function OpenDoorStep(s: GameState): GameState {
    if s.phase != Party then s
    else if |s.guestsInHouse| >= s.houseSize then s.(caption := PartyIsFull)
    else if |s.drawPile| == 0 then s.(caption := NoMoreGuests)
    else
      var nextGuest := s.drawPile[0];
      var newGuests := s.guestsInHouse + [nextGuest];
      var trouble := CountTrouble(newGuests);
      var stars := CountStars(newGuests);
      if trouble >= s.troubleLimit then
        s.(guestsInHouse := newGuests, drawPile := s.drawPile[1..],
           activeTroubleCount := trouble, starsInHouse := stars,
           phase := Shutdown, caption := CopsHaveShownUp,
           selectedItem := GuestItem(newGuests[0]))
      else
        var isFull := |newGuests| >= s.houseSize;
        s.(guestsInHouse := newGuests, drawPile := s.drawPile[1..],
           activeTroubleCount := trouble, starsInHouse := stars,
           caption := if isFull then (if HasUsableAbility(newGuests) then FullButActionsAvailable else PartyIsFull)
                      else HasArrived(nextGuest.name))
  }

  /** END_PARTY: win if enough stars are in the house, otherwise bank the
      guests' popularity and cash, clamped to [0, cap]. */
  function EndPartyStep(s: GameState): GameState {
    if s.phase != Party then s
    else if s.starsInHouse >= s.starsRequired then s.(phase := ScenarioWon, caption := YouWin)
    else
      var popGain := TotalPopularity(s.guestsInHouse);
      var cashGain := TotalCash(s.guestsInHouse);
      s.(phase := PartyEnded,
         popularity := ClampToCap(s.popularity + popGain, s.maxPopularity),
         cash := ClampToCap(s.cash + cashGain, s.maxCash),
         caption := PartyEndedWith(popGain, cashGain))
  }

  /** SELECT_ITEM, in any phase. */
  function SelectItemStep(s: GameState, item: SelectableItem): GameState {
    s.(selectedItem := item)
  }

  /** The rolodex with every entry carrying `guestId` marked banned. */
  function BanInRolodex(rolodex: seq<Guest>, guestId: nat): seq<Guest> {
    seq(|rolodex|, k requires 0 <= k < |rolodex| =>
      if rolodex[k].id == guestId then rolodex[k].(banned := true) else rolodex[k])
  }

  /** BAN_GUEST, in any phase. */
  function BanGuestStep(s: GameState, guestId: nat): GameState {
    s.(phase := PartyEnded, rolodex := BanInRolodex(s.rolodex, guestId), caption := GuestBanned)
  }

  /** DISMISS: only after a party has ended; either the scenario is lost or
      the next party starts with a fresh shuffle of the non-banned rolodex. */
  function DismissStep(s: GameState, rnd: nat -> nat): GameState {
    if s.phase == PartyEnded then
      var nextPartyNum := s.partyNumber + 1;
      if nextPartyNum > s.maxParties then
        s.(phase := ScenarioLost, caption := OutOfTime)
      else
        s.(phase := Party,
           partyNumber := nextPartyNum,
           guestsInHouse := [],
           drawPile := Shuffled(Filter(s.rolodex, NotBanned), rnd),
           activeTroubleCount := 0,
           starsInHouse := 0,
           currentAction := Idle,
           peekedGuest := None,
           selectedItem := FrontDoor,
           caption := PartyOf(nextPartyNum, s.maxParties),
           turnsRemaining := s.maxParties - nextPartyNum + 1)
    else s
  }

  /** `gameReducer`, with the module's id counter value `nextId` (read only
      by START_GAME, which rebuilds the rolodex) and the shuffle's draws
      `rnd` made explicit. */
  function Reduce(cfg: Config, s: GameState, a: GameAction, nextId: nat, rnd: nat -> nat): GameState
    requires a.StartGame? ==> 0 < |cfg.scenarios|
  {
    match a
    case StartGame => InitialState(cfg, 0, Rolodex(cfg.definitions, cfg.defaultRolodex, nextId), rnd)
    case OpenDoor => OpenDoorStep(s)
    case EndParty => EndPartyStep(s)
    case SelectItem(item) => SelectItemStep(s, item)
    case BanGuest(guestId) => BanGuestStep(s, guestId)
    case Dismiss => DismissStep(s, rnd)
    case _ => s
  }

  // ============================================================
  // The module's id counter and the imperative helpers
  // ============================================================

  /** The module scope of the engine: it owns the id counter. */
  class Engine {
    var nextId: nat

    constructor ()
      ensures nextId == 0
    {
      nextId := 0;
    }

    method CreateGuestInstance(defs: GuestType -> GuestDefinition, t: GuestType) returns (g: Guest)
      modifies this
      ensures g == NewGuest(defs(t), t, old(nextId))
      ensures nextId == old(nextId) + 1
    {
      g := NewGuest(defs(t), t, nextId);
      nextId := nextId + 1;
    }

    /** The inner loop of `buildInitialRolodex`: one fresh guest per copy of
        an entry, appended to `guests`. */
    method AppendCopies(defs: GuestType -> GuestDefinition, entry: RolodexEntry, guests: seq<Guest>) returns (out: seq<Guest>)
      modifies this
      ensures out == guests + Copies(defs, entry.guestType, entry.quantity, old(nextId))
      ensures nextId == old(nextId) + CopyCount(entry.quantity)
    {
      out := guests;
      var i := 0;
      while i < entry.quantity
        invariant 0 <= i <= CopyCount(entry.quantity)
        invariant out == guests + Copies(defs, entry.guestType, i, old(nextId))
        invariant nextId == old(nextId) + i
      {
        var g := CreateGuestInstance(defs, entry.guestType);
        CopiesGrow(defs, entry.guestType, i, old(nextId));
        out := out + [g];
        i := i + 1;
      }
      assert Copies(defs, entry.guestType, i, old(nextId)) == Copies(defs, entry.guestType, entry.quantity, old(nextId));
    }

    method BuildInitialRolodex(defs: GuestType -> GuestDefinition, entries: seq<RolodexEntry>) returns (guests: seq<Guest>)
      modifies this
      ensures guests == Rolodex(defs, entries, old(nextId))
      ensures nextId == old(nextId) + |guests|
    {
      guests := [];
      for e := 0 to |entries|
        invariant guests == Rolodex(defs, entries[..e], old(nextId))
        invariant nextId == old(nextId) + |guests|
      {
        RolodexStep(defs, entries, e, old(nextId));
        guests := AppendCopies(defs, entries[e], guests);
      }
      assert entries[..|entries|] == entries;
    }

    method CreateInitialState(cfg: Config, scenarioIndex: nat, rnd: nat -> nat) returns (s: GameState)
      requires scenarioIndex < |cfg.scenarios|
      modifies this
      ensures s == InitialState(cfg, scenarioIndex, Rolodex(cfg.definitions, cfg.defaultRolodex, old(nextId)), rnd)
      ensures nextId == old(nextId) + |s.rolodex|
    {
      var rolodex := BuildInitialRolodex(cfg.definitions, cfg.defaultRolodex);
      var pile := Shuffle(Filter(rolodex, NotBanned), rnd);
      s := InitialState(cfg, scenarioIndex, rolodex, rnd).(drawPile := pile);
    }

    method GameReducer(cfg: Config, s: GameState, a: GameAction, rnd: nat -> nat) returns (r: GameState)
      requires a.StartGame? ==> 0 < |cfg.scenarios|
      modifies this
      ensures r == Reduce(cfg, s, a, old(nextId), rnd)
      ensures nextId == old(nextId) + (if a.StartGame? then |r.rolodex| else 0)
    {
      if a.StartGame? {
        r := CreateInitialState(cfg, 0, rnd);
      } else {
        r := Reduce(cfg, s, a, nextId, rnd);
      }
    }
  }
}
