/** What the reducer guarantees: the behaviour of each action, the invariant
    every reachable state keeps (house within capacity, counters equal to a
    recount, the draw pile a permutation of the non-banned rolodex during a
    party), and that a ban is permanent over any run without a restart. */
module EngineProperties {
  import opened Types
  import opened Constants
  import opened ArrayOps
  import opened GameEngine

  // ============================================================
  // OPEN_DOOR
  // ============================================================

  /** The condition under which the sidebar enables the front door. */
  predicate CanOpenDoor(s: GameState) {
    s.phase == Party && |s.guestsInHouse| < s.houseSize && |s.drawPile| > 0
  }

  lemma OpenDoorOutsidePartyIsNoOp(s: GameState)
    requires s.phase != Party
    ensures OpenDoorStep(s) == s
  {
  }

  /** During a party, a door that cannot open changes the caption only: to
      "full" when the house is at capacity, otherwise to "no more guests". */
  lemma OpenDoorRefusedChangesOnlyCaption(s: GameState)
    requires s.phase == Party && !CanOpenDoor(s)
    ensures OpenDoorStep(s) == s.(caption := OpenDoorStep(s).caption)
    ensures OpenDoorStep(s).caption == if |s.guestsInHouse| >= s.houseSize then PartyIsFull else NoMoreGuests
  {
  }

  /** A successful admission moves the head of the draw pile to the end of
      the house, keeps the house within capacity, recomputes both counters
      (trouble grows by one exactly for an active trouble guest), shuts the
      party down exactly when trouble reaches the limit (selecting the first
      guest in the house) and otherwise stays in the party. */
  lemma OpenDoorAdmitsHead(s: GameState)
    requires CanOpenDoor(s)
    ensures var r := OpenDoorStep(s);
      && r.guestsInHouse == s.guestsInHouse + [s.drawPile[0]]
      && r.drawPile == s.drawPile[1..]
      && |r.guestsInHouse| <= s.houseSize
      && r.activeTroubleCount == CountTrouble(r.guestsInHouse)
      && r.activeTroubleCount == CountTrouble(s.guestsInHouse) + (if IsActiveTrouble(s.drawPile[0]) then 1 else 0)
      && r.starsInHouse == CountStars(r.guestsInHouse)
      && r.starsInHouse == CountStars(s.guestsInHouse) + (if IsStar(s.drawPile[0]) then 1 else 0)
      && (r.phase == Shutdown <==> CountTrouble(r.guestsInHouse) >= s.troubleLimit)
      && (r.phase == Shutdown ==> r.selectedItem == GuestItem(r.guestsInHouse[0]) && r.caption == CopsHaveShownUp)
      && (r.phase != Shutdown ==> r.phase == Party && r.selectedItem == s.selectedItem)
      && (r.phase != Shutdown ==>
            r.caption == (if |r.guestsInHouse| < s.houseSize then HasArrived(s.drawPile[0].name)
                          else if HasUsableAbility(r.guestsInHouse) then FullButActionsAvailable
                          else PartyIsFull))
      && r == s.(guestsInHouse := r.guestsInHouse, drawPile := r.drawPile,
                 activeTroubleCount := r.activeTroubleCount, starsInHouse := r.starsInHouse,
                 phase := r.phase, caption := r.caption, selectedItem := r.selectedItem)
  {
    CountsAfterAdmit(s.guestsInHouse, s.drawPile[0]);
  }

  /** The sidebar's "can open door" is exactly the condition under which
      OPEN_DOOR admits a guest; otherwise the house is left as it was. */
  lemma CanOpenDoorIffAdmits(s: GameState)
    ensures CanOpenDoor(s) <==> |OpenDoorStep(s).guestsInHouse| == |s.guestsInHouse| + 1
    ensures !CanOpenDoor(s) ==> OpenDoorStep(s).guestsInHouse == s.guestsInHouse
  {
  }

  // ============================================================
  // END_PARTY
  // ============================================================

  lemma EndPartyOutsidePartyIsNoOp(s: GameState)
    requires s.phase != Party
    ensures EndPartyStep(s) == s
  {
  }

  /** Enough stars in the house wins the scenario, whatever else is there;
      only phase and caption change. */
  lemma EndPartyWins(s: GameState)
    requires s.phase == Party && s.starsInHouse >= s.starsRequired
    ensures EndPartyStep(s) == s.(phase := ScenarioWon, caption := YouWin)
  {
  }

  /** Otherwise the party ends and the guests' popularity and cash are
      banked, each clamped to [0, cap]; totals that started within their
      caps stay within them, and nothing else but the caption changes. */
  lemma EndPartyScores(s: GameState)
    requires s.phase == Party && s.starsInHouse < s.starsRequired
    ensures var r := EndPartyStep(s);
      && r.phase == PartyEnded
      && r.popularity == Max(0, Min(s.popularity + TotalPopularity(s.guestsInHouse), s.maxPopularity))
      && r.cash == Max(0, Min(s.cash + TotalCash(s.guestsInHouse), s.maxCash))
      && (0 <= s.maxPopularity ==> 0 <= r.popularity <= s.maxPopularity)
      && (0 <= s.maxCash ==> 0 <= r.cash <= s.maxCash)
      && r == s.(phase := PartyEnded, popularity := r.popularity, cash := r.cash, caption := r.caption)
  {
  }

  /** A house of two non-star guests worth (2 popularity, 1 cash) and
      (3 popularity, 0 cash) banks +5 popularity and +1 cash. */
  lemma EndPartyTwoGuestExample(s: GameState)
    requires s.phase == Party && s.starsInHouse < s.starsRequired
    requires |s.guestsInHouse| == 2
    requires s.guestsInHouse[0].popularity == 2 && s.guestsInHouse[0].cash == 1
    requires s.guestsInHouse[1].popularity == 3 && s.guestsInHouse[1].cash == 0
    ensures EndPartyStep(s).popularity == ClampToCap(s.popularity + 5, s.maxPopularity)
    ensures EndPartyStep(s).cash == ClampToCap(s.cash + 1, s.maxCash)
    ensures EndPartyStep(s).caption == PartyEndedWith(5, 1)
  {
    var h := s.guestsInHouse;
    assert h[..1][..0] == [];
    assert h[..1] == [h[0]];
    assert TotalPopularity(h[..1]) == 2 && TotalCash(h[..1]) == 1;
    assert h[..|h| - 1] == h[..1];
  }

  // ============================================================
  // SELECT_ITEM, BAN_GUEST, DISMISS and the actions without behaviour
  // ============================================================

  /** SELECT_ITEM replaces the selection, in every phase, and nothing else. */
  lemma SelectItemChangesOnlySelection(s: GameState, item: SelectableItem)
    ensures SelectItemStep(s, item).selectedItem == item
    ensures SelectItemStep(s, item) == s.(selectedItem := item)
  {
  }

  /** BAN_GUEST keeps the rolodex's length and ids, marks banned exactly the
      entries carrying the id (leaving their other fields alone), leaves every
      other entry untouched, never clears a ban, and ends the party. */
  lemma BanGuestMarksOnlyTarget(s: GameState, guestId: nat)
    ensures var r := BanGuestStep(s, guestId);
      && r.phase == PartyEnded
      && r.caption == GuestBanned
      && |r.rolodex| == |s.rolodex|
      && (forall k :: 0 <= k < |s.rolodex| ==>
            && r.rolodex[k].id == s.rolodex[k].id
            && r.rolodex[k] == s.rolodex[k].(banned := r.rolodex[k].banned)
            && (r.rolodex[k].banned <==> s.rolodex[k].banned || s.rolodex[k].id == guestId))
      && r == s.(phase := PartyEnded, rolodex := r.rolodex, caption := GuestBanned)
  {
  }

  lemma DismissOutsidePartyEndedIsNoOp(s: GameState, rnd: nat -> nat)
    requires s.phase != PartyEnded
    ensures DismissStep(s, rnd) == s
  {
  }

  /** Dismissing the last party loses the scenario; only phase and caption
      change. */
  lemma DismissAfterLastPartyLoses(s: GameState, rnd: nat -> nat)
    requires s.phase == PartyEnded && s.partyNumber + 1 > s.maxParties
    ensures DismissStep(s, rnd) == s.(phase := ScenarioLost, caption := OutOfTime)
  {
  }

  /** Dismissing an earlier party starts the next one: an empty house,
      zeroed counters, the front door selected, the turns remaining counted
      from the new party number, and a draw pile that is a permutation of
      the non-banned rolodex entries. */
  lemma DismissStartsNextParty(s: GameState, rnd: nat -> nat)
    requires s.phase == PartyEnded && s.partyNumber + 1 <= s.maxParties
    ensures var r := DismissStep(s, rnd);
      && r.phase == Party
      && r.partyNumber == s.partyNumber + 1
      && r.guestsInHouse == []
      && r.activeTroubleCount == 0 && r.starsInHouse == 0
      && r.selectedItem == FrontDoor
      && r.turnsRemaining == r.maxParties - r.partyNumber + 1
      && multiset(r.drawPile) == multiset(Filter(s.rolodex, NotBanned))
      && (forall i :: 0 <= i < |r.drawPile| ==> r.drawPile[i] in s.rolodex && NotBanned(r.drawPile[i]))
      && r.rolodex == s.rolodex && r.popularity == s.popularity && r.cash == s.cash
      && r == s.(phase := Party, partyNumber := s.partyNumber + 1, guestsInHouse := [], drawPile := r.drawPile,
                 activeTroubleCount := 0, starsInHouse := 0, currentAction := Idle, peekedGuest := None,
                 selectedItem := FrontDoor, caption := PartyOf(s.partyNumber + 1, s.maxParties),
                 turnsRemaining := s.maxParties - s.partyNumber)
  {
    var r := DismissStep(s, rnd);
    var avail := Filter(s.rolodex, NotBanned);
    ShuffledIsPermutation(avail, rnd);
    forall i | 0 <= i < |r.drawPile|
      ensures r.drawPile[i] in s.rolodex && NotBanned(r.drawPile[i])
    {
      assert r.drawPile[i] in multiset(r.drawPile);
      assert r.drawPile[i] in avail;
    }
  }

  /** Every action the reducer does not implement leaves the state as it is. */
  lemma UnimplementedActionsAreNoOps(cfg: Config, s: GameState, a: GameAction, nextId: nat, rnd: nat -> nat)
    requires a.UseAbility? || a.SelectTarget? || a.PeekAccept? || a.PeekReject?
          || a.BuyGuest? || a.ExpandHouse? || a.EndShop? || a.NextScenario?
    ensures Reduce(cfg, s, a, nextId, rnd) == s
  {
  }

  /** A won scenario stays won under every action except a restart and a
      ban (BAN_GUEST has no phase guard). */
  lemma WonStaysWon(cfg: Config, s: GameState, a: GameAction, nextId: nat, rnd: nat -> nat)
    requires s.phase == ScenarioWon && !a.StartGame? && !a.BanGuest?
    ensures Reduce(cfg, s, a, nextId, rnd).phase == ScenarioWon
  {
  }

  // ============================================================
  // The invariant of reachable states
  // ============================================================

  /** Dropping the head keeps ids distinct, and no later guest shares the
      head's id. */
  lemma TailKeepsDistinctIds(s: seq<Guest>)
    requires DistinctIds(s) && s != []
    ensures DistinctIds(s[1..])
    ensures forall k :: 0 <= k < |s[1..]| ==> s[1..][k].id != s[0].id
  {
    var tail := s[1..];
    forall i, j | 0 <= i < |tail| && 0 <= j < |tail| && tail[i].id == tail[j].id
      ensures i == j
    {
      assert s[i + 1].id == s[j + 1].id;
    }
    forall k | 0 <= k < |tail|
      ensures tail[k].id != s[0].id
    {
      assert s[k + 1] == tail[k];
    }
  }

  /** A guest whose id no guest of `t` carries can be put in front of `t`. */
  lemma ConsKeepsDistinctIds(g: Guest, t: seq<Guest>)
    requires DistinctIds(t)
    requires forall k :: 0 <= k < |t| ==> t[k].id != g.id
    ensures DistinctIds([g] + t)
  {
    var r := [g] + t;
    forall i, j | 0 <= i < |r| && 0 <= j < |r| && r[i].id == r[j].id
      ensures i == j
    {
      if 0 < i && 0 < j {
        assert t[i - 1].id == t[j - 1].id;
      }
    }
  }

  lemma {:induction false} FilterKeepsDistinctIds(s: seq<Guest>, p: Guest -> bool)
    requires DistinctIds(s)
    ensures DistinctIds(Filter(s, p))
  {
    if s != [] {
      var tail := s[1..];
      TailKeepsDistinctIds(s);
      FilterKeepsDistinctIds(tail, p);
      var ft := Filter(tail, p);
      if p(s[0]) {
        forall k | 0 <= k < |ft|
          ensures ft[k].id != s[0].id
        {
          var m :| 0 <= m < |tail| && tail[m] == ft[k];
        }
        ConsKeepsDistinctIds(s[0], ft);
        assert Filter(s, p) == [s[0]] + ft;
      } else {
        assert Filter(s, p) == ft;
      }
    }
  }

  /** What every reachable state satisfies. */
  ghost predicate Inv(s: GameState) {
    && |s.guestsInHouse| <= s.houseSize
    && s.activeTroubleCount == CountTrouble(s.guestsInHouse)
    && s.starsInHouse == CountStars(s.guestsInHouse)
    && 0 < s.troubleLimit
    && (s.phase == Party ==> s.activeTroubleCount < s.troubleLimit)
    && (s.phase == Shutdown ==> s.troubleLimit <= s.activeTroubleCount)
    && 0 <= s.popularity <= s.maxPopularity
    && 0 <= s.cash <= s.maxCash
    && s.turnsRemaining == s.maxParties - s.partyNumber + 1
    && DistinctIds(s.rolodex)
    && DistinctIds(s.guestsInHouse + s.drawPile)
    && ((s.phase == Party || s.phase == Shutdown) ==>
          multiset(s.guestsInHouse + s.drawPile) == multiset(Filter(s.rolodex, NotBanned)))
  }

  /** The state a scenario starts in: a party with an empty house, nothing
      banned, a draw pile that is a permutation of the whole rolodex, and the
      invariant established. */
  lemma InitialStateSatisfiesInv(cfg: Config, scenarioIndex: nat, firstId: nat, rnd: nat -> nat)
    requires ValidConfig(cfg) && scenarioIndex < |cfg.scenarios|
    ensures var s := InitialState(cfg, scenarioIndex, Rolodex(cfg.definitions, cfg.defaultRolodex, firstId), rnd);
      && Inv(s)
      && s.phase == Party && s.guestsInHouse == [] && s.selectedItem == FrontDoor
      && (forall k :: 0 <= k < |s.rolodex| ==> NotBanned(s.rolodex[k]))
      && multiset(s.drawPile) == multiset(s.rolodex)
  {
    var rolodex := Rolodex(cfg.definitions, cfg.defaultRolodex, firstId);
    var s := InitialState(cfg, scenarioIndex, rolodex, rnd);
    FilterAll(rolodex, NotBanned);
    ShuffledIsPermutation(rolodex, rnd);
    RolodexIdsDistinct(cfg.definitions, cfg.defaultRolodex, firstId);
    ShuffledKeepsDistinctIds(rolodex, rnd);
    assert s.guestsInHouse + s.drawPile == s.drawPile;
  }

  lemma OpenDoorPreservesInv(s: GameState)
    requires Inv(s)
    ensures Inv(OpenDoorStep(s))
  {
    if CanOpenDoor(s) {
      OpenDoorAdmitsHead(s);
      var r := OpenDoorStep(s);
      assert r.guestsInHouse + r.drawPile == s.guestsInHouse + s.drawPile;
    }
  }

  lemma DismissPreservesInv(s: GameState, rnd: nat -> nat)
    requires Inv(s)
    ensures Inv(DismissStep(s, rnd))
  {
    if s.phase == PartyEnded && s.partyNumber + 1 <= s.maxParties {
      var r := DismissStep(s, rnd);
      var avail := Filter(s.rolodex, NotBanned);
      assert r.drawPile == Shuffled(avail, rnd);
      ShuffledIsPermutation(avail, rnd);
      FilterKeepsDistinctIds(s.rolodex, NotBanned);
      ShuffledKeepsDistinctIds(avail, rnd);
      assert r.guestsInHouse + r.drawPile == r.drawPile;
      assert CountTrouble([]) == 0 && CountStars([]) == 0;
    }
  }

  lemma BanGuestPreservesInv(s: GameState, guestId: nat)
    requires Inv(s)
    ensures Inv(BanGuestStep(s, guestId))
  {
    BanGuestMarksOnlyTarget(s, guestId);
  }

  /** Every action keeps the invariant. */
  lemma ReducePreservesInv(cfg: Config, s: GameState, a: GameAction, nextId: nat, rnd: nat -> nat)
    requires ValidConfig(cfg) && Inv(s)
    ensures Inv(Reduce(cfg, s, a, nextId, rnd))
  {
    match a
    case StartGame => InitialStateSatisfiesInv(cfg, 0, nextId, rnd);
    case OpenDoor => OpenDoorPreservesInv(s);
    case EndParty => EndPartyPreservesInv(s);
    case BanGuest(guestId) => BanGuestPreservesInv(s, guestId);
    case Dismiss => DismissPreservesInv(s, rnd);
    case _ =>
  }

  lemma EndPartyPreservesInv(s: GameState)
    requires Inv(s)
    ensures Inv(EndPartyStep(s))
  {
  }

  /** During a party and in the shutdown that may end it, every guest in the
      house or the pile is a non-banned rolodex entry, and no banned entry's
      id is among them. */
  lemma PartyGuestsAreNotBanned(s: GameState)
    requires Inv(s) && (s.phase == Party || s.phase == Shutdown)
    ensures forall i :: 0 <= i < |s.guestsInHouse + s.drawPile| ==>
      (s.guestsInHouse + s.drawPile)[i] in s.rolodex && NotBanned((s.guestsInHouse + s.drawPile)[i])
    ensures forall i, k :: 0 <= i < |s.guestsInHouse + s.drawPile| && 0 <= k < |s.rolodex| && s.rolodex[k].banned ==>
      (s.guestsInHouse + s.drawPile)[i].id != s.rolodex[k].id
  {
    var both := s.guestsInHouse + s.drawPile;
    var avail := Filter(s.rolodex, NotBanned);
    forall i | 0 <= i < |both|
      ensures both[i] in s.rolodex && NotBanned(both[i])
    {
      assert both[i] in multiset(both);
      assert both[i] in avail;
    }
    forall i, k | 0 <= i < |both| && 0 <= k < |s.rolodex| && s.rolodex[k].banned
      ensures both[i].id != s.rolodex[k].id
    {
      var m :| 0 <= m < |s.rolodex| && s.rolodex[m] == both[i];
      assert m != k;
    }
  }

  /** Blaming a house guest after a shutdown bans that guest's rolodex entry,
      so the ban that BanIsPermanent keeps has been made. */
  lemma ShutdownBlameBansRolodexEntry(s: GameState, i: nat)
    requires Inv(s) && s.phase == Shutdown && i < |s.guestsInHouse|
    ensures var r := BanGuestStep(s, s.guestsInHouse[i].id);
      exists k :: 0 <= k < |r.rolodex| && r.rolodex[k].id == s.guestsInHouse[i].id && r.rolodex[k].banned
  {
    var both := s.guestsInHouse + s.drawPile;
    PartyGuestsAreNotBanned(s);
    assert both[i] == s.guestsInHouse[i];
    var k :| 0 <= k < |s.rolodex| && s.rolodex[k] == s.guestsInHouse[i];
    BanGuestMarksOnlyTarget(s, s.guestsInHouse[i].id);
    var r := BanGuestStep(s, s.guestsInHouse[i].id);
    assert r.rolodex[k].id == s.guestsInHouse[i].id && r.rolodex[k].banned;
  }

  /** In every reachable state no two guests in the house share an id: the
      assumption of the keyboard handler's round-trip lemmas. */
  lemma InvGivesHouseDistinct(s: GameState)
    requires Inv(s)
    ensures DistinctIds(s.guestsInHouse)
  {
    var both := s.guestsInHouse + s.drawPile;
    forall i, j | 0 <= i < |s.guestsInHouse| && 0 <= j < |s.guestsInHouse| && s.guestsInHouse[i].id == s.guestsInHouse[j].id
      ensures i == j
    {
      assert both[i] == s.guestsInHouse[i] && both[j] == s.guestsInHouse[j];
    }
  }

  /** No guest id is both in the house and in the draw pile. */
  lemma HouseAndPileAreDisjoint(s: GameState)
    requires Inv(s)
    ensures forall i, j :: 0 <= i < |s.guestsInHouse| && 0 <= j < |s.drawPile| ==>
      s.guestsInHouse[i].id != s.drawPile[j].id
  {
    var both := s.guestsInHouse + s.drawPile;
    forall i, j | 0 <= i < |s.guestsInHouse| && 0 <= j < |s.drawPile|
      ensures s.guestsInHouse[i].id != s.drawPile[j].id
    {
      assert both[i] == s.guestsInHouse[i];
      assert both[|s.guestsInHouse| + j] == s.drawPile[j];
    }
  }

  // ============================================================
  // Runs of several actions
  // ============================================================

  /** One dispatched action, with the id counter value and the shuffle draws
      in effect when it is reduced. */
  datatype Step = Step(action: GameAction, nextId: nat, rnd: nat -> nat)

  function Run(cfg: Config, s: GameState, steps: seq<Step>): GameState
    requires ValidConfig(cfg)
    decreases |steps|
  {
    if steps == [] then s
    else Run(cfg, Reduce(cfg, s, steps[0].action, steps[0].nextId, steps[0].rnd), steps[1..])
  }

  /** Every state reachable from one satisfying the invariant satisfies it:
      the house never exceeds capacity and the counters never drift. */
  lemma {:induction false} RunPreservesInv(cfg: Config, s: GameState, steps: seq<Step>)
    requires ValidConfig(cfg) && Inv(s)
    ensures Inv(Run(cfg, s, steps))
    ensures |Run(cfg, s, steps).guestsInHouse| <= Run(cfg, s, steps).houseSize
    decreases |steps|
  {
    if steps != [] {
      ReducePreservesInv(cfg, s, steps[0].action, steps[0].nextId, steps[0].rnd);
      RunPreservesInv(cfg, Reduce(cfg, s, steps[0].action, steps[0].nextId, steps[0].rnd), steps[1..]);
    }
  }

  /** One action other than a restart never clears a ban and keeps every
      rolodex entry's id. */
  lemma ReduceKeepsBans(cfg: Config, s: GameState, a: GameAction, nextId: nat, rnd: nat -> nat, k: nat)
    requires !a.StartGame? && k < |s.rolodex|
    ensures |Reduce(cfg, s, a, nextId, rnd).rolodex| == |s.rolodex|
    ensures Reduce(cfg, s, a, nextId, rnd).rolodex[k].id == s.rolodex[k].id
    ensures s.rolodex[k].banned ==> Reduce(cfg, s, a, nextId, rnd).rolodex[k].banned
  {
  }

  /** A ban is permanent: over any run without a restart the banned entry
      stays banned, and whenever a party is on, no guest in the house or the
      draw pile carries its id. */
  lemma {:induction false} BanIsPermanent(cfg: Config, s: GameState, steps: seq<Step>, k: nat)
    requires ValidConfig(cfg) && Inv(s)
    requires k < |s.rolodex| && s.rolodex[k].banned
    requires forall i :: 0 <= i < |steps| ==> !steps[i].action.StartGame?
    ensures var t := Run(cfg, s, steps);
      && k < |t.rolodex| && t.rolodex[k].id == s.rolodex[k].id && t.rolodex[k].banned
      && (t.phase == Party ==> forall i :: 0 <= i < |t.guestsInHouse + t.drawPile| ==>
            (t.guestsInHouse + t.drawPile)[i].id != s.rolodex[k].id)
    decreases |steps|
  {
    if steps == [] {
      if s.phase == Party {
        PartyGuestsAreNotBanned(s);
      }
    } else {
      var next := Reduce(cfg, s, steps[0].action, steps[0].nextId, steps[0].rnd);
      ReduceKeepsBans(cfg, s, steps[0].action, steps[0].nextId, steps[0].rnd, k);
      ReducePreservesInv(cfg, s, steps[0].action, steps[0].nextId, steps[0].rnd);
      BanIsPermanent(cfg, next, steps[1..], k);
    }
  }
}
