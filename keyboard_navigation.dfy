/** The keyboard handler of the game screen, as a pure function from the
    current state and the pressed key to at most one command. */
module KeyboardNavigation {
  import opened Types
  import opened ArrayOps
  import opened GameEngine

  /** The key codes the handler distinguishes; `OtherKey` stands for every
      other code, none of which the handler acts on. */
  datatype KeyCode = ArrowLeft | ArrowRight | ArrowUp | ArrowDown | KeyX | KeyZ | Enter | Space | OtherKey

  /** The callbacks the handler may invoke. */
  datatype Command = OpenDoorCmd | EndPartyCmd | SelectItemCmd(item: SelectableItem) | DismissCmd | BanGuestCmd(guestId: nat)

  /** How far Up and Down jump in the party scene. */
  const RowSize: nat := 10

  // ============================================================
  // Selectable items and the current index
  // ============================================================

  /** The front door followed by the guests in house order. */
  function SelectableItems(s: GameState): (items: seq<SelectableItem>)
    ensures |items| == |s.guestsInHouse| + 1
    ensures items[0] == FrontDoor
    ensures forall i :: 0 <= i < |s.guestsInHouse| ==> items[i + 1] == GuestItem(s.guestsInHouse[i])
  {
    [FrontDoor] + seq(|s.guestsInHouse|, i requires 0 <= i < |s.guestsInHouse| => GuestItem(s.guestsInHouse[i]))
  }

  /** The list-building loop of `getSelectableItems`. */
  method GetSelectableItems(s: GameState) returns (items: seq<SelectableItem>)
    ensures items == SelectableItems(s)
  {
    items := [FrontDoor];
    for i := 0 to |s.guestsInHouse|
      invariant items == SelectableItems(s)[..i + 1]
    {
      items := items + [GuestItem(s.guestsInHouse[i])];
    }
  }

  predicate IsGuestWithId(item: SelectableItem, id: nat) {
    item.GuestItem? && item.guest.id == id
  }

  /** `items.findIndex(item => item is the guest with this id)`. */
  function ItemIndex(items: seq<SelectableItem>, id: nat): int {
    FindIndex(items, (item: SelectableItem) => IsGuestWithId(item, id))
  }

  /** `guests.findIndex(g => g.id === id)`. */
  function GuestIndex(guests: seq<Guest>, id: nat): int {
    FindIndex(guests, (g: Guest) => g.id == id)
  }

  /** The index of the current selection in the item list: 0 for the front
      door, for no selection and for a guest that is not in the list;
      otherwise the first item showing that guest's id. */
  function SelectedIndex(items: seq<SelectableItem>, selected: SelectableItem): (idx: nat)
    ensures 0 < |items| ==> idx < |items|
    ensures !selected.GuestItem? ==> idx == 0
    ensures selected.GuestItem? && (forall i :: 0 <= i < |items| ==> !IsGuestWithId(items[i], selected.guest.id)) ==> idx == 0
    ensures selected.GuestItem? && (exists i :: 0 <= i < |items| && IsGuestWithId(items[i], selected.guest.id)) ==>
      idx < |items| && IsGuestWithId(items[idx], selected.guest.id)
      && forall i :: 0 <= i < idx ==> !IsGuestWithId(items[i], selected.guest.id)
  {
    match selected
    case FrontDoor => 0
    case GuestItem(g) =>
      var idx := ItemIndex(items, g.id);
      if idx >= 0 then idx else 0
    case NoItem => 0
  }

  /** The guest index the shutdown navigation starts from: the selected
      guest's position, or 0 when no guest in the house is selected. */
  function ShutdownCurrentIndex(s: GameState): (cur: nat)
    ensures 0 < |s.guestsInHouse| ==> cur < |s.guestsInHouse|
    ensures s.selectedItem.GuestItem? && 0 <= GuestIndex(s.guestsInHouse, s.selectedItem.guest.id) ==>
      cur == GuestIndex(s.guestsInHouse, s.selectedItem.guest.id)
    ensures !s.selectedItem.GuestItem? || GuestIndex(s.guestsInHouse, s.selectedItem.guest.id) < 0 ==> cur == 0
  {
    if s.selectedItem.GuestItem? then
      var k := GuestIndex(s.guestsInHouse, s.selectedItem.guest.id);
      if k < 0 then 0 else k
    else 0
  }

  // ============================================================
  // The key handler
  // ============================================================

  predicate IsDismissPhase(p: GamePhase) {
    p == PartyEnded || p == ScenarioWon || p == ScenarioLost
  }

  function DismissKey(key: KeyCode): Option<Command> {
    if key.KeyX? || key.KeyZ? || key.Enter? || key.Space? then Some(DismissCmd) else None
  }

  /** Shutdown: the arrows cycle through the guests, X or Enter blames the
      selected guest. */
  function ShutdownKey(s: GameState, key: KeyCode): Option<Command> {
    var guests := s.guestsInHouse;
    var n := |guests|;
    if n == 0 then None
    else
      var cur := ShutdownCurrentIndex(s);
      if key.ArrowRight? || key.ArrowDown? then
        Some(SelectItemCmd(GuestItem(guests[(cur + 1) % n])))
      else if key.ArrowLeft? || key.ArrowUp? then
        Some(SelectItemCmd(GuestItem(guests[(cur - 1 + n) % n])))
      else if key.KeyX? || key.Enter? then
        if s.selectedItem.GuestItem? then Some(BanGuestCmd(s.selectedItem.guest.id)) else None
      else None
  }

  /** The index an arrow key moves the party selection to from `cur`, on an
      item list whose last index is `last`: Right and Left step by one, Down
      and Up by a row, clamped to [0, last]; no index for other keys. */
  function ArrowTarget(key: KeyCode, cur: int, last: int): (next: Option<int>)
    ensures next.Some? <==> key.ArrowRight? || key.ArrowLeft? || key.ArrowDown? || key.ArrowUp?
    ensures next.Some? && 0 <= cur <= last ==> 0 <= next.value <= last
  {
    match key
    case ArrowRight => Some(Min(cur + 1, last))
    case ArrowLeft => Some(Max(cur - 1, 0))
    case ArrowDown => Some(Min(cur + RowSize, last))
    case ArrowUp => Some(Max(cur - RowSize, 0))
    case _ => None
  }

  /** Party: the arrows move along the item list without wrapping, X opens
      the door and Z ends the party while the front door is selected. */
  function PartyKey(s: GameState, key: KeyCode): Option<Command> {
    var items := SelectableItems(s);
    var cur := SelectedIndex(items, s.selectedItem);
    var next := ArrowTarget(key, cur, |items| - 1);
    if next.Some? then Some(SelectItemCmd(items[next.value]))
    else if key.KeyX? && s.selectedItem.FrontDoor? then Some(OpenDoorCmd)
    else if key.KeyZ? && s.selectedItem.FrontDoor? then Some(EndPartyCmd)
    else None
  }

  /** The body of `handleKeyDown`: the command the key press triggers, if any. */
  function HandleKeyDown(s: GameState, key: KeyCode): Option<Command> {
    if IsDismissPhase(s.phase) then DismissKey(key)
    else if s.phase == Shutdown then ShutdownKey(s, key)
    else if s.phase == Party then PartyKey(s, key)
    else None
  }

  // ============================================================
  // Properties
  // ============================================================

  /** After a party, a win or a loss only X, Z, Enter and Space do anything,
      and what they do is dismiss. */
  lemma DismissPhasesOnlyDismiss(s: GameState, key: KeyCode)
    requires IsDismissPhase(s.phase)
    ensures HandleKeyDown(s, key) == if key.KeyX? || key.KeyZ? || key.Enter? || key.Space? then Some(DismissCmd) else None
  {
  }

  /** On the title and shop screens no key does anything. */
  lemma OtherPhasesIgnoreKeys(s: GameState, key: KeyCode)
    requires s.phase == Title || s.phase == Shop
    ensures HandleKeyDown(s, key) == None
  {
  }

  /** In a shutdown, an empty house ignores every key; otherwise Right/Down
      select guest (cur + 1) mod n and Left/Up guest (cur - 1 + n) mod n, both
      valid indices into the house. */
  lemma ShutdownNavigationWraps(s: GameState, key: KeyCode)
    requires s.phase == Shutdown
    ensures |s.guestsInHouse| == 0 ==> HandleKeyDown(s, key) == None
    ensures var n := |s.guestsInHouse|; var cur := ShutdownCurrentIndex(s);
      0 < n && (key.ArrowRight? || key.ArrowDown?) ==>
        (cur + 1) % n < n && HandleKeyDown(s, key) == Some(SelectItemCmd(GuestItem(s.guestsInHouse[(cur + 1) % n])))
    ensures var n := |s.guestsInHouse|; var cur := ShutdownCurrentIndex(s);
      0 < n && (key.ArrowLeft? || key.ArrowUp?) ==>
        (cur - 1 + n) % n < n && HandleKeyDown(s, key) == Some(SelectItemCmd(GuestItem(s.guestsInHouse[(cur - 1 + n) % n])))
  {
  }

  /** With distinct ids, the index of a guest of the house is its position. */
  lemma {:induction false} GuestIndexOfMember(guests: seq<Guest>, t: nat)
    requires DistinctIds(guests) && t < |guests|
    ensures GuestIndex(guests, guests[t].id) == t
  {
    var k := GuestIndex(guests, guests[t].id);
    assert 0 <= k;
    assert guests[k].id == guests[t].id;
  }

  /** Reduction modulo n of a value below 2n. */
  lemma ModBelowTwice(x: int, n: int)
    requires 0 < n && 0 <= x < 2 * n
    ensures x % n == if x < n then x else x - n
  {
    if x < n {
      assert x == 0 * n + x;
    } else {
      assert x == 1 * n + (x - n);
    }
  }

  /** Stepping forward and then back modulo n, or back and then forward,
      returns to the start. */
  lemma WrapStepsCancel(cur: nat, n: nat)
    requires cur < n
    ensures ((cur + 1) % n - 1 + n) % n == cur
    ensures ((cur - 1 + n) % n + 1) % n == cur
  {
    ModBelowTwice(cur + 1, n);
    ModBelowTwice((cur + 1) % n - 1 + n, n);
    ModBelowTwice(cur - 1 + n, n);
    ModBelowTwice((cur - 1 + n) % n + 1, n);
  }

  /** In a shutdown, Right followed by Left comes back to the guest the
      navigation started from. */
  lemma ShutdownRightThenLeftReturns(s: GameState)
    requires s.phase == Shutdown && 0 < |s.guestsInHouse| && DistinctIds(s.guestsInHouse)
    ensures var n := |s.guestsInHouse|; var cur := ShutdownCurrentIndex(s);
      var right := GuestItem(s.guestsInHouse[(cur + 1) % n]);
      && HandleKeyDown(s, ArrowRight) == Some(SelectItemCmd(right))
      && HandleKeyDown(SelectItemStep(s, right), ArrowLeft) == Some(SelectItemCmd(GuestItem(s.guestsInHouse[cur])))
  {
    var n := |s.guestsInHouse|;
    var cur := ShutdownCurrentIndex(s);
    var r := (cur + 1) % n;
    var s2 := SelectItemStep(s, GuestItem(s.guestsInHouse[r]));
    GuestIndexOfMember(s.guestsInHouse, r);
    assert ShutdownCurrentIndex(s2) == r;
    WrapStepsCancel(cur, n);
    assert ShutdownKey(s2, ArrowLeft) == Some(SelectItemCmd(GuestItem(s.guestsInHouse[(r - 1 + n) % n])));
  }

  /** In a shutdown, Left followed by Right comes back to the guest the
      navigation started from. */
  lemma ShutdownLeftThenRightReturns(s: GameState)
    requires s.phase == Shutdown && 0 < |s.guestsInHouse| && DistinctIds(s.guestsInHouse)
    ensures var n := |s.guestsInHouse|; var cur := ShutdownCurrentIndex(s);
      var left := GuestItem(s.guestsInHouse[(cur - 1 + n) % n]);
      && HandleKeyDown(s, ArrowLeft) == Some(SelectItemCmd(left))
      && HandleKeyDown(SelectItemStep(s, left), ArrowRight) == Some(SelectItemCmd(GuestItem(s.guestsInHouse[cur])))
  {
    var n := |s.guestsInHouse|;
    var cur := ShutdownCurrentIndex(s);
    var l := (cur - 1 + n) % n;
    var s2 := SelectItemStep(s, GuestItem(s.guestsInHouse[l]));
    GuestIndexOfMember(s.guestsInHouse, l);
    assert ShutdownCurrentIndex(s2) == l;
    WrapStepsCancel(cur, n);
    assert ShutdownKey(s2, ArrowRight) == Some(SelectItemCmd(GuestItem(s.guestsInHouse[(l + 1) % n])));
  }

  /** In a shutdown, X or Enter blames the selected guest by its id, and does
      nothing when no guest is selected or the house is empty. */
  lemma ShutdownConfirmBansSelection(s: GameState, key: KeyCode)
    requires s.phase == Shutdown && (key.KeyX? || key.Enter?)
    ensures HandleKeyDown(s, key) ==
      if 0 < |s.guestsInHouse| && s.selectedItem.GuestItem? then Some(BanGuestCmd(s.selectedItem.guest.id)) else None
  {
  }

  /** In a shutdown, Z, Space and every other key besides the arrows, X and
      Enter do nothing. */
  lemma ShutdownOtherKeysIgnored(s: GameState, key: KeyCode)
    requires s.phase == Shutdown
    requires !(key.ArrowLeft? || key.ArrowRight? || key.ArrowUp? || key.ArrowDown? || key.KeyX? || key.Enter?)
    ensures HandleKeyDown(s, key) == None
  {
  }

  /** The handler asks for a ban only in a shutdown, only with a guest in the
      house selected, and only for that guest's id. */
  lemma BanCommandsOnlyInShutdown(s: GameState, key: KeyCode, guestId: nat)
    requires HandleKeyDown(s, key) == Some(BanGuestCmd(guestId))
    ensures s.phase == Shutdown && 0 < |s.guestsInHouse|
    ensures s.selectedItem.GuestItem? && guestId == s.selectedItem.guest.id
    ensures key.KeyX? || key.Enter?
  {
  }

  /** In a party, an arrow selects the item at its clamped target index. */
  lemma PartyNavigationClamps(s: GameState, key: KeyCode)
    requires s.phase == Party
    ensures var items := SelectableItems(s); var cur := SelectedIndex(items, s.selectedItem);
      var next := ArrowTarget(key, cur, |items| - 1);
      next.Some? ==> 0 <= next.value < |items| && HandleKeyDown(s, key) == Some(SelectItemCmd(items[next.value]))
  {
    assert HandleKeyDown(s, key) == PartyKey(s, key);
  }

  /** Each arrow moves by its step and stops at the ends instead of
      wrapping: Right and Down move forward by 1 and 10 unless that passes
      the last index, which is then the target; Left and Up move back by 1
      and 10 unless that passes 0, which is then the target. */
  lemma ArrowTargetSteps(cur: int, last: int)
    requires 0 <= cur <= last
    ensures ArrowTarget(ArrowRight, cur, last) == Some(if cur < last then cur + 1 else last)
    ensures ArrowTarget(ArrowLeft, cur, last) == Some(if 0 < cur then cur - 1 else 0)
    ensures ArrowTarget(ArrowDown, cur, last) == Some(if cur + RowSize <= last then cur + RowSize else last)
    ensures ArrowTarget(ArrowUp, cur, last) == Some(if RowSize <= cur then cur - RowSize else 0)
    ensures cur < last ==> ArrowTarget(ArrowLeft, cur + 1, last) == Some(cur)
    ensures 0 < cur ==> ArrowTarget(ArrowRight, cur - 1, last) == Some(cur)
  {
  }

  /** In a party, X opens the door and Z ends the party only while the front
      door is selected; no other non-arrow key does anything. */
  lemma PartyActionKeys(s: GameState, key: KeyCode)
    requires s.phase == Party
    requires !(key.ArrowLeft? || key.ArrowRight? || key.ArrowUp? || key.ArrowDown?)
    ensures HandleKeyDown(s, key) ==
      if key.KeyX? && s.selectedItem.FrontDoor? then Some(OpenDoorCmd)
      else if key.KeyZ? && s.selectedItem.FrontDoor? then Some(EndPartyCmd)
      else None
  {
  }

  /** Every selection the handler asks for is the front door or a guest in
      the house. */
  lemma SelectionsStayInScene(s: GameState, key: KeyCode, item: SelectableItem)
    requires HandleKeyDown(s, key) == Some(SelectItemCmd(item))
    ensures item == FrontDoor || (item.GuestItem? && item.guest in s.guestsInHouse)
  {
    if s.phase == Party {
      var items := SelectableItems(s);
      var next := ArrowTarget(key, SelectedIndex(items, s.selectedItem), |items| - 1);
      assert HandleKeyDown(s, key) == PartyKey(s, key);
      PartyNavigationClamps(s, key);
      var t := next.value;
      if t > 0 {
        assert item == GuestItem(s.guestsInHouse[t - 1]);
      }
    } else {
      assert s.phase == Shutdown && HandleKeyDown(s, key) == ShutdownKey(s, key);
    }
  }

  /** With distinct guest ids, selecting the item at index t makes t the
      current index: navigation lands where it aimed. */
  lemma {:induction false} SelectedIndexOfItem(s: GameState, t: nat)
    requires DistinctIds(s.guestsInHouse) && t <= |s.guestsInHouse|
    ensures SelectedIndex(SelectableItems(s), SelectableItems(s)[t]) == t
  {
    var items := SelectableItems(s);
    if t > 0 {
      var id := s.guestsInHouse[t - 1].id;
      assert IsGuestWithId(items[t], id);
      var k := SelectedIndex(items, items[t]);
      assert IsGuestWithId(items[k], id);
      assert k != 0;
      assert items[k] == GuestItem(s.guestsInHouse[k - 1]);
      assert s.guestsInHouse[k - 1].id == s.guestsInHouse[t - 1].id;
    }
  }

  /** In a party with distinct guest ids, Right from the item at index t
      before the last selects the item at t + 1. */
  lemma PartyRightFromItem(s: GameState, t: nat)
    requires s.phase == Party && DistinctIds(s.guestsInHouse) && t < |s.guestsInHouse|
    ensures HandleKeyDown(SelectItemStep(s, SelectableItems(s)[t]), ArrowRight) == Some(SelectItemCmd(SelectableItems(s)[t + 1]))
  {
    var items := SelectableItems(s);
    var s2 := SelectItemStep(s, items[t]);
    assert SelectableItems(s2) == items by {
      assert s2.guestsInHouse == s.guestsInHouse;
    }
    SelectedIndexOfItem(s, t);
    ArrowTargetSteps(t, |items| - 1);
    PartyNavigationClamps(s2, ArrowRight);
  }

  /** In a party with distinct guest ids, Left from the item at index t > 0
      selects the item at t - 1. */
  lemma PartyLeftFromItem(s: GameState, t: nat)
    requires s.phase == Party && DistinctIds(s.guestsInHouse) && 0 < t <= |s.guestsInHouse|
    ensures HandleKeyDown(SelectItemStep(s, SelectableItems(s)[t]), ArrowLeft) == Some(SelectItemCmd(SelectableItems(s)[t - 1]))
  {
    var items := SelectableItems(s);
    var s2 := SelectItemStep(s, items[t]);
    assert SelectableItems(s2) == items by {
      assert s2.guestsInHouse == s.guestsInHouse;
    }
    SelectedIndexOfItem(s, t);
    ArrowTargetSteps(t, |items| - 1);
    PartyNavigationClamps(s2, ArrowLeft);
  }

  /** In a party, Right from any item but the last and then Left comes back
      to that item, and Left from any item but the front door and then
      Right comes back to it. */
  lemma PartyArrowsReturn(s: GameState, t: nat)
    requires s.phase == Party && DistinctIds(s.guestsInHouse) && t < |s.guestsInHouse|
    ensures var items := SelectableItems(s);
      && HandleKeyDown(SelectItemStep(s, items[t]), ArrowRight) == Some(SelectItemCmd(items[t + 1]))
      && HandleKeyDown(SelectItemStep(s, items[t + 1]), ArrowLeft) == Some(SelectItemCmd(items[t]))
  {
    PartyRightFromItem(s, t);
    PartyLeftFromItem(s, t + 1);
  }
}
