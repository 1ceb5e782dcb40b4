/** The keyboard shortcuts for the twelve hotbar slots. */
module Keybindings {
  import opened Wrappers
  import opened Host
  import opened Slots
  import opened Hud

  /** The key codes the bindings use: `Digit0`..`Digit9`, `Minus`, `Equal`. */
  datatype Key = Digit(n: nat) | Minus | Equal

  /** A registered binding: the key and the slot its handler activates. */
  datatype Binding = Binding(key: Key, slot: nat)

  /** The slot a key activates, if a slot binding uses that key. */
  function SlotForKey(key: Key): (slot: Option<nat>)
    ensures slot.Some? ==> slot.value < SlotCount && Shows(key, LabelFor(slot.value))
  {
    match key
    case Digit(n) =>
      if n == 0 then Some(9) else if n <= 9 then Some(n - 1) else None
    case Minus => Some(10)
    case Equal => Some(11)
  }

  /** The key is the one printed as the label. */
  predicate Shows(key: Key, shown: KeyLabel)
  {
    match key
    case Digit(n) => shown == Number(n)
    case Minus => shown == Sign('-')
    case Equal => shown == Sign('=')
  }

  /** Every slot has a key, the one showing that slot's label, and no other key activates it. */
  lemma KeyForEverySlot(slot: nat, key: Key)
    requires slot < SlotCount
    ensures SlotForKey(key) == Some(slot) <==> Shows(key, LabelFor(slot))
  {
  }

  /** Different keys activate different slots. */
  lemma SlotForKeyInjective(k1: Key, k2: Key)
    requires SlotForKey(k1).Some? && SlotForKey(k1) == SlotForKey(k2)
    ensures k1 == k2
  {
  }

  /**
   * The slot bindings in registration order: `Digit1`..`Digit9` in a loop, then
   * `Digit0`, `Minus` and `Equal`. Binding `j` activates slot `j`, so the twelve
   * bindings cover the slots once each.
   */
  method RegisterSlotBindings() returns (bindings: seq<Binding>)
    ensures |bindings| == SlotCount
    ensures forall j :: 0 <= j < |bindings| ==> bindings[j].slot == j
    ensures forall j :: 0 <= j < |bindings| ==> SlotForKey(bindings[j].key) == Some(j)
    ensures forall j :: 0 <= j < |bindings| ==> Shows(bindings[j].key, LabelFor(j))
  {
    bindings := [];
    var i := 1;
    while i <= 9
      invariant 1 <= i <= 10
      invariant |bindings| == i - 1
      invariant forall j :: 0 <= j < |bindings| ==> bindings[j] == Binding(Digit(j + 1), j)
    {
      bindings := bindings + [Binding(Digit(i), i - 1)];
      i := i + 1;
    }
    bindings := bindings + [Binding(Digit(0), 9), Binding(Minus, 10), Binding(Equal, 11)];
  }

  /**
   * A slot binding's key-down handler: with no HUD or no actor it declines;
   * otherwise it activates the bound slot and reports the key as handled.
   */
  method OnSlotKeyDown(hud: CombatHud?, controlled: seq<Token>, binding: Binding, useSucceeds: bool)
    returns (handled: bool, used: seq<Item>, notice: Option<Notice>)
    ensures handled <==> hud != null && CurrentActor(controlled).Some?
    ensures !handled ==> used == [] && notice == None
    ensures handled ==> used == (if SlotAt(hud.hotbarSlots, binding.slot).Some?
                                 then [SlotAt(hud.hotbarSlots, binding.slot).value] else [])
    ensures notice.Some? <==> |used| == 1 && !useSucceeds
  {
    if hud == null || CurrentActor(controlled).None? {
      return false, [], None;
    }
    used, notice := hud.ActivateSlot(controlled, binding.slot, useSucceeds);
    handled := true;
  }

  /** `toggleHUD`: flips the open state of an existing HUD and always consumes the key. */
  method ToggleHud(hud: CombatHud?) returns (consumed: bool)
    modifies hud
    ensures consumed
    ensures hud != null ==> hud.rendered == !old(hud.rendered) && hud.hotbarSlots == old(hud.hotbarSlots)
  {
    if hud != null {
      if hud.rendered {
        hud.Close();
      } else {
        hud.Render(true);
      }
    }
    consumed := true;
  }
}
