/** The HUD application object: its slot array and its hotbar operations. */
module Hud {
  import opened Wrappers
  import opened Host
  import opened Slots
  import opened Population
  import opened Persistence

  /** The user-visible notifications the hotbar raises. */
  datatype Notice = PermissionDenied | ActivationFailed(itemName: string)

  /** The payload of a drop, once parsed as JSON. */
  datatype DropData = DropData(dataType: string, uuid: string)

  /** The display model: hidden without an actor, else the hotbar rows. */
  datatype HudData = Hidden | Shown(hotbar: seq<SlotView>)

  /**
   * The slots `loadHotbarSlots` leaves: twelve empty ones without an actor, the
   * saved record when there is one, the auto-filled hotbar otherwise.
   */
  function Populate(actor: Option<Actor>, flags: FlagStore, resolve: Resolver): seq<Slot>
  {
    match actor
    case None => EmptySlots()
    case Some(a) =>
      match LoadHotbarFromFlags(actor, flags, resolve)
      case Some(saved) => saved
      case None => AutoFill(a.items)
  }

  /** Without an actor the hotbar is the constructor's: twelve empty slots. */
  lemma PopulateWithoutActor(flags: FlagStore, resolve: Resolver)
    ensures |Populate(None, flags, resolve)| == SlotCount
    ensures forall i :: 0 <= i < SlotCount ==> Populate(None, flags, resolve)[i].None?
  {
  }

  /**
   * A saved record is adopted as restored, whatever its length, and auto-fill
   * is skipped.
   */
  lemma PopulateAdoptsSaved(actor: Actor, flags: FlagStore, resolve: Resolver)
    requires FlagKey(actor.id) in flags
    ensures Populate(Some(actor), flags, resolve) == RestoreSlots(flags[FlagKey(actor.id)], resolve)
    ensures |Populate(Some(actor), flags, resolve)| == |flags[FlagKey(actor.id)]|
  {
  }

  /** Without a saved record the hotbar is auto-filled: twelve slots. */
  lemma PopulateAutoFills(actor: Actor, flags: FlagStore, resolve: Resolver)
    requires FlagKey(actor.id) !in flags
    ensures Populate(Some(actor), flags, resolve) == AutoFill(actor.items)
    ensures |Populate(Some(actor), flags, resolve)| == SlotCount
  {
  }

  /** Save, then select the actor again: the hotbar comes back as it was saved. */
  lemma PopulateAfterSave(actor: Actor, slots: seq<Slot>, flags: FlagStore, resolve: Resolver)
    requires ResolvesBack(slots, resolve)
    ensures Populate(Some(actor), SaveHotbarToFlags(Some(actor), slots, flags), resolve) == slots
  {
  }

  class CombatHud {
    var hotbarSlots: seq<Slot>
    var rendered: bool

    constructor ()
      ensures hotbarSlots == EmptySlots() && !rendered
    {
      hotbarSlots := EmptySlots();
      rendered := false;
    }

    /** `render(force)`: a forced render opens the HUD; an unforced one only refreshes an open HUD. */
    method Render(force: bool)
      modifies this`rendered
      ensures rendered == (old(rendered) || force)
    {
      rendered := rendered || force;
    }

    method Close()
      modifies this`rendered
      ensures !rendered
    {
      rendered := false;
    }

    /** The hotbar part of `getData`. */
    function GetData(controlled: seq<Token>): (data: HudData)
      reads this
      ensures data.Shown? <==> CurrentActor(controlled).Some?
      ensures data.Shown? ==> |data.hotbar| == |hotbarSlots|
      ensures data.Shown? ==> forall i :: 0 <= i < |data.hotbar| ==>
                data.hotbar[i].index == i && (data.hotbar[i].empty <==> hotbarSlots[i].None?)
    {
      if CurrentActor(controlled).None? then Hidden else Shown(SlotViews(hotbarSlots))
    }

    /** `loadHotbarSlots`: replace the slots by the saved record or the auto-filled hotbar. */
    method LoadHotbarSlots(controlled: seq<Token>, flags: FlagStore, resolve: Resolver)
      modifies this`hotbarSlots
      ensures hotbarSlots == Populate(CurrentActor(controlled), flags, resolve)
    {
      var actor := CurrentActor(controlled);
      if actor.None? {
        hotbarSlots := EmptySlots();
        return;
      }
      var saved := LoadHotbarFromFlags(actor, flags, resolve);
      if saved.Some? {
        hotbarSlots := saved.value;
        return;
      }
      var items := actor.value.items;
      var allWeapons, allCantrips := Weapons(items), Cantrips(items);
      var weapons := allWeapons[..if |allWeapons| < WeaponSlots then |allWeapons| else WeaponSlots];
      var cantrips := allCantrips[..if |allCantrips| < CantripSlots then |allCantrips| else CantripSlots];

      hotbarSlots := EmptySlots();
      var idx := 0;
      while idx < |weapons|
        invariant 0 <= idx <= |weapons|
        invariant |hotbarSlots| == SlotCount
        invariant forall i :: 0 <= i < idx ==> hotbarSlots[i] == Some(weapons[i])
        invariant forall i :: idx <= i < SlotCount ==> hotbarSlots[i].None?
      {
        if idx < WeaponSlots {
          hotbarSlots := hotbarSlots[idx := Some(weapons[idx])];
        }
        idx := idx + 1;
      }
      idx := 0;
      while idx < |cantrips|
        invariant 0 <= idx <= |cantrips|
        invariant |hotbarSlots| == SlotCount
        invariant forall i :: 0 <= i < |weapons| ==> hotbarSlots[i] == Some(weapons[i])
        invariant forall i :: |weapons| <= i < WeaponSlots ==> hotbarSlots[i].None?
        invariant forall i :: 0 <= i < idx ==> hotbarSlots[i + WeaponSlots] == Some(cantrips[i])
        invariant forall i :: WeaponSlots + idx <= i < SlotCount ==> hotbarSlots[i].None?
      {
        if idx < CantripSlots {
          hotbarSlots := hotbarSlots[idx + WeaponSlots := Some(cantrips[idx])];
        }
        idx := idx + 1;
      }
      assert hotbarSlots == AutoFill(items) by {
        var expected := AutoFill(items);
        forall i | 0 <= i < SlotCount
          ensures hotbarSlots[i] == expected[i]
        {
          if WeaponSlots <= i && i - WeaponSlots < |cantrips| {
            assert hotbarSlots[(i - WeaponSlots) + WeaponSlots] == Some(cantrips[i - WeaponSlots]);
          }
        }
      }
    }

    /**
     * `activateSlot`: an empty slot or a missing actor does nothing; otherwise the
     * item is used once, and a failed use is reported by the item's name. The
     * slots are never changed (the method modifies nothing).
     */
    method ActivateSlot(controlled: seq<Token>, slotIndex: nat, useSucceeds: bool)
      returns (used: seq<Item>, notice: Option<Notice>)
      ensures SlotAt(hotbarSlots, slotIndex).None? || CurrentActor(controlled).None? ==>
                used == [] && notice == None
      ensures SlotAt(hotbarSlots, slotIndex).Some? && CurrentActor(controlled).Some? ==>
                used == [SlotAt(hotbarSlots, slotIndex).value]
      ensures notice.Some? <==> |used| == 1 && !useSucceeds
      ensures notice.Some? ==> notice == Some(ActivationFailed(used[0].name))
    {
      var item := SlotAt(hotbarSlots, slotIndex);
      if item.None? || CurrentActor(controlled).None? {
        return [], None;
      }
      used := [item.value];
      notice := if useSucceeds then None else Some(ActivationFailed(item.value.name));
    }

    /**
     * `_onSlotDrop`: without ownership, warn and change nothing. A payload that
     * does not parse, is not an item, or whose lookup throws changes nothing.
     * Otherwise the looked-up item (empty if the lookup found nothing) is written
     * to the one slot, and the hotbar is saved.
     */
    method OnSlotDrop(controlled: seq<Token>, payload: Option<DropData>, slotIndex: nat,
                      resolve: Resolver, flags: FlagStore)
      returns (flags': FlagStore, notice: Option<Notice>)
      requires slotIndex < SlotCount
      modifies this`hotbarSlots
      ensures var actor := CurrentActor(controlled);
              actor.None? || !actor.value.isOwner ==>
                hotbarSlots == old(hotbarSlots) && flags' == flags && notice == Some(PermissionDenied)
      ensures var actor := CurrentActor(controlled);
              actor.Some? && actor.value.isOwner && !DropAccepted(payload, resolve) ==>
                hotbarSlots == old(hotbarSlots) && flags' == flags && notice == None
      ensures var actor := CurrentActor(controlled);
              actor.Some? && actor.value.isOwner && DropAccepted(payload, resolve) ==>
                hotbarSlots == Assign(old(hotbarSlots), slotIndex, DroppedSlot(resolve(payload.value.uuid))) &&
                flags' == SaveHotbarToFlags(actor, hotbarSlots, flags) && notice == None
    {
      var actor := CurrentActor(controlled);
      if actor.None? || !actor.value.isOwner {
        return flags, Some(PermissionDenied);
      }
      flags', notice := flags, None;
      if payload.Some? && payload.value.dataType == "Item" {
        var found := resolve(payload.value.uuid);
        if !found.Throws? {
          hotbarSlots := Assign(hotbarSlots, slotIndex, DroppedSlot(found));
          flags' := SaveHotbarToFlags(actor, hotbarSlots, flags);
        }
      }
    }
  }

  /** A drop is applied when it parsed, names an item, and its lookup did not throw. */
  predicate DropAccepted(payload: Option<DropData>, resolve: Resolver)
  {
    payload.Some? && payload.value.dataType == "Item" && !resolve(payload.value.uuid).Throws?
  }

  /** What a drop writes: the item found, or an empty slot for a lookup that found nothing. */
  function DroppedSlot(r: Resolution): Slot
  {
    if r.Found? then Some(r.item) else None
  }
}
