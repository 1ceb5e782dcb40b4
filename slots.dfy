/** The fixed-size hotbar slot array and its display projection. */
module Slots {
  import opened Wrappers
  import opened Host

  /** Number of hotbar slots. */
  const SlotCount: nat := 12

  /** A slot is empty (`null`, or a hole in the array) or holds an item. */
  type Slot = Option<Item>

  /** Twelve empty slots, as the constructor and an actor-less load leave the hotbar. */
  function EmptySlots(): (slots: seq<Slot>)
    ensures |slots| == SlotCount
    ensures forall i :: 0 <= i < |slots| ==> slots[i].None?
  {
    seq(SlotCount, _ => None)
  }

  /** Reading an index at or past the end of the array gives `undefined`, an empty slot. */
  function SlotAt(slots: seq<Slot>, index: nat): Slot
  {
    if index < |slots| then slots[index] else None
  }

  /**
   * Writing `slots[index] = v`. An index past the end grows the array. The
   * holes in between are modelled as empty slots: an index read of a hole
   * (as `activateSlot` does) gives `undefined`, an empty slot.
   */
  function Assign(slots: seq<Slot>, index: nat, v: Slot): (r: seq<Slot>)
    ensures |r| == if index < |slots| then |slots| else index + 1
    ensures r[index] == v
    ensures forall j :: 0 <= j < |slots| && j != index ==> r[j] == slots[j]
    ensures forall j :: |slots| <= j < index ==> r[j].None?
  {
    if index < |slots| then slots[index := v]
    else slots + seq(index - |slots|, _ => None) + [v]
  }

  /** The key label shown on a slot: a number or a sign. */
  datatype KeyLabel = Number(n: nat) | Sign(c: char)

  function LabelFor(index: nat): KeyLabel
  {
    if index < 9 then Number(index + 1)
    else if index == 9 then Number(0)
    else if index == 10 then Sign('-')
    else Sign('=')
  }

  /** The twelve slots carry twelve different labels. */
  lemma LabelsDistinct(i: nat, j: nat)
    requires i < SlotCount && j < SlotCount && i != j
    ensures LabelFor(i) != LabelFor(j)
  {
  }

  /** What the template is given about the item in a slot. */
  datatype ItemView = ItemView(name: string, img: string, id: string)

  /** One row of the hotbar display model. */
  datatype SlotView = SlotView(index: nat, number: KeyLabel, item: Option<ItemView>, empty: bool)

  function ViewOf(index: nat, slot: Slot): SlotView
  {
    SlotView(index, LabelFor(index),
             if slot.Some? then Some(ItemView(slot.value.name, slot.value.img, slot.value.id)) else None,
             slot.None?)
  }

  /** The `hotbarSlots` part of the display model: one row per slot, in slot order. */
  function SlotViews(slots: seq<Slot>): (views: seq<SlotView>)
    ensures |views| == |slots|
    ensures forall i :: 0 <= i < |views| ==> views[i].index == i
    ensures forall i :: 0 <= i < |views| ==> (views[i].empty <==> slots[i].None?)
    ensures forall i :: 0 <= i < |views| ==> (views[i].item.Some? <==> slots[i].Some?)
    ensures forall i :: 0 <= i < |views| && slots[i].Some? ==>
              views[i].item.value == ItemView(slots[i].value.name, slots[i].value.img, slots[i].value.id)
    ensures forall i :: 0 <= i < |views| && i < 9 ==> views[i].number == Number(i + 1)
    ensures |views| > 9 ==> views[9].number == Number(0)
    ensures |views| > 10 ==> views[10].number == Sign('-')
    ensures forall i :: 11 <= i < |views| ==> views[i].number == Sign('=')
  {
    if slots == [] then []
    else SlotViews(slots[..|slots| - 1]) + [ViewOf(|slots| - 1, slots[|slots| - 1])]
  }
}
