/** Auto-filling the hotbar from an actor's weapons and cantrips. */
module Population {
  import opened Wrappers
  import opened Host
  import opened Slots

  /** Slots 0..1 take weapons, slots 2..11 take cantrips. */
  const WeaponSlots: nat := 2
  const CantripSlots: nat := 10

  predicate IsWeapon(item: Item)
  {
    item.itemType == "weapon"
  }

  /** A cantrip is a spell of level 0. */
  predicate IsCantrip(item: Item)
  {
    item.itemType == "spell" && item.level == 0
  }

  /** The elements of `s` that satisfy `p`, in their order in `s`. */
  function Filter<T(!new)>(s: seq<T>, p: T -> bool): (r: seq<T>)
    ensures |r| <= |s|
    ensures forall x :: x in r <==> x in s && p(x)
  {
    if s == [] then []
    else (if p(s[0]) then [s[0]] else []) + Filter(s[1..], p)
  }

  /** Filtering keeps the order of the input: it distributes over concatenation. */
  lemma {:induction false} FilterAppend<T(!new)>(a: seq<T>, b: seq<T>, p: T -> bool)
    ensures Filter(a + b, p) == Filter(a, p) + Filter(b, p)
  {
    if a == [] {
      assert a + b == b;
    } else {
      assert (a + b)[1..] == a[1..] + b;
      FilterAppend(a[1..], b, p);
    }
  }

  function Weapons(items: seq<Item>): seq<Item>
  {
    Filter(items, IsWeapon)
  }

  function Cantrips(items: seq<Item>): seq<Item>
  {
    Filter(items, IsCantrip)
  }

  /** The first `n` elements of `s` placed in `n` slots; the rest of the slots empty. */
  function Occupy(s: seq<Item>, n: nat): seq<Slot>
  {
    seq(n, i requires 0 <= i < n => if i < |s| then Some(s[i]) else None)
  }

  /**
   * The auto-filled hotbar: the first two weapons in slots 0..1, the first ten
   * cantrips in slots 2..11, every other slot empty and further items dropped.
   */
  function AutoFill(items: seq<Item>): (slots: seq<Slot>)
    ensures |slots| == SlotCount
    ensures forall i :: 0 <= i < WeaponSlots ==>
              slots[i] == if i < |Weapons(items)| then Some(Weapons(items)[i]) else None
    ensures forall i :: WeaponSlots <= i < SlotCount ==>
              slots[i] == if i - WeaponSlots < |Cantrips(items)| then Some(Cantrips(items)[i - WeaponSlots]) else None
  {
    Occupy(Weapons(items), WeaponSlots) + Occupy(Cantrips(items), CantripSlots)
  }

  /** Every auto-filled item is one of the actor's items of the kind its slot takes. */
  lemma AutoFillKinds(items: seq<Item>, i: nat)
    requires i < SlotCount && AutoFill(items)[i].Some?
    ensures AutoFill(items)[i].value in items
    ensures i < WeaponSlots ==> IsWeapon(AutoFill(items)[i].value)
    ensures WeaponSlots <= i ==> IsCantrip(AutoFill(items)[i].value)
  {
  }

  /** Slot `i` is occupied exactly when the actor has enough items of that slot's kind. */
  lemma AutoFillOccupancy(items: seq<Item>, i: nat)
    requires i < SlotCount
    ensures i < WeaponSlots ==> (AutoFill(items)[i].Some? <==> i < |Weapons(items)|)
    ensures WeaponSlots <= i ==> (AutoFill(items)[i].Some? <==> i - WeaponSlots < |Cantrips(items)|)
  {
  }

  /**
   * Once the first items already fill both budgets, appending more items changes
   * nothing: the surplus is dropped.
   */
  lemma AutoFillIgnoresSurplus(items: seq<Item>, more: seq<Item>)
    requires |Weapons(items)| >= WeaponSlots && |Cantrips(items)| >= CantripSlots
    ensures AutoFill(items + more) == AutoFill(items)
  {
    FilterAppend(items, more, IsWeapon);
    FilterAppend(items, more, IsCantrip);
    var a, b := AutoFill(items + more), AutoFill(items);
    forall i | 0 <= i < SlotCount
      ensures a[i] == b[i]
    {
      if i < WeaponSlots {
        assert Weapons(items + more)[i] == Weapons(items)[i];
      } else {
        assert Cantrips(items + more)[i - WeaponSlots] == Cantrips(items)[i - WeaponSlots];
      }
    }
  }
}
