/**
 * Saving the hotbar to the user's flags and restoring it. The flag store is
 * the host's per-user key-value store, keyed by "hotbar-" + actor id.
 */
module Persistence {
  import opened Wrappers
  import opened Host
  import opened Slots

  /** A saved slot: the item's locator and its display name. */
  datatype SavedRef = SavedRef(uuid: string, name: string)

  /** A saved hotbar: one entry per slot position, `null` for an empty slot. */
  type SavedRecord = seq<Option<SavedRef>>

  type FlagStore = map<string, SavedRecord>

  const FlagPrefix: string := "hotbar-"

  function FlagKey(actorId: string): string
  {
    FlagPrefix + actorId
  }

  /** Different actors have different flag keys, so their records never collide. */
  lemma FlagKeyInjective(a: string, b: string)
    ensures FlagKey(a) == FlagKey(b) ==> a == b
  {
    if FlagKey(a) == FlagKey(b) {
      assert a == FlagKey(a)[|FlagPrefix|..];
      assert b == FlagKey(b)[|FlagPrefix|..];
    }
  }

  function SaveEntry(slot: Slot): Option<SavedRef>
  {
    if slot.None? then None else Some(SavedRef(slot.value.uuid, slot.value.name))
  }

  /** Serialising the slots: positional, one entry per slot, never compacted. */
  function SaveRecord(slots: seq<Slot>): (rec: SavedRecord)
    ensures |rec| == |slots|
    ensures forall i :: 0 <= i < |slots| ==> (rec[i].None? <==> slots[i].None?)
    ensures forall i :: 0 <= i < |slots| && slots[i].Some? ==>
              rec[i] == Some(SavedRef(slots[i].value.uuid, slots[i].value.name))
  {
    if slots == [] then [] else [SaveEntry(slots[0])] + SaveRecord(slots[1..])
  }

  /**
   * Restoring one entry: `null` or a missing (empty) locator gives an empty
   * slot; so does a lookup that finds nothing or throws.
   */
  function RestoreEntry(entry: Option<SavedRef>, resolve: Resolver): Slot
  {
    match entry
    case None => None
    case Some(ref) =>
      if ref.uuid == "" then None
      else match resolve(ref.uuid)
        case Found(item) => Some(item)
        case NotFound => None
        case Throws => None
  }

  /**
   * Restoring a record entry by entry: the result has the record's length, and
   * each index depends on that index's entry only.
   */
  function RestoreSlots(rec: SavedRecord, resolve: Resolver): (slots: seq<Slot>)
    ensures |slots| == |rec|
    ensures forall i :: 0 <= i < |rec| ==>
              (slots[i].Some? <==> rec[i].Some? && rec[i].value.uuid != "" && resolve(rec[i].value.uuid).Found?)
    ensures forall i :: 0 <= i < |rec| && slots[i].Some? ==> slots[i].value == resolve(rec[i].value.uuid).item
  {
    if rec == [] then [] else [RestoreEntry(rec[0], resolve)] + RestoreSlots(rec[1..], resolve)
  }

  /** The resolver maps every occupied slot's locator back to that slot's item. */
  ghost predicate ResolvesBack(slots: seq<Slot>, resolve: Resolver)
  {
    forall i :: 0 <= i < |slots| && slots[i].Some? ==>
      slots[i].value.uuid != "" && resolve(slots[i].value.uuid) == Found(slots[i].value)
  }

  /** Save then restore gives back the same slots, empty ones included. */
  lemma RoundTrip(slots: seq<Slot>, resolve: Resolver)
    requires ResolvesBack(slots, resolve)
    ensures RestoreSlots(SaveRecord(slots), resolve) == slots
  {
  }

  /**
   * One entry whose lookup fails leaves exactly its own slot empty; every other
   * slot comes back as it was saved.
   */
  lemma {:induction false} OneFailedEntry(slots: seq<Slot>, resolve: Resolver, j: nat)
    requires j < |slots| && slots[j].Some? && !resolve(slots[j].value.uuid).Found?
    requires ResolvesBack(slots[j := None], resolve)
    ensures RestoreSlots(SaveRecord(slots), resolve) == slots[j := None]
  {
  }

  /** `loadHotbarFromFlags`: no actor or no saved record gives none; any saved record is restored. */
  function LoadHotbarFromFlags(actor: Option<Actor>, flags: FlagStore, resolve: Resolver): (r: Option<seq<Slot>>)
    ensures r.Some? <==> actor.Some? && FlagKey(actor.value.id) in flags
    ensures r.Some? ==> |r.value| == |flags[FlagKey(actor.value.id)]|
  {
    if actor.None? then None
    else
      var key := FlagKey(actor.value.id);
      if key !in flags then None else Some(RestoreSlots(flags[key], resolve))
  }

  /** `saveHotbarToFlags`: with an actor, its record becomes the serialised slots; nothing else changes. */
  function SaveHotbarToFlags(actor: Option<Actor>, slots: seq<Slot>, flags: FlagStore): (flags': FlagStore)
    ensures actor.None? ==> flags' == flags
    ensures actor.Some? ==> flags'.Keys == flags.Keys + {FlagKey(actor.value.id)}
    ensures actor.Some? ==> flags'[FlagKey(actor.value.id)] == SaveRecord(slots)
    ensures forall k :: k in flags && (actor.None? || k != FlagKey(actor.value.id)) ==> flags'[k] == flags[k]
  {
    if actor.None? then flags else flags[FlagKey(actor.value.id) := SaveRecord(slots)]
  }

  /** Saving for an actor and loading for that actor gives back the saved slots. */
  lemma SaveThenLoad(actor: Actor, slots: seq<Slot>, flags: FlagStore, resolve: Resolver)
    requires ResolvesBack(slots, resolve)
    ensures LoadHotbarFromFlags(Some(actor), SaveHotbarToFlags(Some(actor), slots, flags), resolve) == Some(slots)
  {
    RoundTrip(slots, resolve);
  }

  /** Saving one actor's hotbar does not change what another actor loads. */
  lemma SaveIsolatesActors(a: Actor, b: Actor, slots: seq<Slot>, flags: FlagStore, resolve: Resolver)
    requires a.id != b.id
    ensures LoadHotbarFromFlags(Some(b), SaveHotbarToFlags(Some(a), slots, flags), resolve)
         == LoadHotbarFromFlags(Some(b), flags, resolve)
  {
    FlagKeyInjective(a.id, b.id);
  }
}
