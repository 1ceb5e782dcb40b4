# BG3 combat HUD: the hotbar slot manager

A Dafny model of the hotbar of the BG3-style combat HUD for Foundry VTT. The
HUD object (`BG3CombatHUD`) holds a twelve-entry slot array. The module file
registers a keyboard shortcut per slot and hooks the HUD into token control
and actor updates. The model covers:

- creating the slot array;
- filling it when a token is controlled, either from the user's saved hotbar
  for that actor or by auto-filling weapons and cantrips;
- saving it to the user's flags and restoring it from them;
- the display rows and their key labels;
- activating a slot, by click or by key;
- assigning a dropped item to a slot;
- the `controlToken`, `updateActor` and toggle-key handlers.

The host is passed in as values:

- the controlled tokens, as `seq<Token>`; the HUD's actor is the first token's actor;
- the user's flag store, as a map keyed by `"hotbar-" + actor id`;
- `fromUuid`, as a function from locator to `Found(item)`, `NotFound` (the
  lookup returns `null`) or `Throws`;
- the outcome of `item.use()`, as a boolean;
- the parsed drop payload, as an option (none when parsing fails).

Each asynchronous step is modelled as a plain sequential step.

Files, one module each:

- `wrappers.dfy`: `Option`.
- `host.dfy`: items, actors, tokens, lookups.
- `slots.dfy`: the slot array, writes into it and its display rows.
- `population.dfy`: auto-fill.
- `persistence.dfy`: save, restore and the flag store.
- `hud.dfy`: the `CombatHud` class.
- `keybindings.dfy`: the slot shortcuts and the toggle key.
- `hooks.dfy`: the `controlToken` and `updateActor` hooks.

The model follows the code, including these behaviours a reader might not
expect of a fixed twelve-slot hotbar:

- A saved record of any length is adopted, even an empty one (an empty array
  is truthy). Nothing checks for twelve entries.
- Releasing the last controlled token closes the HUD but does not reset the slots.
- When the actor changes during a load, nothing discards the stale result.
- A drop at an index past the end of a shorter adopted record grows the array
  (JavaScript array semantics) instead of failing.
- A dropped locator that resolves to nothing writes an empty slot, and the
  hotbar is then saved.

## Model

| member | source | states |
|---|---|---|
| Slots.EmptySlots | bg3-combat-hud/scripts/hud.js:4 | the fresh hotbar has exactly 12 slots, all empty |
| Slots.Assign | bg3-combat-hud/scripts/hud.js:291-293 | writing slot `index` sets that slot to the value and leaves every other existing slot unchanged; the length stays the same, or grows to `index + 1` with empty holes when the index is past the end |
| Slots.LabelsDistinct | bg3-combat-hud/scripts/hud.js:71-73 | the twelve slots carry twelve different key labels |
| Slots.SlotViews | bg3-combat-hud/scripts/hud.js:70-85 | one display row per slot, in order: row `i` has index `i`; it is `empty` exactly when slot `i` is empty and carries the item's name, image and id otherwise; its label is `i+1` for `i < 9`, `0` for 9, `-` for 10 and `=` for 11 and beyond |
| Population.Filter | bg3-combat-hud/scripts/hud.js:123-124 | the filtered list holds exactly the items satisfying the predicate and is no longer than the input |
| Population.FilterAppend | bg3-combat-hud/scripts/hud.js:123-124 | filtering keeps the actor's item order: it distributes over concatenation |
| Population.AutoFill | bg3-combat-hud/scripts/hud.js:122-134 | auto-fill gives 12 slots: slot `i < 2` holds the `i`-th weapon if there is one, slot `2 + k` holds the `k`-th level-0 spell if there is one, and every other slot is empty |
| Population.AutoFillKinds | bg3-combat-hud/scripts/hud.js:123-124 | every auto-filled item belongs to the actor: a weapon in slots 0..1, a level-0 spell in slots 2..11 |
| Population.AutoFillOccupancy | bg3-combat-hud/scripts/hud.js:126-134 | slot `i` is occupied iff the actor has more than `i` weapons (slots 0..1), or more than `i - 2` cantrips (slots 2..11) |
| Population.AutoFillIgnoresSurplus | bg3-combat-hud/scripts/hud.js:123-124 | once 2 weapons and 10 cantrips are available, further items change nothing: the surplus is dropped |
| Persistence.FlagKeyInjective | bg3-combat-hud/scripts/hud.js:141 | different actor ids give different flag keys |
| Persistence.SaveRecord | bg3-combat-hud/scripts/hud.js:175-181 | serialisation is positional and never compacts: same length; entry `i` is null iff slot `i` is empty, else `{uuid, name}` of that item |
| Persistence.RestoreSlots | bg3-combat-hud/scripts/hud.js:150-160 | restoring keeps the record's length; index `i` holds an item iff entry `i` is non-null, has a locator and that locator resolves, and then it is the resolved item; each index depends only on its own entry |
| Persistence.RoundTrip | bg3-combat-hud/scripts/hud.js:150-181 | with a lookup that maps each saved locator back to its item, restoring the saved record gives back the original slots, empty ones included |
| Persistence.OneFailedEntry | bg3-combat-hud/scripts/hud.js:151-158 | when exactly one occupied slot's lookup fails (null or thrown), restoring empties that slot only and gives back every other slot |
| Persistence.LoadHotbarFromFlags | bg3-combat-hud/scripts/hud.js:137-168 | a restored hotbar exists iff there is an actor and a record under its flag key; it has that record's length |
| Persistence.SaveHotbarToFlags | bg3-combat-hud/scripts/hud.js:170-191 | without an actor the store is unchanged; with one, the actor's key holds the serialised slots and every other key keeps its record |
| Persistence.SaveThenLoad | bg3-combat-hud/scripts/hud.js:137-191 | saving an actor's hotbar and then loading for that actor gives back the same slots |
| Persistence.SaveIsolatesActors | bg3-combat-hud/scripts/hud.js:174-186 | saving one actor's hotbar does not change what a different actor loads |
| Hud.PopulateWithoutActor | bg3-combat-hud/scripts/hud.js:108-112 | with no actor, loading leaves 12 empty slots, the same as the constructor |
| Hud.PopulateAdoptsSaved | bg3-combat-hud/scripts/hud.js:115-119 | with a saved record, loading adopts the restored record verbatim, whatever its length, and does not auto-fill |
| Hud.PopulateAutoFills | bg3-combat-hud/scripts/hud.js:121-134 | with no saved record, loading gives the auto-filled 12 slots |
| Hud.PopulateAfterSave | bg3-combat-hud/scripts/hud.js:108-191 | save followed by a fresh load for the same actor restores the saved hotbar |
| Hud.CombatHud.constructor | bg3-combat-hud/scripts/hud.js:2-5 | a new HUD has 12 empty slots and is not rendered |
| Hud.CombatHud.GetData | bg3-combat-hud/scripts/hud.js:26-85 | the display is hidden iff there is no actor; otherwise it has one row per slot, row `i` with index `i` and empty iff slot `i` is empty |
| Hud.CombatHud.LoadHotbarSlots | bg3-combat-hud/scripts/hud.js:108-135 | the fill loops leave exactly the populated hotbar: 12 empty slots without an actor, the saved record when there is one, the auto-filled slots otherwise; only the slots change |
| Hud.CombatHud.ActivateSlot | bg3-combat-hud/scripts/hud.js:264-276 | an empty or missing slot, or no actor: no `use` call and no notice; otherwise `use` is called exactly once on the slot's item, a failure gives a notice naming the item, and the slots never change |
| Hud.CombatHud.OnSlotDrop | bg3-combat-hud/scripts/hud.js:278-300 | without an owned actor: permission notice, slots and store unchanged; unparsed, non-item or throwing drops: nothing changes and nothing is saved; otherwise only the dropped-on slot is written (the item, or empty if the lookup found nothing) and the new hotbar is saved |
| Keybindings.SlotForKey | bg3-combat-hud/scripts/module.js:41-93 | a bound key activates a slot in 0..11, and that slot's label is the key itself |
| Keybindings.KeyForEverySlot | bg3-combat-hud/scripts/module.js:42-93 | for each slot, a key activates it iff the key shows that slot's label: Digit1..9 for slots 0..8, Digit0 for 9, Minus for 10, Equal for 11 |
| Keybindings.SlotForKeyInjective | bg3-combat-hud/scripts/module.js:42-93 | no two keys activate the same slot |
| Keybindings.RegisterSlotBindings | bg3-combat-hud/scripts/module.js:41-93 | the registration loop and the three single registrations give 12 bindings; binding `j` activates slot `j` with the key showing label `j`, so the slots are covered once each |
| Keybindings.OnSlotKeyDown | bg3-combat-hud/scripts/module.js:46-52 | the handler reports the key as handled iff there is a HUD and an actor; if not handled, nothing is activated; if handled, it uses the bound slot's item once if the slot holds one |
| Keybindings.ToggleHud | bg3-combat-hud/scripts/module.js:29-38 | the toggle key flips an existing HUD between open and closed, leaves its slots alone and always consumes the key |
| Hooks.ControlToken | bg3-combat-hud/scripts/module.js:101-110 | missing or disabled HUD: nothing changes; control: the slots are populated and the HUD is open; release with no tokens left: the HUD closes and the slots are kept; release with tokens left: nothing changes |
| Hooks.UpdateActor | bg3-combat-hud/scripts/module.js:112-116 | the HUD is refreshed iff the updated actor is the HUD's actor; neither the slots nor the open state change |

## Left out

- The rest menu and rests (`_onRestClick`, `_performRest`): DOM construction, timers and host rest calls.
- `activateListeners`, `defaultOptions` and the framework's rendering. Rendering is the `rendered` flag only: a forced `render` opens, `close` closes.
- The rest of `getData`: HP and its floating-point percentage, AC, movement, the opacity setting, spell-slot pips and `getConditions`.
- Settings registration and the global HUD singleton. The HUD is passed to handlers explicitly, and the `enableHUD` setting is a boolean parameter.
- Console logging. Notifications are recorded by kind only.
- Asynchrony. Each `await` is a sequential step, and `Promise.all` resolves the entries one after another. `controlToken` does not await `loadHotbarSlots`; the model completes the load before rendering.
- The drop payload is taken as already parsed: an option of `{type, uuid}`. `JSON.parse` failures, non-object payloads and a null payload are all "none".
- A truthy saved flag value that is not an array, where `map` throws and the load falls back to auto-fill. Saved records are typed as sequences of entries.
- A failing `setFlag`: the code catches and logs it, and the model assumes the write succeeds.
- `_onSlotClick`. It reads the slot index from the element and calls `activateSlot`, which is `ActivateSlot`. A non-numeric index (`parseInt` giving `NaN`) is not modelled: indices are naturals.
- The names and display metadata of the keybindings.
- Holes left by a drop past the end of a shorter record: the model stores them as empty slots. That agrees with index reads (`activateSlot`) and with saving, which writes `null` for them. But `getData` builds the display with `map`, which skips holes, so the code shows no row for them, while `SlotViews` and `GetData` give each hole an empty row.
- Hud.CombatHud.OnSlotDrop: requires a slot index below 12. The code does not check it; the index comes from a rendered slot element. Writes past the end of a shorter record are still modelled, with JavaScript's array growth.
