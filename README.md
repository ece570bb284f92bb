# Movement events and event callbacks of the Canary server

This project models two registries of the Canary game server's scripting layer
and proves properties of them in Dafny.

- **Movement events** (`src/lua/creature/movement.hpp`). `MoveEvents` is the
  trigger index. It keeps four independent tables: unique id, action id, item id
  and map position. Each table maps a key to a `MoveEventList`, which holds one
  handler list per movement trigger. It offers membership tests (`has*`) and
  insert-if-absent setters (`set*`, built on `std::map::try_emplace`).
  `MoveEvent` is one handler. It holds the keys it is registered under
  (append-only vectors), its equip requirements (level, magic level, premium,
  slot, vocation map, wield flags) and its tile-item flag, each with its
  default.
- **Event callbacks** (`src/lua/callbacks/events_callbacks.hpp`).
  `EventsCallbacks` holds the registered callbacks in registration order. It
  dispatches to the callbacks of one type in two ways.
  - `executeCallback` is a broadcast to every non-null, loaded callback.
  - `checkCallback` ANDs the boolean results of those callbacks. It calls every
    one of them before combining, so it never short-circuits, and it returns
    true when none is called.

Modules:

- `Wrappers` (`wrappers.dfy`): `Option`, used for a null pointer and for a
  `find` that reached `end()`.
- `StdMap` (`std_map.dfy`): `find` and `try_emplace` on a Dafny `map`, and the
  "first registration wins" lemmas.
- `Movement` (`movement.dfy`): the `MoveEvents` and `MoveEvent` classes, the
  wield-flag union and the vocation map.
- `Callbacks` (`events_callbacks.dfy`): the `EventsCallbacks` class and its
  two dispatch loops.

Modelling choices:

- The C++ fixed-width integers are Dafny subset types (`int32`, `uint16`,
  `uint32`). The wield word is a `bv32`.
- `vocEquipMap[vocationId]` narrows an `int32` to a `uint16` key. `ToUint16`
  writes that narrowing out as reduction modulo 2^16.
- The vocation lookup (`g_vocations().getVocationId`) belongs to another
  subsystem. It is a function parameter that may return the `-1` sentinel.
- A callback's member function runs a script. Its result is an uninterpreted
  function `member: EventCallback -> bool`. The call itself is recorded: each
  dispatch method returns `invoked`, the callbacks it called, in order.
- The body of `getCallbacksByType` is not in the header. Its doc-comment says it
  returns the callbacks of the given type. The model filters the registered
  list by type and keeps registration order. A null pointer has no type, so the
  filter drops it. The dispatch loops still test for null, as the source does,
  and the lemmas about `Invoked` cover null entries.
- `MoveEvent_t` and `SLOTP_WHEREEVER` are declared in headers that are not part
  of this model. The model uses their values in the project's declarations: the
  eight movement triggers before `MOVE_EVENT_LAST`, then `MOVE_EVENT_NONE`, and
  `SLOTP_WHEREEVER = 0xFFFFFFFF`. `setWieldInfo` is modelled for any 32-bit
  flag word, so the `WieldInfo_t` values are not needed.
- Where C++ has two getters for one field (`getReqLevel` and
  `getRequiredLevel`, `getReqMagLv` and `getRequiredMagLevel`, `isPremium`
  and `needPremium`, and the two `getWieldInfo`), the model has one function.
  The getters' defaults and read-back are stated by the constructor and setter
  rows below.
- The table getters `getPositionsMap`, `getItemIdMap`, `getUniqueIdMap` and
  `getActionIdMap` (movement.hpp lines 44-46, 60-62, 76-78, 92-94) are
  `MoveEvents.GetPositionsMap`, `GetItemIdMap`, `GetUniqueIdMap` and
  `GetActionIdMap`. `getCallbacks` (events_callbacks.hpp lines 54-58) is
  `EventsCallbacks.GetCallbacks`, which returns the registered callbacks in
  registration order. Each returns its whole table or list by value: a Dafny
  `map` or `seq` is a value, so a later `set*`, `addCallback` or `clear`
  cannot change a copy already returned. Their contents are stated through
  the `has*`, `set*`, `addCallback` and `clear` rows below.

## Model

| member | source | states |
|---|---|---|
| `StdMap.TryEmplace` | src/lua/creature/movement.hpp:56-58 | the key is present afterwards; an existing entry keeps its value; an absent key gets the new value; every other key keeps its value and no other key appears |
| `StdMap.TryEmplaceFirstWins` | src/lua/creature/movement.hpp:56-58 | a second `try_emplace` on the same key leaves the map unchanged |
| `StdMap.TryEmplaceCommutes` | src/lua/creature/movement.hpp:56-58 | `try_emplace` on two different keys gives the same map in either order |
| `StdMap.EmplaceAllFirstWins` | src/lua/creature/movement.hpp:72-74 | after any series of `try_emplace` calls, a key is present iff it was before or some call used it; its value is its old one, or else that of the first call that used it; old entries are untouched |
| `Movement.MoveEvents.constructor` | src/lua/creature/movement.hpp:127-130 | a new index has four empty tables |
| `Movement.MoveEvents.HasPosition` | src/lua/creature/movement.hpp:48-54 | true exactly when the position has an entry in the position table |
| `Movement.MoveEvents.HasItemId` | src/lua/creature/movement.hpp:64-70 | true exactly when the item id has an entry in the item-id table |
| `Movement.MoveEvents.HasUniqueId` | src/lua/creature/movement.hpp:80-86 | true exactly when the unique id has an entry in the unique-id table |
| `Movement.MoveEvents.HasActionId` | src/lua/creature/movement.hpp:96-102 | true exactly when the action id has an entry in the action-id table |
| `Movement.MoveEvents.SetPosition` | src/lua/creature/movement.hpp:56-58 | the position table becomes its insert-if-absent update; `HasPosition` holds afterwards; an existing entry is kept; the other three tables are unchanged |
| `Movement.MoveEvents.SetItemId` | src/lua/creature/movement.hpp:72-74 | the item-id table becomes its insert-if-absent update; `HasItemId` holds afterwards; an existing entry is kept; the other three tables are unchanged |
| `Movement.MoveEvents.SetUniqueId` | src/lua/creature/movement.hpp:88-90 | the unique-id table becomes its insert-if-absent update; `HasUniqueId` holds afterwards; an existing entry is kept; the other three tables are unchanged |
| `Movement.MoveEvents.SetActionId` | src/lua/creature/movement.hpp:104-106 | the action-id table becomes its insert-if-absent update; `HasActionId` holds afterwards; an existing entry is kept; the other three tables are unchanged |
| `Movement.MoveEvent.constructor` | src/lua/creature/movement.hpp:257-296 | a new event has slot `SLOTP_WHEREEVER`, type `MOVE_EVENT_NONE`, level 0, magic level 0, no premium, wield word 0, an empty vocation map and vocation string, no tile item and four empty key vectors |
| `Movement.MoveEvent.SetSlot` | src/lua/creature/movement.hpp:217-219 | `getSlot` reads back the slot set; no other field changes |
| `Movement.MoveEvent.SetRequiredLevel` | src/lua/creature/movement.hpp:220-225 | `getRequiredLevel` reads back the level set; no other field changes |
| `Movement.MoveEvent.SetRequiredMagLevel` | src/lua/creature/movement.hpp:226-231 | `getRequiredMagLevel` reads back the magic level set; no other field changes |
| `Movement.MoveEvent.SetNeedPremium` | src/lua/creature/movement.hpp:232-237 | `needPremium` reads back the flag set; no other field changes |
| `Movement.MoveEvent.SetVocationString` | src/lua/creature/movement.hpp:169-174 | `getVocationString` reads back the string set; no other field changes |
| `Movement.MoveEvent.SetTileItem` | src/lua/creature/movement.hpp:187-192 | `getTileItem` reads back the flag set; no other field changes |
| `Movement.MoveEvent.SetItemId` | src/lua/creature/movement.hpp:193-198 | the item-id vector grows by the id at its end; earlier ids and their order are kept |
| `Movement.MoveEvent.SetActionId` | src/lua/creature/movement.hpp:199-204 | the action-id vector grows by the id at its end; earlier ids and their order are kept |
| `Movement.MoveEvent.SetUniqueId` | src/lua/creature/movement.hpp:205-210 | the unique-id vector grows by the id at its end; earlier ids and their order are kept |
| `Movement.MoveEvent.SetPosition` | src/lua/creature/movement.hpp:211-216 | the position vector grows by the position at its end; earlier positions and their order are kept |
| `Movement.MoveEvent.SetWieldInfo` | src/lua/creature/movement.hpp:241-243 | the word becomes the old word OR the flag; no old bit is cleared; the word stays the union of every flag passed since construction |
| `Movement.WieldUnionStep` | src/lua/creature/movement.hpp:241-243 | one more call ORs its flag into the word of the earlier calls |
| `Movement.WieldUnionCovers` | src/lua/creature/movement.hpp:241-243 | every bit of every flag passed is set in the wield word |
| `Movement.WieldUnionLeast` | src/lua/creature/movement.hpp:289 | starting from 0, no bit is set in the wield word unless some flag passed carries it |
| `Movement.WieldUnionOrderFree` | src/lua/creature/movement.hpp:241-243 | the wield word depends only on which flags were passed, not on their order or repeats |
| `Movement.WieldUnionRepeat` | src/lua/creature/movement.hpp:241-243 | passing the same flag twice gives the same word as passing it once |
| `Movement.WieldUnionGrows` | src/lua/creature/movement.hpp:241-243 | further calls never clear a bit already set |
| `Movement.ToUint16` | src/lua/creature/movement.hpp:182-184 | the `int32` to `uint16` key conversion keeps every id in 0..65535 and is congruent modulo 2^16 |
| `Movement.AddVocation` | src/lua/creature/movement.hpp:181-186 | a lookup of -1 leaves the map unchanged; any other id marks that vocation true; other entries are unchanged |
| `Movement.AddVocationCommutes` | src/lua/creature/movement.hpp:181-186 | adding two vocations gives the same map in either order |
| `Movement.MoveEvent.AddVocEquipMap` | src/lua/creature/movement.hpp:181-186 | the map becomes `AddVocation` of the old map and the looked-up id; no other field changes |
| `Callbacks.OfType` | src/lua/callbacks/events_callbacks.hpp:60-65 | every result is a non-null callback of the type; a callback is in the result exactly when it is registered and has the type |
| `Callbacks.OfTypeAppend` | src/lua/callbacks/events_callbacks.hpp:60-65 | filtering by type keeps registration order (it distributes over concatenation) |
| `Callbacks.Invoked` | src/lua/callbacks/events_callbacks.hpp:80-83 | a callback is called exactly when it appears non-null and loaded in the selection |
| `Callbacks.InvokedAppend` | src/lua/callbacks/events_callbacks.hpp:80-84 | the loop calls callbacks in selection order, part after part |
| `Callbacks.InvokedStep` | src/lua/callbacks/events_callbacks.hpp:80-83 | one more iteration calls the next entry exactly when it is non-null and loaded |
| `Callbacks.SkippedChangesNothing` | src/lua/callbacks/events_callbacks.hpp:81-83 | a null or unloaded entry anywhere in the selection changes no call |
| `Callbacks.AllSucceededStep` | src/lua/callbacks/events_callbacks.hpp:100-101 | one more call ANDs its result into the results of the earlier calls |
| `Callbacks.AllSucceededIff` | src/lua/callbacks/events_callbacks.hpp:96-104 | the AND accumulated from true is true exactly when every call returned true |
| `Callbacks.VacuousSuccess` | src/lua/callbacks/events_callbacks.hpp:96-104 | with no non-null loaded callback nothing is called and the result is true |
| `Callbacks.EventsCallbacks.constructor` | src/lua/callbacks/events_callbacks.hpp:29-32 | a new registry has no callbacks |
| `Callbacks.EventsCallbacks.AddCallback` | src/lua/callbacks/events_callbacks.hpp:48-52 | the callback is appended after the existing ones, so it is among `getCallbacks()` |
| `Callbacks.EventsCallbacks.GetCallbacksByType` | src/lua/callbacks/events_callbacks.hpp:60-65 | returns only non-null callbacks of the requested type, and every registered callback of that type |
| `Callbacks.EventsCallbacks.Clear` | src/lua/callbacks/events_callbacks.hpp:67-70 | `getCallbacks()` is empty afterwards |
| `Callbacks.EventsCallbacks.ExecuteCallback` | src/lua/callbacks/events_callbacks.hpp:72-85 | calls exactly the non-null loaded callbacks of the type, in registration order, and no other |
| `Callbacks.EventsCallbacks.CheckCallback` | src/lua/callbacks/events_callbacks.hpp:87-105 | calls every non-null loaded callback of the type, in order, even after a false result; returns true exactly when every called callback returned true (true when none was called) |

## Left out

- `getEvent` (all three overloads), `onCreatureMove`, `onPlayerEquip`,
  `onPlayerDeEquip` and `onItemMove` are only declared in the header. Their
  precedence rules, result combination and equip checks are not modelled.
- `registerEvent`, the `registerLua*Event` functions, `clear`, `clearMap` and
  `clearPosMap` are only declared in the header, so they are not modelled.
- `getEventType` and `setEventType` are only declared. The model has the field
  and its default `MOVE_EVENT_NONE`, but no setter.
- `fireStepEvent`, `fireAddRemItem`, `fireEquip`, the `execute*` functions, the
  static handlers (`StepInField`, `EquipItem`, ...) and the `std::function`
  members run native or script code. None of them is modelled.
- The scripting engine, `LuaScriptInterface` and the `Script` /
  `SharedObject` bases are not part of this model.
- `getInstance` / `inject` and the `g_moveEvents` and `g_callbacks`
  singletons are not modelled. `shared_ptr` ownership and lifetime are not
  modelled either: a handler is an object reference and a callback is a value.
- The `EventsCallbacks` destructor is not modelled.
- `Callbacks.EventsCallbacks.ExecuteCallback`: the member's arguments and its
  discarded return value are not modelled; only which callbacks are called,
  and in what order.
- `Callbacks.EventsCallbacks.CheckCallback`: a callback's result is a fixed
  function of the callback. Script side effects that change later results are
  not modelled.
- Threading and reload synchronisation: the source has no locking, so there is
  nothing to model.
- The ordering `std::map` keeps on its keys (the `Position` comparison) is not
  modelled; a Dafny `map` has no order.
