/**
 * The movement-event registry: the `MoveEvents` trigger index with its four keyed
 * tables, and the `MoveEvent` handler record with its matching keys and its
 * equip requirements.
 */
module Movement {
  import opened Wrappers
  import opened StdMap

  type uint8 = x: int | 0 <= x < 0x100
  type uint16 = x: int | 0 <= x < 0x1_0000
  type int32 = x: int | -0x8000_0000 <= x < 0x8000_0000
  type uint32 = x: int | 0 <= x < 0x1_0000_0000

  /** A map position: 16-bit x and y, 8-bit floor. */
  datatype Position = Position(x: uint16, y: uint16, z: uint8)

  /** `MoveEvent_t`: the movement triggers, then the `NONE` marker of an untyped event. */
  datatype MoveEventType =
    | StepIn | StepOut | Equip | DeEquip
    | AddItem | RemoveItem | AddItemItemTile | RemoveItemItemTile
    | NoEvent

  /** `MOVE_EVENT_LAST`: the number of real triggers, all listed before `NoEvent`. */
  const MOVE_EVENT_LAST: nat := 8

  /** `SLOTP_WHEREEVER`: the slot mask of an event not tied to one equipment slot. */
  const SLOTP_WHEREEVER: uint32 := 0xFFFF_FFFF

  /** `MoveEventList`: one ordered handler list per movement trigger. */
  datatype MoveEventSlots = MoveEventSlots(moveEvent: seq<seq<MoveEvent>>)
  type MoveEventList = l: MoveEventSlots | |l.moveEvent| == MOVE_EVENT_LAST
    witness MoveEventSlots([[], [], [], [], [], [], [], []])

  /**
   * `MoveEvents`: four independent tables from a key to the handler lists
   * registered under it.
   */
  class MoveEvents {
    var uniqueIdMap: map<int32, MoveEventList>
    var actionIdMap: map<int32, MoveEventList>
    var itemIdMap: map<int32, MoveEventList>
    var positionsMap: map<Position, MoveEventList>

    constructor ()
      ensures uniqueIdMap == map[] && actionIdMap == map[]
      ensures itemIdMap == map[] && positionsMap == map[]
    {
      uniqueIdMap, actionIdMap, itemIdMap, positionsMap := map[], map[], map[], map[];
    }

    // The by-value getters of the four tables.
    function GetPositionsMap(): map<Position, MoveEventList> reads this { positionsMap }
    function GetItemIdMap(): map<int32, MoveEventList> reads this { itemIdMap }
    function GetUniqueIdMap(): map<int32, MoveEventList> reads this { uniqueIdMap }
    function GetActionIdMap(): map<int32, MoveEventList> reads this { actionIdMap }

    function HasPosition(position: Position): (found: bool)
      reads this
      ensures found <==> position in positionsMap
    {
      Find(positionsMap, position).Some?
    }

    function HasItemId(itemId: int32): (found: bool)
      reads this
      ensures found <==> itemId in itemIdMap
    {
      Find(itemIdMap, itemId).Some?
    }

    function HasUniqueId(uniqueId: int32): (found: bool)
      reads this
      ensures found <==> uniqueId in uniqueIdMap
    {
      Find(uniqueIdMap, uniqueId).Some?
    }

    function HasActionId(actionId: int32): (found: bool)
      reads this
      ensures found <==> actionId in actionIdMap
    {
      Find(actionIdMap, actionId).Some?
    }

    method SetPosition(position: Position, moveEventList: MoveEventList)
      modifies this`positionsMap
      ensures positionsMap == TryEmplace(old(positionsMap), position, moveEventList)
      ensures HasPosition(position)
      ensures position in old(positionsMap) ==> positionsMap == old(positionsMap)
      ensures uniqueIdMap == old(uniqueIdMap) && actionIdMap == old(actionIdMap)
      ensures itemIdMap == old(itemIdMap)
    {
      positionsMap := TryEmplace(positionsMap, position, moveEventList);
    }

    method SetItemId(itemId: int32, moveEventList: MoveEventList)
      modifies this`itemIdMap
      ensures itemIdMap == TryEmplace(old(itemIdMap), itemId, moveEventList)
      ensures HasItemId(itemId)
      ensures itemId in old(itemIdMap) ==> itemIdMap == old(itemIdMap)
      ensures uniqueIdMap == old(uniqueIdMap) && actionIdMap == old(actionIdMap)
      ensures positionsMap == old(positionsMap)
    {
      itemIdMap := TryEmplace(itemIdMap, itemId, moveEventList);
    }

    method SetUniqueId(uniqueId: int32, moveEventList: MoveEventList)
      modifies this`uniqueIdMap
      ensures uniqueIdMap == TryEmplace(old(uniqueIdMap), uniqueId, moveEventList)
      ensures HasUniqueId(uniqueId)
      ensures uniqueId in old(uniqueIdMap) ==> uniqueIdMap == old(uniqueIdMap)
      ensures actionIdMap == old(actionIdMap) && itemIdMap == old(itemIdMap)
      ensures positionsMap == old(positionsMap)
    {
      uniqueIdMap := TryEmplace(uniqueIdMap, uniqueId, moveEventList);
    }

    method SetActionId(actionId: int32, moveEventList: MoveEventList)
      modifies this`actionIdMap
      ensures actionIdMap == TryEmplace(old(actionIdMap), actionId, moveEventList)
      ensures HasActionId(actionId)
      ensures actionId in old(actionIdMap) ==> actionIdMap == old(actionIdMap)
      ensures uniqueIdMap == old(uniqueIdMap) && itemIdMap == old(itemIdMap)
      ensures positionsMap == old(positionsMap)
    {
      actionIdMap := TryEmplace(actionIdMap, actionId, moveEventList);
    }
  }

  /*
   * Wield requirement flags. `setWieldInfo` ORs each flag into a word that starts
   * at 0, so the word after a series of calls is the union of the flags passed.
   */

  /** The wield word after `setWieldInfo` was called with `flags`, in that order. */
  function WieldUnion(flags: seq<bv32>): bv32
  {
    if |flags| == 0 then 0 else WieldUnion(flags[..|flags| - 1]) | flags[|flags| - 1]
  }

  /** One more `setWieldInfo` call ORs its flag into the word of the earlier calls. */
  lemma WieldUnionStep(flags: seq<bv32>, f: bv32)
    ensures WieldUnion(flags + [f]) == WieldUnion(flags) | f
  {
    assert (flags + [f])[..|flags|] == flags;
  }

  /** The word after one more call, from the word of the earlier calls. */
  lemma WieldStepFacts(word: bv32, flags: seq<bv32>, f: bv32)
    requires word == WieldUnion(flags)
    ensures word | f == WieldUnion(flags + [f])
    ensures Within(word, word | f)
  {
    WieldUnionStep(flags, f);
    OrKeepsBits(word, f);
  }

  /** OR-ing a flag into a word keeps every bit the word had. */
  lemma OrKeepsBits(word: bv32, f: bv32)
    ensures Within(word, word | f)
  {
  }

  /** Every bit of every flag passed is set in the word: a set bit is never cleared. */
  lemma {:induction false} WieldUnionCovers(flags: seq<bv32>)
    ensures forall j :: 0 <= j < |flags| ==> Within(flags[j], WieldUnion(flags))
  {
    if |flags| > 0 {
      var init := flags[..|flags| - 1];
      WieldUnionCovers(init);
      forall j | 0 <= j < |flags|
        ensures Within(flags[j], WieldUnion(flags))
      {
        if j < |flags| - 1 {
          assert flags[j] == init[j];
        }
      }
    }
  }

  /** No bit is set in the word unless some flag passed carries it. */
  lemma {:induction false} WieldUnionLeast(flags: seq<bv32>, bound: bv32)
    requires forall j :: 0 <= j < |flags| ==> Within(flags[j], bound)
    ensures Within(WieldUnion(flags), bound)
  {
    if |flags| > 0 {
      var init := flags[..|flags| - 1];
      assert forall j :: 0 <= j < |init| ==> init[j] == flags[j];
      WieldUnionLeast(init, bound);
    }
  }

  /** Every bit set in `a` is set in `b`. */
  predicate Within(a: bv32, b: bv32)
  {
    a & !b == 0
  }

  /** Two words, each of whose bits are all set in the other, are equal. */
  lemma SameBits(a: bv32, b: bv32)
    requires Within(a, b) && Within(b, a)
    ensures a == b
  {
  }

  /** Every flag of `flags` also occurs in `others`, so its bits are set in their word. */
  lemma WieldUnionCoversAll(flags: seq<bv32>, others: seq<bv32>)
    requires forall f :: f in flags ==> f in others
    ensures Within(WieldUnion(flags), WieldUnion(others))
  {
    WieldUnionCovers(others);
    var b := WieldUnion(others);
    forall j | 0 <= j < |flags| ensures Within(flags[j], b) {
      assert flags[j] in others;
      var k :| 0 <= k < |others| && others[k] == flags[j];
    }
    WieldUnionLeast(flags, b);
  }

  /** The word depends only on which flags were passed: not on order, not on repeats. */
  lemma WieldUnionOrderFree(flags: seq<bv32>, others: seq<bv32>)
    requires forall f :: f in flags <==> f in others
    ensures WieldUnion(flags) == WieldUnion(others)
  {
    WieldUnionCoversAll(flags, others);
    WieldUnionCoversAll(others, flags);
    SameBits(WieldUnion(flags), WieldUnion(others));
  }

  /** Passing the same flag again leaves the word as it was. */
  lemma WieldUnionRepeat(flags: seq<bv32>, f: bv32)
    ensures WieldUnion(flags + [f, f]) == WieldUnion(flags + [f])
  {
    WieldUnionOrderFree(flags + [f, f], flags + [f]);
  }

  /** Passing more flags never clears a bit already set. */
  lemma WieldUnionGrows(flags: seq<bv32>, more: seq<bv32>)
    ensures Within(WieldUnion(flags), WieldUnion(flags + more))
  {
    var all := flags + more;
    WieldUnionCovers(all);
    assert forall j :: 0 <= j < |flags| ==> flags[j] == all[j];
    WieldUnionLeast(flags, WieldUnion(all));
  }

  /** Narrowing an `int32` to a `uint16` map key, as C++ does: modulo 2^16. */
  function ToUint16(v: int32): (r: uint16)
    ensures 0 <= v < 0x1_0000 ==> r == v
    ensures (r - v) % 0x1_0000 == 0
  {
    v % 0x1_0000
  }

  /** The vocation map after `addVocEquipMap` for a vocation whose lookup gave `vocationId`. */
  function AddVocation(m: map<uint16, bool>, vocationId: int32): (r: map<uint16, bool>)
    ensures vocationId == -1 ==> r == m
    ensures vocationId != -1 ==> r.Keys == m.Keys + {ToUint16(vocationId)} && r[ToUint16(vocationId)]
    ensures forall k :: k in m && (vocationId == -1 || k != ToUint16(vocationId)) ==> k in r && r[k] == m[k]
  {
    if vocationId != -1 then m[ToUint16(vocationId) := true] else m
  }

  /** Adding vocations gives the same map in either order. */
  lemma AddVocationCommutes(m: map<uint16, bool>, a: int32, b: int32)
    ensures AddVocation(AddVocation(m, a), b) == AddVocation(AddVocation(m, b), a)
  {
  }

  /**
   * `MoveEvent`: the keys a handler is registered under, its equip requirements
   * and its trigger. `wieldLog` records every flag passed to `SetWieldInfo`.
   */
  class MoveEvent {
    var slot: uint32
    var eventType: MoveEventType
    var reqLevel: uint32
    var reqMagLevel: uint32
    var premium: bool
    var vocationString: string
    var wieldInfo: bv32
    var vocEquipMap: map<uint16, bool>
    var tileItem: bool
    var itemIdVector: seq<uint32>
    var actionIdVector: seq<uint32>
    var uniqueIdVector: seq<uint32>
    var positionVector: seq<Position>
    ghost var wieldLog: seq<bv32>

    ghost predicate Valid()
      reads this
    {
      wieldInfo == WieldUnion(wieldLog)
    }

    constructor ()
      ensures Valid() && wieldLog == []
      ensures GetSlot() == SLOTP_WHEREEVER && eventType == NoEvent
      ensures GetRequiredLevel() == 0 && GetRequiredMagLevel() == 0 && !NeedPremium()
      ensures GetWieldInfo() == 0 && GetVocEquipMap() == map[] && !GetTileItem()
      ensures GetVocationString() == ""
      ensures GetItemIdsVector() == [] && GetActionIdsVector() == []
      ensures GetUniqueIdsVector() == [] && GetPositionsVector() == []
    {
      slot := SLOTP_WHEREEVER;
      eventType := NoEvent;
      reqLevel, reqMagLevel, premium := 0, 0, false;
      vocationString := "";
      wieldInfo, wieldLog := 0, [];
      vocEquipMap := map[];
      tileItem := false;
      itemIdVector, actionIdVector, uniqueIdVector, positionVector := [], [], [], [];
    }

    function GetSlot(): uint32 reads this { slot }
    function GetRequiredLevel(): uint32 reads this { reqLevel }
    function GetRequiredMagLevel(): uint32 reads this { reqMagLevel }
    function NeedPremium(): bool reads this { premium }
    function GetVocationString(): string reads this { vocationString }
    function GetWieldInfo(): bv32 reads this { wieldInfo }
    function GetVocEquipMap(): map<uint16, bool> reads this { vocEquipMap }
    function GetTileItem(): bool reads this { tileItem }
    function GetItemIdsVector(): seq<uint32> reads this { itemIdVector }
    function GetActionIdsVector(): seq<uint32> reads this { actionIdVector }
    function GetUniqueIdsVector(): seq<uint32> reads this { uniqueIdVector }
    function GetPositionsVector(): seq<Position> reads this { positionVector }

    method SetSlot(s: uint32)
      modifies this`slot
      ensures GetSlot() == s
    {
      slot := s;
    }

    method SetRequiredLevel(level: uint32)
      modifies this`reqLevel
      ensures GetRequiredLevel() == level
    {
      reqLevel := level;
    }

    method SetRequiredMagLevel(level: uint32)
      modifies this`reqMagLevel
      ensures GetRequiredMagLevel() == level
    {
      reqMagLevel := level;
    }

    method SetNeedPremium(b: bool)
      modifies this`premium
      ensures NeedPremium() == b
    {
      premium := b;
    }

    method SetVocationString(str: string)
      modifies this`vocationString
      ensures GetVocationString() == str
    {
      vocationString := str;
    }

    method SetTileItem(b: bool)
      modifies this`tileItem
      ensures GetTileItem() == b
    {
      tileItem := b;
    }

    method SetItemId(id: uint32)
      modifies this`itemIdVector
      ensures GetItemIdsVector() == old(GetItemIdsVector()) + [id]
    {
      itemIdVector := itemIdVector + [id];
    }

    method SetActionId(id: uint32)
      modifies this`actionIdVector
      ensures GetActionIdsVector() == old(GetActionIdsVector()) + [id]
    {
      actionIdVector := actionIdVector + [id];
    }

    method SetUniqueId(id: uint32)
      modifies this`uniqueIdVector
      ensures GetUniqueIdsVector() == old(GetUniqueIdsVector()) + [id]
    {
      uniqueIdVector := uniqueIdVector + [id];
    }

    method SetPosition(pos: Position)
      modifies this`positionVector
      ensures GetPositionsVector() == old(GetPositionsVector()) + [pos]
    {
      positionVector := positionVector + [pos];
    }

    /** ORs `info` into the word; the word stays the union of every flag passed so far. */
    method SetWieldInfo(info: bv32)
      requires Valid()
      modifies this`wieldInfo, this`wieldLog
      ensures Valid() && wieldLog == old(wieldLog) + [info]
      ensures wieldInfo == old(wieldInfo) | info
      ensures Within(old(wieldInfo), wieldInfo)
    {
      WieldStepFacts(wieldInfo, wieldLog, info);
      wieldInfo, wieldLog := wieldInfo | info, wieldLog + [info];
    }

    /**
     * Looks the vocation up by name and marks it allowed, unless the lookup
     * returned the not-found sentinel -1.
     */
    method AddVocEquipMap(vocName: string, getVocationId: string -> int32)
      modifies this`vocEquipMap
      ensures GetVocEquipMap() == AddVocation(old(GetVocEquipMap()), getVocationId(vocName))
    {
      var vocationId := getVocationId(vocName);
      if vocationId != -1 {
        vocEquipMap := vocEquipMap[ToUint16(vocationId) := true];
      }
    }
  }
}
