/**
 * The equipment window: which slots an item can go into, what each slot
 * currently holds, and how equipping and unequipping change the actor's
 * slot -> item-id map.  An empty id marks an empty slot.
 */
module Equipment {
  import opened Wrappers

  /** The slots that hold one item each. */
  const SingleSlots: set<string> := {"head", "body", "otherArmor", "accessory", "rightHand", "leftHand"}

  /** The slot's item id; a slot that was never set reads as empty. */
  function SlotValue(equipment: map<string, string>, key: string): string {
    if key in equipment then equipment[key] else ""
  }

  /**
   * The item shown in a slot: none for an empty slot, and none when the
   * id names no item the actor owns.
   */
  function CurrentIn(equipment: map<string, string>, owned: set<string>, key: string): (r: Option<string>)
    ensures r.Some? <==> SlotValue(equipment, key) != "" && SlotValue(equipment, key) in owned
    ensures r.Some? ==> r.value == SlotValue(equipment, key)
  {
    var id := SlotValue(equipment, key);
    if id != "" && id in owned then Some(id) else None
  }

  /** What a slot offers: a single slot shows at most one item, both hands a list. */
  datatype Current = One(held: Option<string>) | Hands(heldIds: seq<string>)

  datatype SlotOffer = SlotOffer(key: string, title: string, current: Current)

  function SingleOffer(equipment: map<string, string>, owned: set<string>, key: string, title: string): SlotOffer {
    SlotOffer(key, title, One(CurrentIn(equipment, owned, key)))
  }

  /** The items in the right and then the left hand, without the empty hands. */
  function HandItems(equipment: map<string, string>, owned: set<string>): (r: seq<string>)
    ensures |r| <= 2
    ensures forall x :: x in r ==> x != "" && x in owned
    ensures |r| == (if CurrentIn(equipment, owned, "rightHand").Some? then 1 else 0)
                   + (if CurrentIn(equipment, owned, "leftHand").Some? then 1 else 0)
    ensures CurrentIn(equipment, owned, "rightHand").Some? ==> r[0] == SlotValue(equipment, "rightHand")
    ensures CurrentIn(equipment, owned, "leftHand").Some? ==> r[|r| - 1] == SlotValue(equipment, "leftHand")
  {
    var right := CurrentIn(equipment, owned, "rightHand");
    var left := CurrentIn(equipment, owned, "leftHand");
    (if right.Some? then [right.value] else []) + (if left.Some? then [left.value] else [])
  }

  /** `getData`: the slots an item with this `equipSlot` may be put into. */
  function SlotsFor(equipSlot: string, equipment: map<string, string>, owned: set<string>): (r: seq<SlotOffer>)
    ensures |r| <= 2
    ensures forall o :: o in r && o.current.One? ==> o.current.held == CurrentIn(equipment, owned, o.key)
    ensures forall o :: o in r && o.current.Hands? ==> o.current.heldIds == HandItems(equipment, owned)
  {
    match equipSlot
    case "head" => [SingleOffer(equipment, owned, "head", "Head")]
    case "body" => [SingleOffer(equipment, owned, "body", "Body")]
    case "support-armor" => [SingleOffer(equipment, owned, "otherArmor", "Support Armor")]
    case "one" => [SingleOffer(equipment, owned, "rightHand", "Right Hand"),
                   SingleOffer(equipment, owned, "leftHand", "Left Hand")]
    case "dual" => [SlotOffer("bothHands", "Both Hands", Hands(HandItems(equipment, owned)))]
    case "both" => [SlotOffer("bothHands", "Both Hands", Hands(HandItems(equipment, owned)))]
    case "accessory" => [SingleOffer(equipment, owned, "accessory", "Accessory")]
    case _ => []
  }

  /** The keys of the offered slots, in order. */
  function OfferedKeys(offers: seq<SlotOffer>): (r: seq<string>)
    ensures |r| == |offers|
    ensures forall i :: 0 <= i < |offers| ==> r[i] == offers[i].key
  {
    seq(|offers|, i requires 0 <= i < |offers| => offers[i].key)
  }

  /** Which slots each kind of equipment is offered. */
  lemma SlotsForKeys(equipSlot: string, equipment: map<string, string>, owned: set<string>)
    ensures var keys := OfferedKeys(SlotsFor(equipSlot, equipment, owned));
            && (equipSlot == "head" ==> keys == ["head"])
            && (equipSlot == "body" ==> keys == ["body"])
            && (equipSlot == "support-armor" ==> keys == ["otherArmor"])
            && (equipSlot == "one" ==> keys == ["rightHand", "leftHand"])
            && (equipSlot == "dual" || equipSlot == "both" ==> keys == ["bothHands"])
            && (equipSlot == "accessory" ==> keys == ["accessory"])
            && (equipSlot !in {"head", "body", "support-armor", "one", "dual", "both", "accessory"} ==> keys == [])
  {
  }

  /** Every offered slot is one the equip handler accepts. */
  lemma OfferedSlotsAccepted(equipSlot: string, equipment: map<string, string>, owned: set<string>)
    ensures forall o :: o in SlotsFor(equipSlot, equipment, owned) ==>
              o.key in SingleSlots || o.key == "bothHands"
  {
  }

  /**
   * The equip handler's change to the map: a single slot gets the item,
   * "bothHands" puts it in both hands, and no slot or any other name
   * changes nothing.
   */
  function EquipInto(equipment: map<string, string>, slot: Option<string>, itemId: string): (r: map<string, string>)
    ensures equipment.Keys <= r.Keys
    ensures r.Keys <= equipment.Keys + {"rightHand", "leftHand"} + (if slot.Some? then {slot.value} else {})
    ensures forall k :: k != "rightHand" && k != "leftHand" && (slot.None? || k != slot.value)
              ==> SlotValue(r, k) == SlotValue(equipment, k)
    ensures forall k :: k in r.Keys - equipment.Keys ==> r[k] == itemId
  {
    match slot
    case None => equipment
    case Some(s) =>
      if s == "" then equipment
      else if s in SingleSlots then equipment[s := itemId]
      else if s == "bothHands" then equipment["rightHand" := itemId]["leftHand" := itemId]
      else equipment
  }

  /** The unequip handler's change: "bothHands" empties both hands, any other name that slot. */
  function UnequipFrom(equipment: map<string, string>, slot: string): (r: map<string, string>)
    ensures equipment.Keys <= r.Keys
    ensures r.Keys <= equipment.Keys + {"rightHand", "leftHand", slot}
    ensures forall k :: k != "rightHand" && k != "leftHand" && k != slot
              ==> SlotValue(r, k) == SlotValue(equipment, k)
    ensures forall k :: k in r.Keys && SlotValue(r, k) != SlotValue(equipment, k) ==> r[k] == ""
  {
    if slot == "bothHands" then equipment["rightHand" := ""]["leftHand" := ""]
    else equipment[slot := ""]
  }

  /** Equipping into a single slot puts the item there and touches no other slot. */
  lemma EquipSingle(equipment: map<string, string>, slot: string, itemId: string)
    requires slot in SingleSlots
    ensures var r := EquipInto(equipment, Some(slot), itemId);
            && SlotValue(r, slot) == itemId
            && r.Keys == equipment.Keys + {slot}
            && forall k :: k != slot ==> SlotValue(r, k) == SlotValue(equipment, k)
  {
  }

  /** Equipping into both hands fills the right and the left hand and nothing else. */
  lemma EquipBothHands(equipment: map<string, string>, itemId: string)
    ensures var r := EquipInto(equipment, Some("bothHands"), itemId);
            && SlotValue(r, "rightHand") == itemId && SlotValue(r, "leftHand") == itemId
            && r.Keys == equipment.Keys + {"rightHand", "leftHand"}
            && forall k :: k != "rightHand" && k != "leftHand" ==> SlotValue(r, k) == SlotValue(equipment, k)
  {
  }

  /** Without a selected slot, or with one the handler does not know, nothing changes. */
  lemma EquipUnknownSlot(equipment: map<string, string>, slot: Option<string>, itemId: string)
    requires slot.None? || slot.value == "" || (slot.value !in SingleSlots && slot.value != "bothHands")
    ensures EquipInto(equipment, slot, itemId) == equipment
  {
  }

  /** Unequipping empties exactly the slots it names. */
  lemma UnequipClears(equipment: map<string, string>, slot: string)
    ensures var r := UnequipFrom(equipment, slot);
            var cleared := if slot == "bothHands" then {"rightHand", "leftHand"} else {slot};
            && r.Keys == equipment.Keys + cleared
            && (forall k :: k in cleared ==> SlotValue(r, k) == "")
            && (forall k :: k !in cleared ==> SlotValue(r, k) == SlotValue(equipment, k))
  {
  }

  /** Unequipping the slot just equipped empties what the equip filled and keeps the rest. */
  lemma UnequipUndoesEquip(equipment: map<string, string>, slot: string, itemId: string)
    requires slot in SingleSlots || slot == "bothHands"
    ensures var r := UnequipFrom(EquipInto(equipment, Some(slot), itemId), slot);
            var filled := if slot == "bothHands" then {"rightHand", "leftHand"} else {slot};
            && (forall k :: k in filled ==> SlotValue(r, k) == "")
            && (forall k :: k !in filled ==> SlotValue(r, k) == SlotValue(equipment, k))
  {
    UnequipClears(EquipInto(equipment, Some(slot), itemId), slot);
    if slot == "bothHands" {
      EquipBothHands(equipment, itemId);
    } else {
      EquipSingle(equipment, slot, itemId);
    }
  }

  /**
   * After an owned item is equipped into an offered single slot, the slot
   * offer shows that item.
   */
  lemma EquippedItemIsShown(equipSlot: string, equipment: map<string, string>, owned: set<string>, i: nat, itemId: string)
    requires i < |SlotsFor(equipSlot, equipment, owned)|
    requires itemId != "" && itemId in owned
    ensures var key := SlotsFor(equipSlot, equipment, owned)[i].key;
            var after := SlotsFor(equipSlot, EquipInto(equipment, Some(key), itemId), owned)[i];
            after.key == key
            && after.current == (if key == "bothHands" then Hands([itemId, itemId]) else One(Some(itemId)))
  {
    var key := SlotsFor(equipSlot, equipment, owned)[i].key;
    var eq' := EquipInto(equipment, Some(key), itemId);
    SlotsForKeys(equipSlot, equipment, owned);
    SlotsForKeys(equipSlot, eq', owned);
    OfferedSlotsAccepted(equipSlot, equipment, owned);
    assert SlotsFor(equipSlot, equipment, owned)[i] in SlotsFor(equipSlot, equipment, owned);
    if key == "bothHands" {
      EquipBothHands(equipment, itemId);
      assert HandItems(eq', owned) == [itemId, itemId];
    } else {
      EquipSingle(equipment, key, itemId);
      assert CurrentIn(eq', owned, key) == Some(itemId);
    }
  }

  /** The window opened for one item of an actor. */
  class EquipmentMenu {
    /** The actor's slot -> item-id map. */
    var equipment: map<string, string>
    var selectedSlot: Option<string>
    /** Cleared when a confirmed equip closes the window. */
    var isOpen: bool
    const itemId: string

    constructor(equipment: map<string, string>, itemId: string)
      ensures this.equipment == equipment && this.itemId == itemId
      ensures selectedSlot == None && isOpen
    {
      this.equipment := equipment;
      this.itemId := itemId;
      selectedSlot := None;
      isOpen := true;
    }

    /** Choosing a slot only records it. */
    method SelectSlot(slot: Option<string>)
      modifies this`selectedSlot
      ensures selectedSlot == slot
    {
      selectedSlot := slot;
    }

    /**
     * Confirming: without a chosen slot the handler returns at once;
     * otherwise the map is updated as `EquipInto` says and the window closes.
     */
    method Equip()
      modifies this`equipment, this`isOpen
      ensures equipment == EquipInto(old(equipment), selectedSlot, itemId)
      ensures isOpen == (old(isOpen) && (selectedSlot.None? || selectedSlot.value == ""))
    {
      if selectedSlot.None? || selectedSlot.value == "" {
        return;
      }
      var slot := selectedSlot.value;
      if slot in SingleSlots {
        equipment := equipment[slot := itemId];
      } else if slot == "bothHands" {
        equipment := equipment["rightHand" := itemId];
        equipment := equipment["leftHand" := itemId];
      }
      isOpen := false;
    }

    /** Emptying a slot (or both hands). */
    method Unequip(slot: string)
      modifies this`equipment
      ensures equipment == UnequipFrom(old(equipment), slot)
    {
      if slot == "bothHands" {
        equipment := equipment["rightHand" := ""];
        equipment := equipment["leftHand" := ""];
      } else {
        equipment := equipment[slot := ""];
      }
    }
  }
}
