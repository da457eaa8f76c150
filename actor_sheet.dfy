/**
 * The player sheet's own rules: the level reached by an experience total,
 * the split of the actor's items into gear and skills, and the data of an
 * item created from a sheet button.
 */
module ActorSheet {
  import opened Wrappers
  import opened Strings

  // ---------------------------------------------------------------------
  // Experience and level
  // ---------------------------------------------------------------------

  /**
   * Experience levels 1 .. lvl-1 cost together: 10 + 20 + ... + 10*(lvl-1),
   * which is 5 * lvl * (lvl - 1).
   */
  function LevelCost(lvl: nat): (r: nat)
    ensures r == 5 * lvl * (lvl - 1)
    decreases lvl
  {
    if lvl <= 1 then 0 else LevelCost(lvl - 1) + 10 * (lvl - 1)
  }

  /** Reaching a higher level never costs less. */
  lemma {:induction false} LevelCostMonotone(a: nat, b: nat)
    requires 1 <= a <= b
    ensures LevelCost(a) <= LevelCost(b)
    decreases b - a
  {
    if a < b {
      LevelCostMonotone(a, b - 1);
    }
  }

  /**
   * `lvl` is the level an experience total of `value` earns: at least 1,
   * below the cost of the next level, and (above level 1) paid for.
   */
  predicate IsLevelFor(value: int, lvl: nat) {
    && lvl >= 1
    && value < LevelCost(lvl + 1)
    && (lvl == 1 || LevelCost(lvl) <= value)
  }

  /** Each experience total earns exactly one level. */
  lemma LevelUnique(value: int, l1: nat, l2: nat)
    requires IsLevelFor(value, l1) && IsLevelFor(value, l2)
    ensures l1 == l2
  {
    if l1 < l2 {
      LevelCostMonotone(l1 + 1, l2);
    } else if l2 < l1 {
      LevelCostMonotone(l2 + 1, l1);
    }
  }

  /** A larger experience total never earns a lower level. */
  lemma LevelMonotone(v1: int, v2: int, l1: nat, l2: nat)
    requires v1 <= v2 && IsLevelFor(v1, l1) && IsLevelFor(v2, l2)
    ensures l1 <= l2
  {
    if l2 < l1 {
      LevelCostMonotone(l2 + 1, l1);
    }
  }

  /**
   * The change handler of the experience field: level 1 costs nothing,
   * and while the remaining experience pays for the next level it is spent.
   * `remaining` is the total experience the next level needs.
   */
  method LevelFromExperience(value: int) returns (lvl: nat, xp: int, remaining: int)
    ensures IsLevelFor(value, lvl)
    ensures value - xp == 5 * lvl * (lvl - 1)
    ensures xp < 10 * lvl
    ensures value >= 0 ==> 0 <= xp
    ensures remaining == 5 * lvl * (lvl + 1)
  {
    lvl := 1;
    xp := value;
    while xp >= lvl * 10
      invariant lvl >= 1
      invariant value - xp == LevelCost(lvl)
      invariant (value >= 0 || lvl > 1) ==> 0 <= xp
      decreases xp
    {
      xp := xp - lvl * 10;
      lvl := lvl + 1;
    }
    remaining := value - xp + lvl * 10;
    assert LevelCost(lvl + 1) == LevelCost(lvl) + 10 * lvl;
  }

  // ---------------------------------------------------------------------
  // Items shown on the sheet
  // ---------------------------------------------------------------------

  /** An item as the sheet context lists it; an empty `img` is a missing one. */
  datatype SheetItem = SheetItem(id: string, kind: string, name: string, img: string)

  /** The item with the host's default icon when it has none. */
  function WithIcon(item: SheetItem, defaultIcon: string): (r: SheetItem)
    ensures r.img == (if item.img == "" then defaultIcon else item.img)
    ensures r.id == item.id && r.kind == item.kind && r.name == item.name
  {
    if item.img == "" then item.(img := defaultIcon) else item
  }

  /** The items of kind `kind`, in their original order. */
  function OfKind(items: seq<SheetItem>, kind: string): (r: seq<SheetItem>)
    ensures |r| <= |items|
    ensures forall x :: x in r <==> x in items && x.kind == kind
    decreases |items|
  {
    if items == [] then []
    else
      var last := items[|items| - 1];
      assert items == items[..|items| - 1] + [last];
      OfKind(items[..|items| - 1], kind) + (if last.kind == kind then [last] else [])
  }

  /** Filtering by kind keeps the relative order: it distributes over concatenation. */
  lemma {:induction false} OfKindAppend(a: seq<SheetItem>, b: seq<SheetItem>, kind: string)
    ensures OfKind(a + b, kind) == OfKind(a, kind) + OfKind(b, kind)
    decreases |b|
  {
    if b != [] {
      var init := b[..|b| - 1];
      assert (a + b)[..|a + b| - 1] == a + init;
      OfKindAppend(a, init, kind);
    } else {
      assert a + b == a;
    }
  }

  /** No item is both gear and a skill. */
  lemma GearAndSkillsDisjoint(items: seq<SheetItem>)
    ensures forall x :: x in OfKind(items, "item") ==> x !in OfKind(items, "skill")
  {
  }

  /**
   * `_prepareItems`: every item gets the default icon if it has none (in
   * place), then items of kind "item" go to `gear` and kind "skill" to
   * `skills`.
   */
  method PrepareItems(items: array<SheetItem>, defaultIcon: string)
    returns (gear: seq<SheetItem>, skills: seq<SheetItem>)
    modifies items
    ensures forall k :: 0 <= k < items.Length ==> items[k] == WithIcon(old(items[k]), defaultIcon)
    ensures gear == OfKind(items[..], "item")
    ensures skills == OfKind(items[..], "skill")
  {
    gear, skills := [], [];
    for i := 0 to items.Length
      invariant forall k :: 0 <= k < i ==> items[k] == WithIcon(old(items[k]), defaultIcon)
      invariant forall k :: i <= k < items.Length ==> items[k] == old(items[k])
      invariant gear == OfKind(items[..i], "item")
      invariant skills == OfKind(items[..i], "skill")
    {
      items[i] := WithIcon(items[i], defaultIcon);
      assert items[..i + 1][..i] == items[..i];
      if items[i].kind == "item" {
        gear := gear + [items[i]];
      } else if items[i].kind == "skill" {
        skills := skills + [items[i]];
      }
    }
    assert items[..items.Length] == items[..];
  }

  // ---------------------------------------------------------------------
  // Creating an item from the sheet
  // ---------------------------------------------------------------------

  /** The data handed to the host to create an item. */
  datatype NewItem = NewItem(name: string, kind: string, system: map<string, string>)

  /**
   * `_onItemCreate`: the button's data set names the type; the item is
   * called "New <Type>" and keeps every other data entry as its system
   * data.  Without a type the handler fails (`None`).
   */
  function NewItemData(dataset: map<string, string>): (r: Option<NewItem>)
    ensures r.Some? <==> "type" in dataset
    ensures r.Some? ==> r.value.kind == dataset["type"]
                        && r.value.name == "New " + Capitalize(dataset["type"])
    ensures r.Some? ==> && r.value.system.Keys == dataset.Keys - {"type"}
                        && forall k :: k in r.value.system ==> r.value.system[k] == dataset[k]
  {
    if "type" !in dataset then None
    else
      var kind := dataset["type"];
      Some(NewItem("New " + Capitalize(kind), kind, dataset - {"type"}))
  }
}
