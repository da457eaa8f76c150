/**
 * The system's entry file: template helpers on strings and arrays, the
 * rule that an actor has at most one race and one class item, and the
 * initiative hooks that seed a combatant's initiative from its actor's
 * action points.
 */
module Konosuba {
  import opened Wrappers
  import opened Strings
  import ActorDocument

  // ---------------------------------------------------------------------
  // Template helpers
  // ---------------------------------------------------------------------

  /** A lower-case letter directly followed by an upper-case one at `i`. */
  predicate WordBoundary(s: string, i: int) {
    0 <= i && i + 1 < |s| && IsLower(s[i]) && IsUpper(s[i + 1])
  }

  /**
   * `replace(/([a-z])([A-Z])/g, "$1 $2")`: a left-to-right scan; at each
   * match both letters are copied with a space between, and the scan
   * resumes after the match.
   */
  function InsertSpaces(s: string): (r: string)
    ensures |s| <= |r| <= |s| + |s| / 2
    ensures forall c :: c in r ==> c in s || c == ' '
    ensures s != [] ==> r[0] == s[0]
    decreases |s|
  {
    if s == [] then []
    else if WordBoundary(s, 0) then [s[0], ' ', s[1]] + InsertSpaces(s[2..])
    else [s[0]] + InsertSpaces(s[1..])
  }

  /** The same text described position by position: a space after every boundary. */
  function SpacedAtBoundaries(s: string): string
    decreases |s|
  {
    if s == [] then []
    else [s[0]] + (if WordBoundary(s, 0) then " " else "") + SpacedAtBoundaries(s[1..])
  }

  /** The scan inserts a space at exactly the word boundaries. */
  lemma {:induction false} InsertSpacesAtBoundaries(s: string)
    ensures InsertSpaces(s) == SpacedAtBoundaries(s)
    decreases |s|
  {
    if s != [] {
      if WordBoundary(s, 0) {
        var t := s[1..];
        assert t[0] == s[1] && !IsLower(t[0]) && !WordBoundary(t, 0);
        assert t[1..] == s[2..];
        InsertSpacesAtBoundaries(s[2..]);
        assert SpacedAtBoundaries(t) == [s[1]] + SpacedAtBoundaries(s[2..]);
      } else {
        InsertSpacesAtBoundaries(s[1..]);
      }
    }
  }

  /** The text without its spaces. */
  function RemoveSpaces(s: string): (r: string)
    ensures |r| <= |s|
    ensures forall c :: c in r <==> c in s && c != ' '
    decreases |s|
  {
    if s == [] then []
    else
      assert forall c :: c in s <==> c == s[0] || c in s[1..];
      (if s[0] == ' ' then [] else [s[0]]) + RemoveSpaces(s[1..])
  }

  /** Deleting spaces keeps the order of what stays: it distributes over concatenation. */
  lemma {:induction false} RemoveSpacesAppend(a: string, b: string)
    ensures RemoveSpaces(a + b) == RemoveSpaces(a) + RemoveSpaces(b)
    decreases |a|
  {
    if a == [] {
      assert a + b == b;
    } else {
      assert a + b == [a[0]] + (a[1..] + b);
      RemoveSpacesCons(a[0], a[1..] + b);
      RemoveSpacesAppend(a[1..], b);
      assert a == [a[0]] + a[1..];
      RemoveSpacesCons(a[0], a[1..]);
    }
  }

  lemma RemoveSpacesCons(c: char, t: string)
    ensures RemoveSpaces([c] + t) == (if c == ' ' then [] else [c]) + RemoveSpaces(t)
  {
    assert ([c] + t)[1..] == t;
  }

  /** Only spaces are inserted. */
  lemma {:induction false} InsertSpacesOnlySpaces(s: string)
    ensures RemoveSpaces(InsertSpaces(s)) == RemoveSpaces(s)
    decreases |s|
  {
    if s != [] {
      if WordBoundary(s, 0) {
        InsertSpacesOnlySpaces(s[2..]);
        var rest := InsertSpaces(s[2..]);
        assert [s[0], ' ', s[1]] + rest == [s[0]] + ([' '] + ([s[1]] + rest));
        RemoveSpacesCons(s[0], [' '] + ([s[1]] + rest));
        RemoveSpacesCons(' ', [s[1]] + rest);
        RemoveSpacesCons(s[1], rest);
        assert s[1..] == [s[1]] + s[2..];
        RemoveSpacesCons(s[1], s[2..]);
      } else {
        InsertSpacesOnlySpaces(s[1..]);
        RemoveSpacesCons(s[0], InsertSpaces(s[1..]));
      }
    }
  }

  /**
   * The `camelToTitle` helper; its `replace(/^./, ...)` is `Capitalize`.
   * The title starts with the capitalised first letter and is longer only
   * by the spaces put in.
   */
  function CamelToTitle(s: string): (r: string)
    ensures |s| <= |r| <= |s| + |s| / 2
    ensures s != [] ==> r[0] == UpperChar(s[0])
    ensures forall i :: 1 <= i < |r| ==> r[i] == ' ' || r[i] in s
  {
    var t := InsertSpaces(s);
    assert forall i :: 1 <= i < |t| ==> t[i] in t;
    Capitalize(t)
  }

  /** The text after its first character, spaces deleted, is what the first character is dropped from. */
  lemma {:induction false} InsertSpacesTail(s: string)
    requires s != []
    ensures InsertSpaces(s)[0] == s[0]
    ensures RemoveSpaces(InsertSpaces(s)[1..]) == RemoveSpaces(s[1..])
  {
    var t := InsertSpaces(s);
    if WordBoundary(s, 0) {
      var rest := InsertSpaces(s[2..]);
      assert t[1..] == [' '] + ([s[1]] + rest);
      RemoveSpacesCons(' ', [s[1]] + rest);
      RemoveSpacesCons(s[1], rest);
      InsertSpacesOnlySpaces(s[2..]);
      assert s[1..] == [s[1]] + s[2..];
      RemoveSpacesCons(s[1], s[2..]);
    } else {
      assert t[1..] == InsertSpaces(s[1..]);
      InsertSpacesOnlySpaces(s[1..]);
    }
  }

  /** Deleting the spaces from a title gives the input, spaces deleted, with its first letter upper-cased. */
  lemma CamelToTitleWithoutSpaces(s: string)
    ensures RemoveSpaces(CamelToTitle(s)) == RemoveSpaces(Capitalize(s))
  {
    if s != [] {
      var t := InsertSpaces(s);
      InsertSpacesTail(s);
      var c := UpperChar(s[0]);
      assert Capitalize(t) == [c] + t[1..];
      assert Capitalize(s) == [c] + s[1..];
      RemoveSpacesCons(c, t[1..]);
      RemoveSpacesCons(c, s[1..]);
    }
  }

  /** For a camel-case name (no spaces) the title without its spaces is the name with a capital. */
  lemma CamelToTitleOfIdentifier(s: string)
    requires ' ' !in s
    ensures RemoveSpaces(CamelToTitle(s)) == Capitalize(s)
  {
    CamelToTitleWithoutSpaces(s);
    NoSpacesKept(Capitalize(s));
  }

  lemma {:induction false} NoSpacesKept(s: string)
    requires ' ' !in s
    ensures RemoveSpaces(s) == s
    decreases |s|
  {
    if s != [] {
      assert s[0] in s;
      assert forall c :: c in s[1..] ==> c in s;
      NoSpacesKept(s[1..]);
    }
  }

  /** The `includes` helper: substring test after lower-casing both sides. */
  function IncludesIgnoringCase(str: string, search: string): bool {
    Includes(ToLower(str), ToLower(search))
  }

  /** Upper-casing either side does not change the answer. */
  lemma IncludesIgnoresCase(str: string, search: string)
    ensures IncludesIgnoringCase(ToUpper(str), search) == IncludesIgnoringCase(str, search)
    ensures IncludesIgnoringCase(str, ToUpper(search)) == IncludesIgnoringCase(str, search)
  {
    LowerOfUpper(str);
    LowerOfUpper(search);
  }

  /** A value handed to a template helper: an array of strings, or anything else. */
  datatype Value = ArrayValue(elems: seq<string>) | OtherValue

  /** The `contains` helper: membership in an array, and false for anything that is not one. */
  function Contains(v: Value, item: string): (r: bool)
    ensures v.OtherValue? ==> !r
    ensures v.ArrayValue? ==> (r <==> exists k :: 0 <= k < |v.elems| && v.elems[k] == item)
  {
    v.ArrayValue? && item in v.elems
  }

  // ---------------------------------------------------------------------
  // One race and one class per actor
  // ---------------------------------------------------------------------

  datatype OwnedItem = OwnedItem(id: string, kind: string)

  /** The types an actor holds at most one of. */
  predicate IsUniqueKind(kind: string) {
    kind == "race" || kind == "class"
  }

  /** The ids of the actor's other items of the same type as `item`, in order. */
  function SameKindIds(item: OwnedItem, items: seq<OwnedItem>): (r: seq<string>)
    ensures forall x :: x in items && x.kind == item.kind && x.id != item.id ==> x.id in r
    ensures forall id :: id in r ==> id != item.id
    ensures forall id :: id in r ==> exists x :: x in items && x.kind == item.kind && x.id == id
    decreases |items|
  {
    if items == [] then []
    else
      var x := items[0];
      (if x.kind == item.kind && x.id != item.id then [x.id] else []) + SameKindIds(item, items[1..])
  }

  /** The items whose id is not in `ids`, in order. */
  function KeepExcept(items: seq<OwnedItem>, ids: seq<string>): (r: seq<OwnedItem>)
    ensures forall x :: x in r <==> x in items && x.id !in ids
    decreases |items|
  {
    if items == [] then []
    else (if items[0].id in ids then [] else [items[0]]) + KeepExcept(items[1..], ids)
  }

  /**
   * `preCreateItem`: an item created on an actor that is a race (or a
   * class) removes the actor's other races (classes).  The result is the
   * actor's items afterwards, or `None` for an item without an actor.
   */
  function PreCreateItem(item: OwnedItem, actorItems: Option<seq<OwnedItem>>): (r: Option<seq<OwnedItem>>)
    ensures r.Some? <==> actorItems.Some?
  {
    match actorItems
    case None => None
    case Some(items) =>
      if IsUniqueKind(item.kind) then Some(KeepExcept(items, SameKindIds(item, items))) else Some(items)
  }

  /** Ids are unique within an actor's items. */
  predicate UniqueIds(items: seq<OwnedItem>) {
    forall a, b :: 0 <= a < |items| && 0 <= b < |items| && items[a].id == items[b].id ==> a == b
  }

  /** After a race or class is created, no other item of that type is left, and every other item is. */
  lemma PreCreateDeduplicates(item: OwnedItem, items: seq<OwnedItem>)
    requires IsUniqueKind(item.kind) && UniqueIds(items)
    ensures var after := PreCreateItem(item, Some(items)).value;
            forall x :: x in after <==> x in items && (x.kind != item.kind || x.id == item.id)
  {
    var ids := SameKindIds(item, items);
    forall x | x in items && x.kind != item.kind
      ensures x.id !in ids
    {
      var a :| 0 <= a < |items| && items[a] == x;
      forall y | y in items && y.kind == item.kind
        ensures y.id != x.id
      {
        var b :| 0 <= b < |items| && items[b] == y;
        assert a != b;
      }
    }
  }

  /** Items of other types, and items created without an actor, delete nothing. */
  lemma PreCreateOtherKinds(item: OwnedItem, actorItems: Option<seq<OwnedItem>>)
    requires !IsUniqueKind(item.kind) || actorItems.None?
    ensures PreCreateItem(item, actorItems) == actorItems
  {
  }

  // ---------------------------------------------------------------------
  // Initiative
  // ---------------------------------------------------------------------

  /** The linked actor's derived combat snapshot, if it has one. */
  datatype CombatActor = CombatActor(combat: Option<ActorDocument.Combat>)

  datatype Combatant = Combatant(name: string, initiative: Option<int>, actor: Option<CombatActor>)

  /** `actionPoints || 0` from a combat snapshot. */
  function ActionPoints(c: ActorDocument.Combat): int {
    if "actionPoints" in c.attributes then c.attributes["actionPoints"] else 0
  }

  /**
   * A player's initiative seed: while the skills' action-point formulas
   * evaluate, it is the agility score plus the perception score plus what the
   * active skills add, as `calculateStats` stored it.
   */
  lemma InitiativeFromAbilities(abilities: map<string, ActorDocument.Ability>,
                                items: seq<ActorDocument.Item>, charLevel: int)
    requires ActorDocument.HasCombatAbilities(abilities)
    requires ActorDocument.AttributeFormulasDefined(items, "actionPoints", charLevel)
    ensures ActionPoints(ActorDocument.ComputeCombat(abilities, items, charLevel))
            == abilities["agility"].score + abilities["perception"].score
               + ActorDocument.AttributeTotal(items, "actionPoints", charLevel)
  {
    var seed := ActorDocument.SeedCombat(abilities);
    assert seed.attributes["actionPoints"] == abilities["agility"].score + abilities["perception"].score;
    ActorDocument.FoldSkillsAttributes(seed, items, "actionPoints", charLevel);
  }

  /**
   * What the hooks do with one combatant: keep one that has an initiative;
   * stop at one without an actor (the hook returns) or whose actor has no
   * combat snapshot (`setInitiative` throws); otherwise set its initiative.
   */
  datatype Step = Keep | Halt | SetTo(value: int)

  function InitiativeStep(c: Combatant): (r: Step)
    ensures r.Keep? <==> c.initiative.Some?
    ensures r.SetTo? <==> c.initiative.None? && c.actor.Some? && c.actor.value.combat.Some?
    ensures r.SetTo? ==> r.value == ActionPoints(c.actor.value.combat.value)
  {
    if c.initiative.Some? then Keep
    else match c.actor
      case None => Halt
      case Some(a) =>
        match a.combat
        case None => Halt
        case Some(cb) => SetTo(ActionPoints(cb))
  }

  /** `setInitiative` for one newly created combatant (the `createCombatant` hook). */
  function CombatantCreated(c: Combatant): (r: Combatant)
    ensures r.name == c.name && r.actor == c.actor
    ensures c.initiative.Some? || c.actor.None? || c.actor.value.combat.None? ==> r == c
    ensures c.initiative.None? && c.actor.Some? && c.actor.value.combat.Some? ==>
              r.initiative == Some(ActionPoints(c.actor.value.combat.value))
  {
    match InitiativeStep(c)
    case SetTo(v) => c.(initiative := Some(v))
    case _ => c
  }

  /** The `createCombat` hook: combatants in order, up to the first that halts it. */
  function CombatCreated(cs: seq<Combatant>): (r: seq<Combatant>)
    ensures |r| == |cs|
    decreases |cs|
  {
    if cs == [] then []
    else if InitiativeStep(cs[0]).Halt? then cs
    else [CombatantCreated(cs[0])] + CombatCreated(cs[1..])
  }

  /** The index of the combatant that halts the hook, or the length when none does. */
  function HaltIndex(cs: seq<Combatant>): (k: nat)
    ensures k <= |cs|
    ensures forall j :: 0 <= j < k ==> !InitiativeStep(cs[j]).Halt?
    ensures k < |cs| ==> InitiativeStep(cs[k]).Halt?
    decreases |cs|
  {
    if cs == [] || InitiativeStep(cs[0]).Halt? then 0
    else
      var k := HaltIndex(cs[1..]);
      assert forall j :: 1 <= j < k + 1 ==> cs[j] == cs[1..][j - 1];
      k + 1
  }

  /**
   * Before the halting combatant every one without an initiative gets its
   * actor's action points; from it on, and wherever an initiative was set,
   * nothing changes.
   */
  lemma {:induction false} CombatCreatedEffect(cs: seq<Combatant>)
    ensures var r := CombatCreated(cs);
            && (forall j :: 0 <= j < HaltIndex(cs) ==> r[j] == CombatantCreated(cs[j]))
            && (forall j :: HaltIndex(cs) <= j < |cs| ==> r[j] == cs[j])
    decreases |cs|
  {
    if cs != [] && !InitiativeStep(cs[0]).Halt? {
      var tail := cs[1..];
      CombatCreatedEffect(tail);
      var r := CombatCreated(cs);
      var rt := CombatCreated(tail);
      var k := HaltIndex(tail);
      assert r == [CombatantCreated(cs[0])] + rt;
      assert HaltIndex(cs) == k + 1;
      hide CombatCreated, HaltIndex, CombatantCreated;
      forall j | 1 <= j < |cs|
        ensures r[j] == rt[j - 1] && cs[j] == tail[j - 1]
      {
      }
    }
  }

  /** Combatants that already have an initiative are never changed. */
  lemma CombatCreatedKeepsSet(cs: seq<Combatant>)
    ensures forall j :: 0 <= j < |cs| && cs[j].initiative.Some? ==> CombatCreated(cs)[j] == cs[j]
  {
    CombatCreatedEffect(cs);
  }

  /** One step of the hook: a halting combatant ends it, any other is processed and the rest follow. */
  lemma CombatCreatedStep(cs: seq<Combatant>)
    requires cs != []
    ensures InitiativeStep(cs[0]).Halt? ==> CombatCreated(cs) == cs
    ensures !InitiativeStep(cs[0]).Halt? ==> CombatCreated(cs) == [CombatantCreated(cs[0])] + CombatCreated(cs[1..])
    ensures InitiativeStep(cs[0]).Halt? <==> cs[0].initiative.None? && (cs[0].actor.None? || cs[0].actor.value.combat.None?)
    ensures CombatantCreated(cs[0]) == if InitiativeStep(cs[0]).SetTo? then cs[0].(initiative := Some(InitiativeStep(cs[0]).value)) else cs[0]
  {
  }

  /** When the combatant at `i` halts the hook, the list is already the hook's result. */
  lemma HaltKeepsRest(cs: seq<Combatant>, i: nat, target: seq<Combatant>)
    requires i < |cs| && cs[..i] + CombatCreated(cs[i..]) == target
    requires cs[i].initiative.None? && (cs[i].actor.None? || cs[i].actor.value.combat.None?)
    ensures cs == target
  {
    CombatCreatedStep(cs[i..]);
    assert cs[i..][0] == cs[i];
    assert cs[..i] + cs[i..] == cs;
  }

  /** Processing the combatant at `i` moves the boundary of the processed prefix by one. */
  lemma StepAdvances(cs: seq<Combatant>, i: nat, target: seq<Combatant>, after: seq<Combatant>)
    requires i < |cs| && cs[..i] + CombatCreated(cs[i..]) == target
    requires !InitiativeStep(cs[i]).Halt?
    requires after == cs[i := CombatantCreated(cs[i])]
    ensures |after| == |cs| && after[..i + 1] + CombatCreated(after[i + 1..]) == target
  {
    CombatCreatedStep(cs[i..]);
    assert cs[i..][0] == cs[i] && cs[i..][1..] == cs[i + 1..];
    assert after[..i + 1] == cs[..i] + [CombatantCreated(cs[i])];
    assert after[i + 1..] == cs[i + 1..];
  }

  /** A combat's list of combatants, updated one by one. */
  class Encounter {
    var combatants: seq<Combatant>

    constructor(combatants: seq<Combatant>)
      ensures this.combatants == combatants
    {
      this.combatants := combatants;
    }

    /** The `createCombat` hook's loop. */
    method OnCreateCombat()
      modifies this`combatants
      ensures combatants == CombatCreated(old(combatants))
    {
      ghost var target := CombatCreated(combatants);
      var i := 0;
      while i < |combatants|
        invariant 0 <= i <= |combatants|
        invariant combatants[..i] + CombatCreated(combatants[i..]) == target
      {
        var c := combatants[i];
        ghost var before := combatants;
        if c.initiative.None? {
          if c.actor.None? || c.actor.value.combat.None? {
            HaltKeepsRest(before, i, target);
            return;
          }
          combatants := combatants[i := c.(initiative := Some(ActionPoints(c.actor.value.combat.value)))];
        }
        StepAdvances(before, i, target, combatants);
        i := i + 1;
      }
      assert combatants[..i] == combatants && combatants[i..] == [];
    }
  }
}
