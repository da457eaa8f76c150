/**
 * The actor document's derived-stats engine (module/documents/actor.mjs):
 * per-ability bonus, class modifier and skill contributions, then the combat
 * snapshot of checks and combat attributes, both recomputed from the stored
 * base fields on every data preparation pass.
 */
module ActorDocument {
  import opened Wrappers
  import opened Strings
  import opened Arith

  /**
   * An item embedded in an actor, reduced to the fields the system reads.
   * `kind` is the item's `type` ("skill", "class", "race", "item", ...);
   * `modifiers` are a skill's modifier formulas; `classModifiers` are a class
   * item's flat ability modifiers.
   */
  datatype Item = Item(
    id: string,
    kind: string,
    name: string,
    img: string,
    active: bool,
    level: int,
    modifiers: map<string, string>,
    classModifiers: map<string, int>,
    equipSlot: string)

  /** One entry of `system.abilities`: `value` is entered, the rest is derived. */
  datatype Ability = Ability(
    value: int,
    bonus: int,
    classMod: int,
    skills: int,
    skillsDice: int,
    score: int,
    dice: int)

  /** A check: a flat bonus and a number of six-sided dice. */
  datatype Check = Check(flat: int, dice: int)

  /**
   * The `combat` snapshot: the checks (`rollModifiers`: hitCheck, attackPower,
   * dodgeCheck) and the combat attributes (`attributeModifiers`:
   * physicalDefense, magicDefense, actionPoints, movement), by name.
   */
  datatype Combat = Combat(checks: map<string, Check>, attributes: map<string, int>)

  const NoCheck := Check(0, 0)
  const RollKeys: set<string> := {"hitCheck", "attackPower", "dodgeCheck"}
  const AttributeKeys: set<string> := {"physicalDefense", "magicDefense", "actionPoints", "movement"}

  function AddCheck(x: Check, y: Check): Check {
    Check(x.flat + y.flat, x.dice + y.dice)
  }

  function SubCheck(x: Check, y: Check): Check {
    Check(x.flat - y.flat, x.dice - y.dice)
  }

  predicate IsActiveSkill(item: Item) {
    item.kind == "skill" && item.active
  }

  /** `items.find((i) => i.type === kind)`. */
  function FirstOfKind(items: seq<Item>, kind: string): (r: Option<Item>)
    ensures r.Some? ==> r.value in items && r.value.kind == kind
    ensures r.Some? ==> exists i :: 0 <= i < |items| && items[i] == r.value
                                    && forall j :: 0 <= j < i ==> items[j].kind != kind
    ensures r.None? <==> forall i :: 0 <= i < |items| ==> items[i].kind != kind
  {
    if items == [] then None
    else if items[0].kind == kind then Some(items[0])
    else
      var r := FirstOfKind(items[1..], kind);
      if r.Some? then FirstPastHead(items, kind, r.value); r else r
  }

  /** A first match in the tail, behind a head of another kind, is the first match overall. */
  lemma FirstPastHead(items: seq<Item>, kind: string, x: Item)
    requires items != [] && items[0].kind != kind
    requires exists i :: 0 <= i < |items[1..]| && items[1..][i] == x
                         && forall j :: 0 <= j < i ==> items[1..][j].kind != kind
    ensures exists i :: 0 <= i < |items| && items[i] == x
                        && forall j :: 0 <= j < i ==> items[j].kind != kind
  {
    var i :| 0 <= i < |items[1..]| && items[1..][i] == x
             && forall j :: 0 <= j < i ==> items[1..][j].kind != kind;
    assert items[i + 1] == x;
    forall j | 1 <= j < i + 1
      ensures items[j].kind != kind
    {
      assert items[j] == items[1..][j - 1];
    }
  }

  // ---------------------------------------------------------------------
  // Modifier formulas
  // ---------------------------------------------------------------------

  /** `skill.system.modifiers[key] || "0"`. */
  function FormulaOf(skill: Item, key: string): string {
    if key in skill.modifiers && skill.modifiers[key] != "" then skill.modifiers[key] else "0"
  }

  /**
   * Every "SL" becomes the skill level, then every "CL" the character level;
   * neither token is left afterwards.
   */
  function Substitute(formula: string, skillLevel: int, charLevel: int): (r: string)
    ensures !Includes(r, "SL") && !Includes(r, "CL")
  {
    var sl := IntToString(skillLevel);
    var cl := IntToString(charLevel);
    IntToStringChars(skillLevel);
    IntToStringChars(charLevel);
    var once := ReplaceAll(formula, "SL", sl);
    ReplaceAllAvoids(formula, "SL", sl, "SL");
    ReplaceAllAvoids(once, "CL", cl, "SL");
    ReplaceAllAvoids(once, "CL", cl, "CL");
    ReplaceAll(once, "CL", cl)
  }

  lemma SubstituteUnfold(formula: string, skillLevel: int, charLevel: int)
    ensures Substitute(formula, skillLevel, charLevel)
            == ReplaceAll(ReplaceAll(formula, "SL", IntToString(skillLevel)), "CL", IntToString(charLevel))
  {}

  /**
   * `formula.split("d6")` read at indices 0 and 1: the text before the first
   * "d6", and the text between it and the next "d6" (or the end).
   */
  function SplitDice(formula: string): (string, string)
    requires Includes(formula, "d6")
  {
    var i := IndexOf(formula, "d6").value;
    var rest := formula[i + 2..];
    match IndexOf(rest, "d6")
    case None => (formula[..i], rest)
    case Some(j) => (formula[..i], rest[..j])
  }

  /**
   * The dice part is all the text before the first "d6" and the flat part
   * follows that "d6"; neither part contains another "d6".
   */
  lemma SplitDiceParts(formula: string)
    requires Includes(formula, "d6")
    ensures var parts := SplitDice(formula);
            && (exists i :: && OccursAt(formula, "d6", i) && parts.0 == formula[..i]
                            && StartsWith(formula[i + 2..], parts.1)
                            && (parts.1 == formula[i + 2..] || OccursAt(formula[i + 2..], "d6", |parts.1|)))
            && !Includes(parts.0, "d6") && !Includes(parts.1, "d6")
  {
    hide Includes;
    var i := IndexOf(formula, "d6").value;
    var rest := formula[i + 2..];
    NoEarlierOccurrence(formula, "d6", i);
    match IndexOf(rest, "d6")
    case None =>
      assert SplitDice(formula) == (formula[..i], rest);
    case Some(j) =>
      NoEarlierOccurrence(rest, "d6", j);
      assert SplitDice(formula) == (formula[..i], rest[..j]);
      assert StartsWith(rest, rest[..j]);
  }

  /** Text cut before the first occurrence of `t` does not contain `t`. */
  lemma NoEarlierOccurrence(s: string, t: string, i: nat)
    requires |t| > 0 && OccursAt(s, t, i)
    requires forall j :: 0 <= j < i ==> !OccursAt(s, t, j)
    ensures !Includes(s[..i], t)
  {
    hide Includes;
    forall j ensures !OccursAt(s[..i], t, j) {
      if 0 <= j && j + |t| <= i {
        assert s[..i][j..j + |t|] == s[j..j + |t|];
        assert !OccursAt(s, t, j);
      }
    }
  }

  /**
   * The contribution of one substituted formula: with a "d6" the part before
   * it counts dice and the part after it is flat; without one it is all flat.
   * Each part that evaluates to nothing adds 0.
   */
  function TermOf(formula: string): Check {
    if Includes(formula, "d6") then
      var parts := SplitDice(formula);
      Check(OrZero(Eval(parts.1)), OrZero(Eval(parts.0)))
    else
      Check(OrZero(Eval(formula)), 0)
  }

  /** What an active skill's formula for `key` adds (to an ability or a check). */
  function SkillTerm(skill: Item, key: string, charLevel: int): Check {
    TermOf(Substitute(FormulaOf(skill, key), skill.level, charLevel))
  }

  /** `SkillTerm` spelled out, as the imperative loops compute it. */
  lemma SkillTermSteps(skill: Item, key: string, charLevel: int)
    ensures var f := Substitute(FormulaOf(skill, key), skill.level, charLevel);
            SkillTerm(skill, key, charLevel)
            == if Includes(f, "d6")
               then Check(OrZero(Eval(SplitDice(f).1)), OrZero(Eval(SplitDice(f).0)))
               else Check(OrZero(Eval(f)), 0)
  {}

  /** What an item adds for `key`: nothing unless it is an active skill. */
  function Contribution(item: Item, key: string, charLevel: int): (r: Check)
    ensures !IsActiveSkill(item) ==> r == NoCheck
  {
    if IsActiveSkill(item) then SkillTerm(item, key, charLevel) else NoCheck
  }

  /** The `skillsFlat` / `skillsDice` accumulators after folding `items` in order. */
  function SkillsTotal(items: seq<Item>, key: string, charLevel: int): Check
    decreases |items|
  {
    if items == [] then NoCheck
    else AddCheck(SkillsTotal(items[..|items| - 1], key, charLevel),
                  Contribution(items[|items| - 1], key, charLevel))
  }

  /** The active skills of `items`, in order. */
  function ActiveSkills(items: seq<Item>): (r: seq<Item>)
    ensures forall x :: x in r <==> x in items && IsActiveSkill(x)
    decreases |items|
  {
    if items == [] then []
    else
      var init := ActiveSkills(items[..|items| - 1]);
      var last := items[|items| - 1];
      assert forall x :: x in items <==> x in items[..|items| - 1] || x == last;
      if IsActiveSkill(last) then init + [last] else init
  }

  // ---------------------------------------------------------------------
  // Abilities
  // ---------------------------------------------------------------------

  /**
   * The class modifier: the first class item's `modifiers[ability]` when it
   * defines one, otherwise the stored `class` field (0 when it was unset).
   */
  function ClassModFor(items: seq<Item>, ability: string, stored: int): (r: int)
    ensures (FirstOfKind(items, "class").Some? && ability in FirstOfKind(items, "class").value.classModifiers)
            ==> r == FirstOfKind(items, "class").value.classModifiers[ability]
    ensures (FirstOfKind(items, "class").None? || ability !in FirstOfKind(items, "class").value.classModifiers)
            ==> r == stored
  {
    match FirstOfKind(items, "class")
    case Some(c) => if ability in c.classModifiers then c.classModifiers[ability] else stored
    case None => stored
  }

  /** `calculateAbility`: all six derived fields of one ability, from its value and stored class. */
  function DeriveAbility(a: Ability, name: string, items: seq<Item>, charLevel: int): (r: Ability)
    ensures r.value == a.value
    ensures r.classMod == ClassModFor(items, name, a.classMod)
    ensures Check(r.skills, r.skillsDice) == SkillsTotal(ActiveSkills(items), name, charLevel)
    ensures r.score == r.bonus + r.classMod + r.skills
    ensures r.dice == 2 + r.skillsDice
  {
    SkillsTotalIgnoresInactive(items, name, charLevel);
    var bonus := a.value / 3;
    var cm := ClassModFor(items, name, a.classMod);
    var t := SkillsTotal(items, name, charLevel);
    Ability(a.value, bonus, cm, t.flat, t.dice, bonus + cm + t.flat, 2 + t.dice)
  }

  /** The bonus is a third of the value, rounded down (`Math.floor(value / 3)`). */
  lemma DeriveAbilityBonus(a: Ability, name: string, items: seq<Item>, charLevel: int)
    ensures var r := DeriveAbility(a, name, items, charLevel);
            r.bonus * 3 <= a.value < r.bonus * 3 + 3
  {}

  /** The fields of `DeriveAbility`, spelled out for the imperative version. */
  lemma DeriveAbilityFields(a: Ability, name: string, items: seq<Item>, charLevel: int)
    ensures var t := SkillsTotal(items, name, charLevel);
            var cm := ClassModFor(items, name, a.classMod);
            DeriveAbility(a, name, items, charLevel)
            == Ability(a.value, a.value / 3, cm, t.flat, t.dice, a.value / 3 + cm + t.flat, 2 + t.dice)
  {}

  /** Every ability recomputed (the `Object.entries(abilities)` loop). */
  function DeriveAll(abilities: map<string, Ability>, items: seq<Item>, charLevel: int): (r: map<string, Ability>)
    ensures r.Keys == abilities.Keys
  {
    map k | k in abilities :: DeriveAbility(abilities[k], k, items, charLevel)
  }

  // ---------------------------------------------------------------------
  // Combat snapshot
  // ---------------------------------------------------------------------

  /** The abilities `calculateStats` reads by name. */
  predicate HasCombatAbilities(abilities: map<string, Ability>) {
    "dexterity" in abilities && "agility" in abilities
    && "perception" in abilities && "strength" in abilities
  }

  /** `rollModifiers` and `attributeModifiers` before any skill is folded in. */
  function SeedCombat(abilities: map<string, Ability>): (r: Combat)
    requires HasCombatAbilities(abilities)
    ensures r.checks.Keys == RollKeys && r.attributes.Keys == AttributeKeys
  {
    Combat(
      map["hitCheck" := Check(abilities["dexterity"].score, 2),
          "attackPower" := Check(0, 2),
          "dodgeCheck" := Check(abilities["agility"].score, 2)],
      map["physicalDefense" := 0,
          "magicDefense" := 0,
          "actionPoints" := abilities["agility"].score + abilities["perception"].score,
          "movement" := abilities["strength"].score + 5])
  }

  /** A skill's substituted formula for a combat attribute (no "d6" split here). */
  function AttributeFormula(skill: Item, key: string, charLevel: int): string {
    Substitute(FormulaOf(skill, key), skill.level, charLevel)
  }

  /**
   * `((current || 0) + eval(formula)) || 0`: a formula that evaluates to nothing
   * makes the sum `NaN`, which resets the attribute to 0.
   */
  function ApplyAttribute(current: int, formula: string): int {
    match Eval(formula)
    case None => 0
    case Some(v) => current + v
  }

  /** The two `Object.entries(...).forEach` passes for one skill of `calculateStats`. */
  function FoldSkill(c: Combat, skill: Item, charLevel: int): (r: Combat)
    ensures r.checks.Keys == c.checks.Keys && r.attributes.Keys == c.attributes.Keys
  {
    if !IsActiveSkill(skill) then c
    else
      Combat(
        map k | k in c.checks :: AddCheck(c.checks[k], SkillTerm(skill, k, charLevel)),
        map k | k in c.attributes :: ApplyAttribute(c.attributes[k], AttributeFormula(skill, k, charLevel)))
  }

  /** The `skills.forEach` of `calculateStats`, in item order. */
  function FoldSkills(c: Combat, items: seq<Item>, charLevel: int): (r: Combat)
    ensures r.checks.Keys == c.checks.Keys && r.attributes.Keys == c.attributes.Keys
    decreases |items|
  {
    if items == [] then c
    else FoldSkill(FoldSkills(c, items[..|items| - 1], charLevel), items[|items| - 1], charLevel)
  }

  /** `FoldSkill` spelled out, as the imperative loop computes it. */
  lemma FoldSkillSteps(c: Combat, skill: Item, charLevel: int)
    ensures FoldSkill(c, skill, charLevel).checks
            == if IsActiveSkill(skill)
               then map k | k in c.checks :: AddCheck(c.checks[k], SkillTerm(skill, k, charLevel))
               else c.checks
    ensures FoldSkill(c, skill, charLevel).attributes
            == if IsActiveSkill(skill)
               then map k | k in c.attributes :: ApplyAttribute(c.attributes[k], AttributeFormula(skill, k, charLevel))
               else c.attributes
  {}

  /** One unfolding of `SkillsTotal` at the last item. */
  lemma SkillsTotalLast(items: seq<Item>, key: string, charLevel: int)
    requires items != []
    ensures SkillsTotal(items, key, charLevel)
            == AddCheck(SkillsTotal(items[..|items| - 1], key, charLevel),
                        Contribution(items[|items| - 1], key, charLevel))
  {}

  /** One unfolding of `FoldSkills` at the last item. */
  lemma FoldSkillsLast(c: Combat, items: seq<Item>, charLevel: int)
    requires items != []
    ensures FoldSkills(c, items, charLevel)
            == FoldSkill(FoldSkills(c, items[..|items| - 1], charLevel), items[|items| - 1], charLevel)
  {}

  /** The prefix of length `i + 1` ends in `items[i]`. */
  lemma PrefixStep(items: seq<Item>, i: nat)
    requires i < |items|
    ensures items[..i + 1] != [] && items[..i + 1][..i] == items[..i] && items[..i + 1][i] == items[i]
  {}

  /** The `combat` object `calculateStats` builds from already derived abilities. */
  function ComputeCombat(abilities: map<string, Ability>, items: seq<Item>, charLevel: int): (r: Combat)
    requires HasCombatAbilities(abilities)
    ensures r.checks.Keys == RollKeys && r.attributes.Keys == AttributeKeys
  {
    FoldSkills(SeedCombat(abilities), items, charLevel)
  }

  // ---------------------------------------------------------------------
  // The actor document
  // ---------------------------------------------------------------------

  class Actor {
    var actorType: string
    var level: int
    var abilities: map<string, Ability>
    var items: seq<Item>
    var equipment: map<string, string>
    var combat: Option<Combat>

    constructor (actorType: string, level: int, abilities: map<string, Ability>,
                 items: seq<Item>, equipment: map<string, string>)
      ensures this.actorType == actorType && this.level == level
      ensures this.abilities == abilities && this.items == items
      ensures this.equipment == equipment && this.combat == None
    {
      this.actorType := actorType;
      this.level := level;
      this.abilities := abilities;
      this.items := items;
      this.equipment := equipment;
      this.combat := None;
    }

    /**
     * The body of the skills loop in `calculateAbility`: what one item adds
     * to `skillsFlat` and `skillsDice` for ability `name`.
     */
    static method SkillContribution(skill: Item, name: string, charLevel: int) returns (flat: int, dice: int)
      ensures flat == Contribution(skill, name, charLevel).flat
      ensures dice == Contribution(skill, name, charLevel).dice
    {
      hide Eval, SkillTerm, Substitute;
      flat, dice := 0, 0;
      if skill.kind == "skill" && skill.active {
        SkillTermSteps(skill, name, charLevel);
        var formula := Substitute(FormulaOf(skill, name), skill.level, charLevel);
        if Includes(formula, "d6") {
          var parts := SplitDice(formula);
          dice := OrZero(Eval(parts.0));
          flat := OrZero(Eval(parts.1));
        } else {
          flat := OrZero(Eval(formula));
        }
      }
    }

    /** `calculateAbility(data, name)`. */
    method CalculateAbility(name: string)
      requires name in abilities
      modifies this`abilities
      ensures abilities == old(abilities)[name := DeriveAbility(old(abilities)[name], name, items, level)]
    {
      hide Eval, SkillTerm, Substitute, DeriveAbility, ActiveSkills, FirstOfKind, Contribution, ClassModFor, FormulaOf, TermOf;
      var a := abilities[name];
      var bonus := a.value / 3;
      var classMod := a.classMod;
      var classItem := FirstOfKind(items, "class");
      if classItem.Some? && name in classItem.value.classModifiers {
        classMod := classItem.value.classModifiers[name];
      }
      var skillsFlat, skillsDice := 0, 0;
      var i := 0;
      while i < |items|
        invariant 0 <= i <= |items|
        invariant abilities == old(abilities)
        invariant skillsFlat == SkillsTotal(items[..i], name, level).flat
        invariant skillsDice == SkillsTotal(items[..i], name, level).dice
      {
        var skill := items[i];
        PrefixStep(items, i);
        SkillsTotalLast(items[..i + 1], name, level);
        var flat, dice := SkillContribution(skill, name, level);
        skillsFlat, skillsDice := skillsFlat + flat, skillsDice + dice;
        i := i + 1;
      }
      assert items[..|items|] == items;
      assert classMod == ClassModFor(items, name, a.classMod);
      DeriveAbilityFields(a, name, items, level);
      var derived := Ability(a.value, bonus, classMod, skillsFlat, skillsDice,
                             bonus + classMod + skillsFlat, 2 + skillsDice);
      assert derived == DeriveAbility(a, name, items, level);
      abilities := abilities[name := derived];
    }

    /** The `Object.entries(abilities).forEach` of `calculateStats`, in any key order. */
    method CalculateAllAbilities()
      modifies this`abilities
      ensures abilities == DeriveAll(old(abilities), items, level)
    {
      hide Eval, SkillTerm, Substitute, DeriveAbility, ActiveSkills, SkillsTotal, ClassModFor;
      var pending := abilities.Keys;
      while pending != {}
        invariant pending <= abilities.Keys == old(abilities).Keys
        invariant forall k :: k in pending ==> abilities[k] == old(abilities)[k]
        invariant forall k :: k in abilities && k !in pending ==>
                    abilities[k] == DeriveAbility(old(abilities)[k], k, items, level)
        decreases pending
      {
        var k :| k in pending;
        CalculateAbility(k);
        pending := pending - {k};
      }
    }

    /** `calculateStats(data)`: every ability, then a fresh `combat` snapshot. */
    method CalculateStats()
      requires HasCombatAbilities(abilities)
      modifies this`abilities, this`combat
      ensures abilities == DeriveAll(old(abilities), items, level)
      ensures HasCombatAbilities(abilities)
      ensures combat == Some(ComputeCombat(abilities, items, level))
    {
      hide Eval, SkillTerm, Substitute, DeriveAbility, ActiveSkills, SkillsTotal, ClassModFor, FoldSkill;
      CalculateAllAbilities();
      var rollModifiers := map["hitCheck" := Check(abilities["dexterity"].score, 2),
                               "attackPower" := Check(0, 2),
                               "dodgeCheck" := Check(abilities["agility"].score, 2)];
      var attributeModifiers := map["physicalDefense" := 0,
                                    "magicDefense" := 0,
                                    "actionPoints" := abilities["agility"].score + abilities["perception"].score,
                                    "movement" := abilities["strength"].score + 5];
      assert rollModifiers == SeedCombat(abilities).checks;
      assert attributeModifiers == SeedCombat(abilities).attributes;
      rollModifiers, attributeModifiers := FoldActiveSkills(rollModifiers, attributeModifiers, items, level);
      combat := Some(Combat(rollModifiers, attributeModifiers));
    }

    /**
     * The `items.forEach` of `calculateStats`: each active skill adds its terms
     * to every roll modifier and its evaluated formula to every attribute.
     */
    static method FoldActiveSkills(rolls: map<string, Check>, attrs: map<string, int>, items: seq<Item>, charLevel: int)
      returns (rollModifiers: map<string, Check>, attributeModifiers: map<string, int>)
      ensures rollModifiers == FoldSkills(Combat(rolls, attrs), items, charLevel).checks
      ensures attributeModifiers == FoldSkills(Combat(rolls, attrs), items, charLevel).attributes
    {
      hide Eval, SkillTerm, Substitute, FoldSkill;
      ghost var seed := Combat(rolls, attrs);
      rollModifiers, attributeModifiers := rolls, attrs;
      var i := 0;
      while i < |items|
        invariant 0 <= i <= |items|
        invariant rollModifiers == FoldSkills(seed, items[..i], charLevel).checks
        invariant attributeModifiers == FoldSkills(seed, items[..i], charLevel).attributes
      {
        var skill := items[i];
        PrefixStep(items, i);
        FoldSkillsLast(seed, items[..i + 1], charLevel);
        FoldSkillSteps(FoldSkills(seed, items[..i], charLevel), skill, charLevel);
        if skill.kind == "skill" && skill.active {
          rollModifiers := map k | k in rollModifiers :: AddCheck(rollModifiers[k], SkillTerm(skill, k, charLevel));
          attributeModifiers := map k | k in attributeModifiers ::
                                  ApplyAttribute(attributeModifiers[k], AttributeFormula(skill, k, charLevel));
        }
        i := i + 1;
      }
      assert items[..|items|] == items;
    }

    /** `prepareDerivedData`: only a "player" actor gets derived stats; an "npc" is left as it is. */
    method PrepareDerivedData()
      requires actorType == "player" ==> HasCombatAbilities(abilities)
      modifies this`abilities, this`combat
      ensures actorType == "player" ==>
                abilities == DeriveAll(old(abilities), items, level)
                && HasCombatAbilities(abilities)
                && combat == Some(ComputeCombat(abilities, items, level))
      ensures actorType != "player" ==> abilities == old(abilities) && combat == old(combat)
    {
      if actorType == "player" {
        CalculateStats();
      }
    }
  }

  // ---------------------------------------------------------------------
  // Properties
  // ---------------------------------------------------------------------

  /** Folding a concatenation is folding each part and adding the results. */
  lemma {:induction false} SkillsTotalAppend(a: seq<Item>, b: seq<Item>, key: string, charLevel: int)
    ensures SkillsTotal(a + b, key, charLevel)
            == AddCheck(SkillsTotal(a, key, charLevel), SkillsTotal(b, key, charLevel))
    decreases |b|
  {
    hide Eval, SkillTerm, Substitute;
    if b == [] {
      assert a + b == a;
    } else {
      var b' := b[..|b| - 1];
      SkillsTotalAppend(a, b', key, charLevel);
      ConcatLast(a, b);
      SkillsTotalLast(b, key, charLevel);
      SkillsTotalLast(a + b, key, charLevel);
    }
  }

  /** The last item of `a + b` is `b`'s, and what precedes it is `a` followed by the rest of `b`. */
  lemma ConcatLast(a: seq<Item>, b: seq<Item>)
    requires b != []
    ensures (a + b)[..|a + b| - 1] == a + b[..|b| - 1] && (a + b)[|a + b| - 1] == b[|b| - 1]
  {}

  /** The order in which skills are folded does not change an ability's totals. */
  lemma {:induction false} SkillsTotalOrderIndependent(a: seq<Item>, b: seq<Item>, key: string, charLevel: int)
    requires multiset(a) == multiset(b)
    ensures SkillsTotal(a, key, charLevel) == SkillsTotal(b, key, charLevel)
    decreases |a|
  {
    hide Eval, SkillTerm, Substitute;
    if a == [] {
      assert |b| == |multiset(b)| == 0;
    } else {
      assert a[|a| - 1] in multiset(a);
      var k :| 0 <= k < |b| && b[k] == a[|a| - 1];
      MultisetRemove(a, b, k);
      SkillsTotalOrderIndependent(a[..|a| - 1], b[..k] + b[k + 1..], key, charLevel);
      MoveLastTotal(a, b, k, key, charLevel);
    }
  }

  /**
   * The inductive step: when the rest of `a` and `b` without its `k`-th item
   * total the same, so do `a` and `b`, as `b[k]` is `a`'s last item.
   */
  lemma MoveLastTotal(a: seq<Item>, b: seq<Item>, k: nat, key: string, charLevel: int)
    requires a != [] && k < |b| && b[k] == a[|a| - 1]
    requires SkillsTotal(a[..|a| - 1], key, charLevel) == SkillsTotal(b[..k] + b[k + 1..], key, charLevel)
    ensures SkillsTotal(a, key, charLevel) == SkillsTotal(b, key, charLevel)
  {
    hide SkillsTotal, Contribution, Eval, SkillTerm, Substitute;
    assert b == b[..k] + [b[k]] + b[k + 1..];
    SkillsTotalLast(a, key, charLevel);
    SkillsTotalSplice(b[..k], b[k], b[k + 1..], key, charLevel);
  }

  /** Taking one item out of the middle of a fold subtracts exactly its contribution. */
  lemma SkillsTotalSplice(before: seq<Item>, x: Item, after: seq<Item>, key: string, charLevel: int)
    ensures SkillsTotal(before + [x] + after, key, charLevel)
            == AddCheck(SkillsTotal(before + after, key, charLevel), Contribution(x, key, charLevel))
  {
    hide SkillsTotal, Contribution, Eval, SkillTerm, Substitute;
    SkillsTotalSnoc(before, x, key, charLevel);
    SkillsTotalAppend(before + [x], after, key, charLevel);
    SkillsTotalAppend(before, after, key, charLevel);
  }

  /** Appending one item adds its contribution. */
  lemma SkillsTotalSnoc(before: seq<Item>, x: Item, key: string, charLevel: int)
    ensures SkillsTotal(before + [x], key, charLevel)
            == AddCheck(SkillsTotal(before, key, charLevel), Contribution(x, key, charLevel))
  {
    hide SkillsTotal, Contribution, Eval, SkillTerm, Substitute;
    var s := before + [x];
    assert s[..|s| - 1] == before && s[|s| - 1] == x;
    SkillsTotalLast(s, key, charLevel);
  }

  /** Taking the last element of `a` out of a permutation `b` at index `k` leaves a permutation. */
  lemma MultisetRemove<T>(a: seq<T>, b: seq<T>, k: nat)
    requires a != [] && k < |b| && b[k] == a[|a| - 1] && multiset(a) == multiset(b)
    ensures b == b[..k] + [b[k]] + b[k + 1..]
    ensures multiset(a[..|a| - 1]) == multiset(b[..k] + b[k + 1..])
  {
    assert a == a[..|a| - 1] + [a[|a| - 1]];
    assert b == b[..k] + [b[k]] + b[k + 1..];
    assert multiset(a) == multiset(a[..|a| - 1]) + multiset{b[k]};
    assert multiset(b) == multiset(b[..k]) + multiset{b[k]} + multiset(b[k + 1..]);
    assert multiset(b[..k] + b[k + 1..]) == multiset(b[..k]) + multiset(b[k + 1..]);
    assert multiset(a[..|a| - 1]) == multiset(a) - multiset{b[k]};
    assert multiset(b[..k] + b[k + 1..]) == multiset(b) - multiset{b[k]};
  }

  /** Inactive skills and items that are not skills add nothing. */
  lemma {:induction false} SkillsTotalIgnoresInactive(items: seq<Item>, key: string, charLevel: int)
    ensures SkillsTotal(items, key, charLevel) == SkillsTotal(ActiveSkills(items), key, charLevel)
    decreases |items|
  {
    hide Eval, SkillTerm, Substitute;
    if items != [] {
      var init := items[..|items| - 1];
      var last := items[|items| - 1];
      SkillsTotalIgnoresInactive(init, key, charLevel);
      SkillsTotalLast(items, key, charLevel);
      ActiveSkillsLast(items);
      if IsActiveSkill(last) {
        var r := ActiveSkills(init) + [last];
        assert r[..|r| - 1] == ActiveSkills(init) && r[|r| - 1] == last;
        SkillsTotalLast(r, key, charLevel);
      }
    }
  }

  /** One unfolding of `ActiveSkills` at the last item. */
  lemma ActiveSkillsLast(items: seq<Item>)
    requires items != []
    ensures ActiveSkills(items)
            == if IsActiveSkill(items[|items| - 1]) then ActiveSkills(items[..|items| - 1]) + [items[|items| - 1]]
               else ActiveSkills(items[..|items| - 1])
  {}

  /** Switching one active skill off removes exactly its contribution. */
  lemma DeactivateRemovesContribution(items: seq<Item>, i: nat, key: string, charLevel: int)
    requires i < |items| && IsActiveSkill(items[i])
    ensures SkillsTotal(items[i := items[i].(active := false)], key, charLevel)
            == SubCheck(SkillsTotal(items, key, charLevel), SkillTerm(items[i], key, charLevel))
  {
    hide Eval, SkillTerm, Substitute;
    var x, off := items[i], items[i].(active := false);
    var pre, post := items[..i], items[i + 1..];
    assert items == (pre + [x]) + post;
    assert items[i := off] == (pre + [off]) + post;
    SkillsTotalAppend(pre + [x], post, key, charLevel);
    SkillsTotalAppend(pre + [off], post, key, charLevel);
    assert (pre + [x])[..|pre|] == pre && (pre + [off])[..|pre|] == pre;
    SkillsTotalLast(pre + [x], key, charLevel);
    SkillsTotalLast(pre + [off], key, charLevel);
  }

  /** Recomputing derived abilities from derived abilities changes nothing. */
  lemma DeriveAllIdempotent(abilities: map<string, Ability>, items: seq<Item>, charLevel: int)
    ensures DeriveAll(DeriveAll(abilities, items, charLevel), items, charLevel)
            == DeriveAll(abilities, items, charLevel)
  {
    hide Eval, SkillTerm, Substitute;
    var once := DeriveAll(abilities, items, charLevel);
    forall k | k in once
      ensures DeriveAbility(once[k], k, items, charLevel) == once[k]
    {
      var a := abilities[k];
      assert once[k] == DeriveAbility(a, k, items, charLevel);
    }
  }

  /**
   * Deriving stats twice gives what deriving once gives: the second pass
   * starts from the same base values and a fresh snapshot.
   */
  lemma CalculateStatsIdempotent(abilities: map<string, Ability>, items: seq<Item>, charLevel: int)
    requires HasCombatAbilities(abilities)
    ensures HasCombatAbilities(DeriveAll(abilities, items, charLevel))
    ensures ComputeCombat(DeriveAll(DeriveAll(abilities, items, charLevel), items, charLevel), items, charLevel)
            == ComputeCombat(DeriveAll(abilities, items, charLevel), items, charLevel)
  {
    hide Eval, SkillTerm, Substitute;
    DeriveAllIdempotent(abilities, items, charLevel);
  }

  /** Each combat check is its seed plus the same skill totals an ability of that name gets. */
  lemma {:induction false} FoldSkillsChecks(c: Combat, items: seq<Item>, key: string, charLevel: int)
    requires key in c.checks
    ensures key in FoldSkills(c, items, charLevel).checks
    ensures FoldSkills(c, items, charLevel).checks[key]
            == AddCheck(c.checks[key], SkillsTotal(items, key, charLevel))
    decreases |items|
  {
    hide Eval, SkillTerm, Substitute;
    if items != [] {
      FoldSkillsChecks(c, items[..|items| - 1], key, charLevel);
      FoldSkillsLast(c, items, charLevel);
      SkillsTotalLast(items, key, charLevel);
    }
  }

  /** Inactive skills and non-skill items leave the whole combat snapshot unchanged. */
  lemma {:induction false} FoldSkillsIgnoresInactive(c: Combat, items: seq<Item>, charLevel: int)
    ensures FoldSkills(c, items, charLevel) == FoldSkills(c, ActiveSkills(items), charLevel)
    decreases |items|
  {
    hide Eval, SkillTerm, Substitute;
    if items != [] {
      var init := items[..|items| - 1];
      var last := items[|items| - 1];
      FoldSkillsIgnoresInactive(c, init, charLevel);
      FoldSkillsLast(c, items, charLevel);
      if IsActiveSkill(last) {
        var r := ActiveSkills(init) + [last];
        assert r[..|r| - 1] == ActiveSkills(init);
        FoldSkillsLast(c, r, charLevel);
      }
    }
  }

  /** With no active skill the snapshot is exactly the seeds. */
  lemma CombatWithoutSkills(abilities: map<string, Ability>, items: seq<Item>, charLevel: int)
    requires HasCombatAbilities(abilities)
    requires forall i :: 0 <= i < |items| ==> !IsActiveSkill(items[i])
    ensures ComputeCombat(abilities, items, charLevel) == SeedCombat(abilities)
  {
    hide Eval, SkillTerm, Substitute;
    FoldSkillsIgnoresInactive(SeedCombat(abilities), items, charLevel);
  }

  /** The sum of the evaluated attribute formulas of the active skills. */
  function AttributeTotal(items: seq<Item>, key: string, charLevel: int): int
    decreases |items|
  {
    if items == [] then 0
    else
      AttributeTotal(items[..|items| - 1], key, charLevel) + AttributeValue(items[|items| - 1], key, charLevel)
  }

  /** What one item adds to an attribute while its formula evaluates. */
  function AttributeValue(item: Item, key: string, charLevel: int): int {
    if IsActiveSkill(item) then OrZero(Eval(AttributeFormula(item, key, charLevel))) else 0
  }

  /** Every active skill's formula for `key` evaluates to a number. */
  predicate AttributeFormulasDefined(items: seq<Item>, key: string, charLevel: int) {
    forall i :: 0 <= i < |items| && IsActiveSkill(items[i]) ==>
      Eval(AttributeFormula(items[i], key, charLevel)).Some?
  }

  /**
   * While every formula evaluates, a combat attribute is its seed plus the
   * skills' values.
   */
  lemma {:induction false} FoldSkillsAttributes(c: Combat, items: seq<Item>, key: string, charLevel: int)
    requires key in c.attributes
    requires AttributeFormulasDefined(items, key, charLevel)
    ensures key in FoldSkills(c, items, charLevel).attributes
    ensures FoldSkills(c, items, charLevel).attributes[key]
            == c.attributes[key] + AttributeTotal(items, key, charLevel)
    decreases |items|
  {
    hide Eval, SkillTerm, Substitute;
    if items != [] {
      var init := items[..|items| - 1];
      var last := items[|items| - 1];
      assert AttributeFormulasDefined(init, key, charLevel) by {
        forall i | 0 <= i < |init| && IsActiveSkill(init[i])
          ensures Eval(AttributeFormula(init[i], key, charLevel)).Some?
        {
          assert init[i] == items[i];
        }
      }
      FoldSkillsAttributes(c, init, key, charLevel);
      FoldSkillsLast(c, items, charLevel);
      assert IsActiveSkill(last) ==> Eval(AttributeFormula(last, key, charLevel)).Some?;
    }
  }

  /**
   * Each check of the combat snapshot is its seed (hit: dexterity score, attack:
   * 0, dodge: agility score; always 2 dice) plus what the active skills add.
   */
  lemma CombatChecks(abilities: map<string, Ability>, items: seq<Item>, charLevel: int)
    requires HasCombatAbilities(abilities)
    ensures var c := ComputeCombat(abilities, items, charLevel).checks;
            && c["hitCheck"] == AddCheck(Check(abilities["dexterity"].score, 2), SkillsTotal(items, "hitCheck", charLevel))
            && c["attackPower"] == AddCheck(Check(0, 2), SkillsTotal(items, "attackPower", charLevel))
            && c["dodgeCheck"] == AddCheck(Check(abilities["agility"].score, 2), SkillsTotal(items, "dodgeCheck", charLevel))
  {
    var seed := SeedCombat(abilities);
    assert ComputeCombat(abilities, items, charLevel) == FoldSkills(seed, items, charLevel);
    assert seed.checks["hitCheck"] == Check(abilities["dexterity"].score, 2);
    assert seed.checks["attackPower"] == Check(0, 2);
    assert seed.checks["dodgeCheck"] == Check(abilities["agility"].score, 2);
    hide ComputeCombat, SeedCombat, FoldSkills, SkillsTotal, SkillTerm, Eval, Substitute, AddCheck;
    FoldSkillsChecks(seed, items, "hitCheck", charLevel);
    FoldSkillsChecks(seed, items, "attackPower", charLevel);
    FoldSkillsChecks(seed, items, "dodgeCheck", charLevel);
  }

  /**
   * While the skills' formulas evaluate, each combat attribute is its seed
   * (defences 0, action points agility + perception, movement strength + 5)
   * plus the skills' values.
   */
  lemma CombatAttributes(abilities: map<string, Ability>, items: seq<Item>, charLevel: int)
    requires HasCombatAbilities(abilities)
    requires forall key :: key in AttributeKeys ==> AttributeFormulasDefined(items, key, charLevel)
    ensures var c := ComputeCombat(abilities, items, charLevel).attributes;
            && c["physicalDefense"] == AttributeTotal(items, "physicalDefense", charLevel)
            && c["magicDefense"] == AttributeTotal(items, "magicDefense", charLevel)
            && c["actionPoints"] == abilities["agility"].score + abilities["perception"].score
                                    + AttributeTotal(items, "actionPoints", charLevel)
            && c["movement"] == abilities["strength"].score + 5 + AttributeTotal(items, "movement", charLevel)
  {
    var seed := SeedCombat(abilities);
    FoldSkillsAttributes(seed, items, "physicalDefense", charLevel);
    FoldSkillsAttributes(seed, items, "magicDefense", charLevel);
    FoldSkillsAttributes(seed, items, "actionPoints", charLevel);
    FoldSkillsAttributes(seed, items, "movement", charLevel);
  }

  /**
   * An active skill whose attribute formula does not evaluate resets that
   * attribute to 0, whatever the earlier skills added.
   */
  lemma UndefinedAttributeResets(c: Combat, skill: Item, key: string, charLevel: int)
    requires key in c.attributes && IsActiveSkill(skill)
    requires Eval(AttributeFormula(skill, key, charLevel)).None?
    ensures FoldSkill(c, skill, charLevel).attributes[key] == 0
  {
    hide Eval, SkillTerm, Substitute;
  }

  /**
   * The order of the skills does not change the combat snapshot's checks, nor,
   * while every active skill's attribute formulas evaluate, its attributes.
   */
  lemma FoldSkillsOrderIndependent(c: Combat, a: seq<Item>, b: seq<Item>, charLevel: int)
    requires multiset(a) == multiset(b)
    ensures FoldSkills(c, a, charLevel).checks == FoldSkills(c, b, charLevel).checks
    ensures (forall key :: key in c.attributes ==> AttributeFormulasDefined(a, key, charLevel))
            ==> FoldSkills(c, a, charLevel).attributes == FoldSkills(c, b, charLevel).attributes
  {
    hide Eval, SkillTerm, Substitute;
    var fa, fb := FoldSkills(c, a, charLevel), FoldSkills(c, b, charLevel);
    forall k | k in c.checks
      ensures fa.checks[k] == fb.checks[k]
    {
      FoldSkillsChecks(c, a, k, charLevel);
      FoldSkillsChecks(c, b, k, charLevel);
      SkillsTotalOrderIndependent(a, b, k, charLevel);
    }
    if forall key :: key in c.attributes ==> AttributeFormulasDefined(a, key, charLevel) {
      forall k | k in c.attributes
        ensures fa.attributes[k] == fb.attributes[k]
      {
        DefinedPermutation(a, b, k, charLevel);
        FoldSkillsAttributes(c, a, k, charLevel);
        FoldSkillsAttributes(c, b, k, charLevel);
        AttributeTotalOrderIndependent(a, b, k, charLevel);
      }
    }
  }

  /**
   * `calculateStats` gives the same checks for any order of the items, and the
   * same whole snapshot while every active skill's attribute formulas evaluate.
   */
  lemma CombatOrderIndependent(abilities: map<string, Ability>, a: seq<Item>, b: seq<Item>, charLevel: int)
    requires HasCombatAbilities(abilities) && multiset(a) == multiset(b)
    ensures ComputeCombat(abilities, a, charLevel).checks == ComputeCombat(abilities, b, charLevel).checks
    ensures (forall key :: key in AttributeKeys ==> AttributeFormulasDefined(a, key, charLevel))
            ==> ComputeCombat(abilities, a, charLevel) == ComputeCombat(abilities, b, charLevel)
  {
    hide Eval, SkillTerm, Substitute;
    FoldSkillsOrderIndependent(SeedCombat(abilities), a, b, charLevel);
  }

  /** Whether every attribute formula evaluates does not depend on the order of the items. */
  lemma DefinedPermutation(a: seq<Item>, b: seq<Item>, key: string, charLevel: int)
    requires multiset(a) == multiset(b) && AttributeFormulasDefined(a, key, charLevel)
    ensures AttributeFormulasDefined(b, key, charLevel)
  {
    hide Eval, SkillTerm, Substitute;
    forall i | 0 <= i < |b| && IsActiveSkill(b[i])
      ensures Eval(AttributeFormula(b[i], key, charLevel)).Some?
    {
      assert b[i] in multiset(a);
      var j :| 0 <= j < |a| && a[j] == b[i];
    }
  }

  /** The attribute values of a concatenation add up. */
  lemma {:induction false} AttributeTotalAppend(a: seq<Item>, b: seq<Item>, key: string, charLevel: int)
    ensures AttributeTotal(a + b, key, charLevel)
            == AttributeTotal(a, key, charLevel) + AttributeTotal(b, key, charLevel)
    decreases |b|
  {
    hide Eval, SkillTerm, Substitute, AttributeValue;
    if b == [] {
      assert a + b == a;
    } else {
      AttributeTotalAppend(a, b[..|b| - 1], key, charLevel);
      ConcatLast(a, b);
    }
  }

  /** Any permutation of the items gives the same attribute total. */
  lemma {:induction false} AttributeTotalOrderIndependent(a: seq<Item>, b: seq<Item>, key: string, charLevel: int)
    requires multiset(a) == multiset(b)
    ensures AttributeTotal(a, key, charLevel) == AttributeTotal(b, key, charLevel)
    decreases |a|
  {
    hide Eval, SkillTerm, Substitute, AttributeValue;
    if a == [] {
      assert |b| == |multiset(b)| == 0;
    } else {
      assert a[|a| - 1] in multiset(a);
      var k :| 0 <= k < |b| && b[k] == a[|a| - 1];
      MultisetRemove(a, b, k);
      AttributeTotalOrderIndependent(a[..|a| - 1], b[..k] + b[k + 1..], key, charLevel);
      AttributeTotalSplice(b[..k], b[k], b[k + 1..], key, charLevel);
    }
  }

  /** Taking one item out of the middle subtracts exactly its attribute value. */
  lemma AttributeTotalSplice(before: seq<Item>, x: Item, after: seq<Item>, key: string, charLevel: int)
    ensures AttributeTotal(before + [x] + after, key, charLevel)
            == AttributeTotal(before + after, key, charLevel) + AttributeValue(x, key, charLevel)
  {
    hide Eval, SkillTerm, Substitute, AttributeValue;
    var s := before + [x];
    assert s[..|s| - 1] == before && s[|s| - 1] == x;
    AttributeTotalAppend(s, after, key, charLevel);
    AttributeTotalAppend(before, after, key, charLevel);
  }

  /**
   * As the source folds attributes, order can matter: a skill whose formula
   * does not evaluate resets the attribute, so it wipes what the skills
   * before it added but not what the skills after it add.
   */
  lemma AttributeFoldOrderDependent(c: Combat, a: Item, b: Item, key: string, charLevel: int, v: int)
    requires key in c.attributes && IsActiveSkill(a) && IsActiveSkill(b)
    requires Eval(AttributeFormula(a, key, charLevel)).None?
    requires Eval(AttributeFormula(b, key, charLevel)) == Some(v)
    ensures FoldSkills(c, [a, b], charLevel).attributes[key] == v
    ensures FoldSkills(c, [b, a], charLevel).attributes[key] == 0
  {
    hide Eval, SkillTerm, Substitute;
    assert [a, b][..1] == [a] && [b, a][..1] == [b];
    assert [a][..0] == [] && [b][..0] == [];
    FoldSkillsLast(c, [a, b], charLevel);
    FoldSkillsLast(c, [b, a], charLevel);
    FoldSkillsLast(c, [a], charLevel);
    FoldSkillsLast(c, [b], charLevel);
    var ca := FoldSkills(c, [a], charLevel);
    var cb := FoldSkills(c, [b], charLevel);
    UndefinedAttributeResets(c, a, key, charLevel);
    UndefinedAttributeResets(cb, a, key, charLevel);
  }

  /**
   * Two active skills on "movement": "a" with the blank formula " ", "b" with
   * "1". Folded as [a, b] the attribute is 1, folded as [b, a] it is 0.
   */
  lemma AttributeOrderExample()
    ensures var a := Item("a", "skill", "a", "", true, 0, map["movement" := " "], map[], "");
            var b := Item("b", "skill", "b", "", true, 0, map["movement" := "1"], map[], "");
            var c := Combat(map[], map["movement" := 5]);
            && FoldSkills(c, [a, b], 0).attributes["movement"] == 1
            && FoldSkills(c, [b, a], 0).attributes["movement"] == 0
  {
    var a := Item("a", "skill", "a", "", true, 0, map["movement" := " "], map[], "");
    var b := Item("b", "skill", "b", "", true, 0, map["movement" := "1"], map[], "");
    var c := Combat(map[], map["movement" := 5]);
    assert AttributeFormula(a, "movement", 0) == " " by {
      SubstituteUnfold(" ", 0, 0);
    }
    assert AttributeFormula(b, "movement", 0) == "1" by {
      SubstituteUnfold("1", 0, 0);
    }
    assert Eval("1") == Some(1) by {
      EvalIntToString(1);
      assert IntToString(1) == "1";
    }
    AttributeFoldOrderDependent(c, a, b, "movement", 0, 1);
  }

  /** Printed numbers contain no "SL", "CL" or "d6". */
  lemma {:induction false} NoTokensInNumber(n: int, t: string)
    requires t == "SL" || t == "CL" || t == "d6"
    ensures !Includes(IntToString(n), t)
  {
    var s := IntToString(n);
    IntToStringChars(n);
    forall i ensures !OccursAt(s, t, i) {
      if 0 <= i && i + |t| <= |s| {
        assert s[i..i + |t|][0] == s[i];
      }
    }
  }

  /**
   * `replaceAll` runs before `includes("d6")`, so a level substituted next to
   * a "d" can complete a "d6" the formula did not hold: "1dSL" at skill level
   * 6 becomes "1d6", one die.
   */
  lemma SubstitutionCanFormDice()
    ensures !Includes("1dSL", "d6")
    ensures Substitute("1dSL", 6, 0) == "1d6" && Includes("1d6", "d6")
  {
    SubstituteUnfold("1dSL", 6, 0);
    assert IntToString(6) == "6" && IntToString(0) == "0";
    hide Substitute, IntToString;
    assert OccursAt("1d6", "d6", 1);
    NoDiceBeforeLevel();
    LevelStepFormsDice();
  }

  lemma NoDiceBeforeLevel()
    ensures !Includes("1dSL", "d6")
  {
    hide Includes;
    forall i | 0 <= i <= 2
      ensures !OccursAt("1dSL", "d6", i)
    {
      assert "1dSL"[i..i + 2][1] != '6';
    }
  }

  lemma LevelStepFormsDice()
    ensures ReplaceAll(ReplaceAll("1dSL", "SL", "6"), "CL", "0") == "1d6"
  {
    hide ReplaceAll;
    ReplaceAllEmpty("SL", "6");
    ReplaceAllHit("SL", [], "6");
    ReplaceAllSkip("1d", "SL", "SL", "6");
    assert "1d" + "SL" == "1dSL" && "SL" + [] == "SL" && "1d" + ("6" + []) == "1d6";
    ReplaceAllEmpty("CL", "0");
    ReplaceAllSkip("1d6", [], "CL", "0");
    assert "1d6" + [] == "1d6";
  }

  /** A skill without a formula for `key` (or with an empty one) adds nothing. */
  lemma MissingFormulaAddsNothing(skill: Item, key: string, charLevel: int)
    requires key !in skill.modifiers || skill.modifiers[key] == ""
    ensures SkillTerm(skill, key, charLevel) == NoCheck
  {
    assert FormulaOf(skill, key) == "0";
    assert IntToString(0) == "0";
    assert Substitute("0", skill.level, charLevel) == "0";
    assert !StartsWith("0", "d6");
    EvalIntToString(0);
  }

  /** A printed number is all flat: `TermOf(String(n))` is n and no dice. */
  lemma TermOfNumber(n: int)
    ensures TermOf(IntToString(n)) == Check(n, 0)
  {
    NoTokensInNumber(n, "d6");
    EvalIntToString(n);
  }

  /**
   * "<n>d6+<m>" counts n dice and m flat: the value before the only "d6" is
   * the dice, the signed value after it the flat part.
   */
  lemma TermOfDiceFormula(n: int, m: nat)
    ensures TermOf(IntToString(n) + "d6+" + NatToString(m)) == Check(m, n)
  {
    var p := IntToString(n);
    var tail := ['+'] + NatToString(m);
    var f := p + "d6+" + NatToString(m);
    IntToStringChars(n);
    assert f == p + "d6" + tail;
    assert forall c :: c in tail ==> c == '+' || IsDigit(c);
    SplitAtOnlyDice(p, tail);
    EvalIntToString(n);
    EvalSignedNat('+', m);
    hide Eval, SplitDice, IntToString, NatToString;
  }

  /** A text with a single "d" splits at the "d6" after it, as `split` reads it. */
  lemma SplitAtOnlyDice(p: string, tail: string)
    requires 'd' !in p && 'd' !in tail
    ensures Includes(p + "d6" + tail, "d6") && SplitDice(p + "d6" + tail) == (p, tail)
  {
    var f := p + "d6" + tail;
    OnlyDiceAt(p, tail);
    NoDiceIn(tail);
    SplitDiceParts(f);
    var parts := SplitDice(f);
    hide SplitDice, Includes, OccursAt;
    var i :| && OccursAt(f, "d6", i) && parts.0 == f[..i]
             && StartsWith(f[i + 2..], parts.1)
             && (parts.1 == f[i + 2..] || OccursAt(f[i + 2..], "d6", |parts.1|));
    assert i == |p|;
  }

  /** The one "d" of `p + "d6" + tail` is where its only "d6" starts. */
  lemma OnlyDiceAt(p: string, tail: string)
    requires 'd' !in p && 'd' !in tail
    ensures OccursAt(p + "d6" + tail, "d6", |p|)
    ensures forall i :: OccursAt(p + "d6" + tail, "d6", i) ==> i == |p|
    ensures (p + "d6" + tail)[..|p|] == p && (p + "d6" + tail)[|p| + 2..] == tail
  {
    var f := p + "d6" + tail;
    var d := |p|;
    assert f[d..d + 2] == "d6";
    forall k | 0 <= k < |f| && k != d
      ensures f[k] != 'd'
    {
      if k < d {
        assert f[k] == p[k] && p[k] in p;
      } else if k > d + 1 {
        assert f[k] == tail[k - d - 2] && tail[k - d - 2] in tail;
      }
    }
    forall i | OccursAt(f, "d6", i)
      ensures i == d
    {
      assert f[i] == f[i..i + 2][0];
    }
  }

  lemma NoDiceIn(tail: string)
    requires 'd' !in tail
    ensures forall j :: !OccursAt(tail, "d6", j)
  {
    forall j | 0 <= j && j + 2 <= |tail|
      ensures !OccursAt(tail, "d6", j)
    {
      assert tail[j..j + 2][0] == tail[j] && tail[j] in tail;
    }
  }

  /** A formula that is just "SL" adds the skill level, flat. */
  lemma SkillLevelFormula(skill: Item, key: string, charLevel: int)
    requires IsActiveSkill(skill) && key in skill.modifiers && skill.modifiers[key] == "SL"
    ensures Contribution(skill, key, charLevel) == Check(skill.level, 0)
  {
    var n := IntToString(skill.level);
    assert "SL"[..2] == "SL" && "SL"[2..] == [];
    assert ReplaceAll("SL", "SL", n) == n + ReplaceAll([], "SL", n);
    assert ReplaceAll("SL", "SL", n) == n;
    NoTokensInNumber(skill.level, "CL");
    NoTokensInNumber(skill.level, "d6");
    EvalIntToString(skill.level);
  }

  /** "SLd6+CL" at skill level 2 and character level 4 adds 2 dice and 4 flat. */
  lemma SkillTermExample(skill: Item, key: string)
    requires key in skill.modifiers && skill.modifiers[key] == "SLd6+CL" && skill.level == 2
    ensures SkillTerm(skill, key, 4) == Check(4, 2)
  {
    assert FormulaOf(skill, key) == "SLd6+CL";
    SubstituteExample();
    TermExample();
    hide Substitute, TermOf, FormulaOf;
  }

  /** "2d6+4" counts 2 dice and 4 flat. */
  lemma TermExample()
    ensures TermOf("2d6+4") == Check(4, 2)
  {
    SplitExample();
    EvalIntToString(2);
    EvalSignedNat('+', 4);
    assert ['+'] + NatToString(4) == "+4";
    hide Eval, SplitDice;
  }

  /** "2d6+4" splits around its only "d6". */
  lemma SplitExample()
    ensures Includes("2d6+4", "d6")
    ensures SplitDice("2d6+4") == ("2", "+4")
  {
    var g := "2d6+4";
    assert g[..2][0] == '2';
    assert g[1..] == "d6+4" && "d6+4"[..2] == "d6";
    assert IndexOf(g, "d6") == Some(1);
    assert g[3..] == "+4" && g[..1] == "2";
    assert "+4"[..2][0] == '+';
    assert IndexOf("+4", "d6") == None;
  }

  /** Both substitutions applied to "SLd6+CL" at skill level 2 and character level 4. */
  lemma SubstituteExample()
    ensures Substitute("SLd6+CL", 2, 4) == "2d6+4"
  {
    assert IntToString(2) == "2" && IntToString(4) == "4";
    hide ReplaceAll, IntToString;
    SkillLevelStep();
    CharLevelStep();
  }

  lemma SkillLevelStep()
    ensures ReplaceAll("SLd6+CL", "SL", "2") == "2d6+CL"
  {
    hide ReplaceAll;
    ReplaceAllEmpty("SL", "2");
    ReplaceAllHit("SL", "d6+CL", "2");
    ReplaceAllSkip("d6+CL", [], "SL", "2");
    assert "SL" + "d6+CL" == "SLd6+CL" && "d6+CL" + [] == "d6+CL";
  }

  lemma CharLevelStep()
    ensures ReplaceAll("2d6+CL", "CL", "4") == "2d6+4"
  {
    hide ReplaceAll;
    ReplaceAllEmpty("CL", "4");
    ReplaceAllSkip("2d6+", "CL", "CL", "4");
    ReplaceAllHit("CL", [], "4");
    assert "2d6+" + "CL" == "2d6+CL" && "CL" + [] == "CL";
  }
}
