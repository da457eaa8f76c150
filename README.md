# Konosuba system for Foundry VTT — a Dafny model

This project models the rules of the Konosuba tabletop system for Foundry
Virtual Tabletop and proves properties of them. The modelled parts are:

- **Derived statistics of a player actor** (`ActorDocument`). Each ability
  gets a bonus of a third of its value, a class modifier and the totals of
  the active skills' modifier formulas. A formula is a text in which `SL` and
  `CL` stand for the skill and character level; a `d6` in it separates a dice
  count from a flat part. The derived scores then seed a fresh combat
  snapshot: three checks and four combat attributes, on top of which every
  active skill is folded. JavaScript's `eval` is replaced by a small
  evaluator for integer expressions with `+`, `-`, `*`, parentheses and
  signs (`Arith`).
- **The player sheet** (`ActorSheet`):
  - the loop that turns an experience total into a level;
  - the split of the actor's items into gear and skills;
  - the data of an item created with a sheet button.
- **The equipment window** (`Equipment`): which slots an item can be put
  into, what each slot shows, and how equipping and unequipping change the
  actor's slot-to-item-id map, including the case where an item takes both
  hands.
- **The dice roller window** (`RollDice`): its title, its list of named
  modifiers, and the roll formula built from the base formula and the active
  modifiers.
- **The item sheet** (`ItemSheet`):
  - its template path;
  - a skill's list of custom rolls, which can arrive shaped as an object;
  - adding and deleting rolls;
  - the rule that a skill whose timing is "passive" is active.
- **The system's entry file** (`Konosuba`):
  - the template helpers `camelToTitle`, `includes`, `contains` and
    `toLowerCase`;
  - the rule that an actor holds at most one race and one class;
  - the hooks that seed a combatant's initiative from its actor's action
    points.

State that the source changes in place is modelled as classes:
- `ActorDocument.Actor`
- `Equipment.EquipmentMenu`
- `RollDice.DiceMenu`
- `ItemSheet.ItemSheetState`
- `Konosuba.Encounter`

Their methods are proved against specification functions, and the
properties the system promises are proved about those functions as lemmas.

`common.dfy` holds an `Option` type and the few string operations of
JavaScript used by the system, over `seq<char>`:
- case mapping (ASCII only);
- `replaceAll`;
- `includes`;
- `trim`;
- integer-to-text conversion.

The files, one module each:
- `common.dfy`
- `arith.dfy`
- `actor.dfy`
- `actor_sheet.dfy`
- `equipment.dfy`
- `roll_dice.dfy`
- `item_sheet.dfy`
- `konosuba.dfy`

## Model

| member | source | states |
|---|---|---|
| Strings.ToLower | module/konosuba.mjs:49-51 | the `toLowerCase` helper: same length, each character lower-cased |
| Strings.ToUpper | module/konosuba.mjs:56 | `toUpperCase`: same length, each character upper-cased |
| Strings.Capitalize | module/sheets/actor-sheet.mjs:207 | `capitalize` and the `replace(/^./, …)` of `camelToTitle`: the first character upper-cased, the rest kept, the length unchanged |
| Strings.CapitalizeIdempotent | module/konosuba.mjs:56 | capitalising twice is capitalising once, and a capitalised text upper-cases to the same as the input |
| Strings.LowerOfUpper | module/konosuba.mjs:63-65 | lower-casing after upper-casing is lower-casing: the case of the input does not matter to a case-insensitive comparison |
| Strings.Includes | module/documents/actor.mjs:69 | a text includes another exactly when it occurs at some index |
| Strings.IndexOf | module/documents/actor.mjs:70 | the first occurrence: the text occurs there, at no earlier index, and there is none exactly when the text is not included |
| Strings.ReplaceAll | module/documents/actor.mjs:64-68 | `replaceAll` leaves a text without the pattern as it is |
| Strings.ReplaceAllSkip | module/documents/actor.mjs:64-68 | a prefix none of whose characters starts the pattern is copied unchanged |
| Strings.ReplaceAllAvoids | module/documents/actor.mjs:64-68 | after replacing every occurrence of a pattern by text with none of its characters, the pattern no longer occurs; neither does any text that was absent before and shares no character with the replacement |
| Strings.ReplaceAllAfterPrefix | module/documents/actor.mjs:64-68 | a prefix that cannot start a match is copied, the pattern after it becomes the replacement, and the scan goes on after it |
| Strings.Trim | module/sheets/item-sheet.mjs:98 | the result is a slice of the input with only white space cut off either end, and neither of its ends is white space |
| Strings.TrimIdempotent | module/sheets/item-sheet.mjs:98 | trimming twice is trimming once |
| Strings.TrimLeadingSpace | module/sheets/item-sheet.mjs:98 | a space in front does not change what `trim` keeps |
| Strings.IntToString | module/documents/actor.mjs:64 | `String(n)`: a leading "-" exactly for a negative number, digits after it, and the plain decimal digits for a non-negative one |
| Arith.Eval | module/documents/actor.mjs:71-74 | a blank formula evaluates to nothing |
| Arith.OrZero | module/documents/actor.mjs:71-74 | `|| 0`: nothing counts as 0, a value as itself |
| Arith.EvalIntToString | module/documents/actor.mjs:64-74 | a substituted level, written out as text, evaluates back to that number, negative or not |
| Arith.EvalSignedNat | module/documents/actor.mjs:72 | a signed number such as the "+4" after a "d6" evaluates to its signed value |
| Arith.EvalPrecedence | module/documents/actor.mjs:74 | multiplication binds tighter than addition: "2*3+1" is 7 |
| Arith.EvalLeftAssociative | module/documents/actor.mjs:74 | subtraction groups to the left: "7-2-3" is 2 |
| Arith.EvalRejectsSyntaxErrors | module/documents/actor.mjs:71-74 | a formula with two equal signs in a row ("1--2", "1++2") or a number with a leading zero ("010") is a syntax error and evaluates to nothing |
| Arith.EvalSignExamples | module/documents/actor.mjs:71-74 | "1--2", "--2", "1++2" and "010" evaluate to nothing, while signs kept apart by a space, "1- -2", give 3 |
| ActorDocument.FirstOfKind | module/documents/actor.mjs:51 | `find`: a result is an item of that kind, every item before it has another kind, and there is none exactly when no item has that kind |
| ActorDocument.ClassModFor | module/documents/actor.mjs:51-55 | the class item's modifier when it defines one for the ability, otherwise the stored class value |
| ActorDocument.ActiveSkills | module/documents/actor.mjs:57-62 | exactly the skill items that are active |
| ActorDocument.Contribution | module/documents/actor.mjs:61-62 | an item that is not an active skill contributes nothing |
| ActorDocument.Substitute | module/documents/actor.mjs:64-68 | after both substitutions no "SL" and no "CL" is left in the formula |
| ActorDocument.SubstitutionCanFormDice | module/documents/actor.mjs:64-69 | substitution can create a "d6" the formula did not have: "1dSL" with skill level 6 becomes "1d6", which the dice test then finds |
| ActorDocument.MissingFormulaAddsNothing | module/documents/actor.mjs:63 | a skill without a formula for the ability, or with an empty one, adds nothing (the `|| "0"` default) |
| ActorDocument.FormulaOf | module/documents/actor.mjs:63 | `modifiers[key] || "0"`: the stored formula when it is a non-empty text, otherwise "0"; MissingFormulaAddsNothing shows that "0" adds nothing |
| ActorDocument.SplitDice | module/documents/actor.mjs:69-70 | `split("d6")` read at indices 0 and 1; SplitDiceParts shows the first part ends at the first "d6", the second ends at the next "d6" or the end, and neither holds "d6" |
| ActorDocument.TermOf | module/documents/actor.mjs:69-75 | one substituted formula's dice and flat parts, each part 0 when it evaluates to nothing; TermOfNumber and TermOfDiceFormula give its value on plain numbers and on "<n>d6+<m>" |
| ActorDocument.SkillTerm | module/documents/actor.mjs:63-75 | an active skill's term: default, two substitutions, split and evaluation; SkillLevelFormula, SkillTermExample and MissingFormulaAddsNothing pin it down on its cases |
| ActorDocument.TermOfNumber | module/documents/actor.mjs:73-74 | a formula that is a number without "d6" adds that number to the flat part and no dice |
| ActorDocument.TermOfDiceFormula | module/documents/actor.mjs:69-72 | "<n>d6+<m>" adds n dice and m to the flat part |
| ActorDocument.SplitDiceParts | module/documents/actor.mjs:69-72 | for a formula containing "d6": the dice part is the text before the first "d6"; the flat part is what follows it, either all of it or up to the next "d6"; neither contains "d6" |
| ActorDocument.NoTokensInNumber | module/documents/actor.mjs:64-68 | a printed level, negative or not, contains no "SL", no "CL" and no "d6" |
| ActorDocument.SkillLevelFormula | module/documents/actor.mjs:63-64 | an active skill whose formula is "SL" adds its level to the flat part and no dice |
| ActorDocument.SkillTermExample | module/documents/actor.mjs:63-75 | "SLd6+CL" with skill level 2 and character level 4 adds 2 dice and 4 flat |
| ActorDocument.SplitExample | module/documents/actor.mjs:69-70 | "2d6+4" splits into "2" and "+4" |
| ActorDocument.TermExample | module/documents/actor.mjs:69-72 | "2d6+4" gives 2 dice and 4 flat |
| ActorDocument.SubstituteExample | module/documents/actor.mjs:64-68 | "SLd6+CL" with levels 2 and 4 becomes "2d6+4" |
| ActorDocument.DeriveAbility | module/documents/actor.mjs:47-88 | the value is kept; class is the class modifier; the skill totals are those of the active skills only; score = bonus + class + skills; dice = 2 + skill dice, without clamping |
| ActorDocument.DeriveAbilityBonus | module/documents/actor.mjs:49 | the bonus is the value divided by 3, rounded down |
| ActorDocument.SkillsTotalAppend | module/documents/actor.mjs:61-77 | the skill totals of two lists concatenated are the sum of their totals |
| ActorDocument.SkillsTotal | module/documents/actor.mjs:58-77 | the `skillsFlat`/`skillsDice` accumulators; SkillsTotalAppend, SkillsTotalOrderIndependent, SkillsTotalSplice and SkillsTotalIgnoresInactive make it the sum of the active skills' terms, in any order |
| ActorDocument.SkillsTotalOrderIndependent | module/documents/actor.mjs:61-77 | any permutation of the items (same multiset) gives the same skill totals |
| ActorDocument.SkillsTotalSplice | module/documents/actor.mjs:61-77 | taking one item out of the middle of the list subtracts exactly its contribution from the totals |
| ActorDocument.SkillsTotalIgnoresInactive | module/documents/actor.mjs:57-62 | inactive skills and non-skill items do not change the totals |
| ActorDocument.DeactivateRemovesContribution | module/documents/actor.mjs:62 | switching one active skill off subtracts exactly its term from the totals |
| ActorDocument.DeriveAll | module/documents/actor.mjs:91-93 | every ability is recomputed and no ability is added or dropped |
| ActorDocument.DeriveAllIdempotent | module/documents/actor.mjs:90-93 | recomputing the abilities a second time changes nothing |
| ActorDocument.SeedCombat | module/documents/actor.mjs:96-117 | the snapshot starts with exactly the three checks and the four attributes |
| ActorDocument.FoldSkill | module/documents/actor.mjs:119-143 | folding one skill in adds and removes no check and no attribute |
| ActorDocument.FoldSkills | module/documents/actor.mjs:119-143 | folding the skills in item order adds and removes no check and no attribute; FoldSkillsChecks, FoldSkillsAttributes and FoldSkillsOrderIndependent give its values |
| ActorDocument.FoldSkillsChecks | module/documents/actor.mjs:119-133 | after the fold each check is its seed plus the skills' totals for it |
| ActorDocument.FoldSkillsAttributes | module/documents/actor.mjs:135-141 | while every formula evaluates, an attribute is its seed plus the skills' values |
| ActorDocument.UndefinedAttributeResets | module/documents/actor.mjs:139-140 | a formula that evaluates to nothing resets the attribute to 0 rather than leaving it unchanged |
| ActorDocument.ApplyAttribute | module/documents/actor.mjs:139-140 | `((a || 0) + eval(t)) || 0`: adds the value when the formula evaluates, and resets to 0 when it does not (UndefinedAttributeResets) |
| ActorDocument.AttributeFoldOrderDependent | module/documents/actor.mjs:139-140 | with one skill whose formula evaluates to nothing and one whose formula gives v, the attribute ends at v in one order and at 0 in the other |
| ActorDocument.AttributeOrderExample | module/documents/actor.mjs:135-141 | a blank " " and a "1" movement formula give movement 1 folded one way and 0 the other way |
| ActorDocument.AttributeTotalAppend | module/documents/actor.mjs:135-141 | the attribute values of two lists concatenated are the sum of their values |
| ActorDocument.AttributeTotal | module/documents/actor.mjs:135-141 | the sum of the active skills' evaluated attribute formulas; it adds over concatenation and ignores order (AttributeTotalAppend, AttributeTotalOrderIndependent) |
| ActorDocument.AttributeTotalOrderIndependent | module/documents/actor.mjs:135-141 | any permutation of the items gives the same attribute values |
| ActorDocument.FoldSkillsOrderIndependent | module/documents/actor.mjs:119-143 | any permutation of the skills folds to the same checks, and to the same attributes while every formula evaluates |
| ActorDocument.FoldSkillsIgnoresInactive | module/documents/actor.mjs:119-120 | inactive skills and non-skill items do not change the combat snapshot |
| ActorDocument.CombatWithoutSkills | module/documents/actor.mjs:95-143 | without active skills the snapshot is exactly its seeds |
| ActorDocument.CombatChecks | module/documents/actor.mjs:96-133 | hit check = (dexterity score, 2 dice), attack = (0, 2 dice), dodge = (agility score, 2 dice), each plus the active skills' totals |
| ActorDocument.CombatAttributes | module/documents/actor.mjs:110-141 | while the formulas evaluate: defences are 0, action points agility + perception score and movement strength score + 5, each plus the skills' values |
| ActorDocument.CombatOrderIndependent | module/documents/actor.mjs:95-154 | any permutation of the items gives the same checks, and the same whole snapshot while every attribute formula evaluates |
| ActorDocument.ComputeCombat | module/documents/actor.mjs:145-154 | the stored snapshot has exactly the three checks and the four attributes |
| ActorDocument.CalculateStatsIdempotent | module/documents/actor.mjs:90-155 | running the whole computation twice gives the same abilities and the same snapshot |
| ActorDocument.Actor.SkillContribution | module/documents/actor.mjs:61-77 | one skill's flat and dice contribution, as the specification term gives it |
| ActorDocument.Actor.CalculateAbility | module/documents/actor.mjs:47-88 | only the named ability changes, to its derived value |
| ActorDocument.Actor.CalculateAllAbilities | module/documents/actor.mjs:91-93 | every ability is replaced by its derived value |
| ActorDocument.Actor.FoldActiveSkills | module/documents/actor.mjs:119-143 | the loop over the skills computes the specification fold of checks and attributes |
| ActorDocument.Actor.CalculateStats | module/documents/actor.mjs:90-155 | the abilities are derived and a fresh snapshot is computed from them |
| ActorDocument.Actor.PrepareDerivedData | module/documents/actor.mjs:14-29 | a player gets derived abilities and a snapshot; any other actor is left untouched |
| ActorSheet.LevelCost | module/sheets/actor-sheet.mjs:124-129 | what the loop charges for reaching level l, 10 + 20 + ... + 10(l-1), is 5·l·(l-1) experience |
| ActorSheet.LevelCostMonotone | module/sheets/actor-sheet.mjs:124-129 | a higher level never costs less |
| ActorSheet.LevelUnique | module/sheets/actor-sheet.mjs:124-129 | an experience total earns exactly one level |
| ActorSheet.LevelMonotone | module/sheets/actor-sheet.mjs:124-129 | a larger experience total never earns a lower level |
| ActorSheet.LevelFromExperience | module/sheets/actor-sheet.mjs:122-135 | the loop ends at the level earned by the total, with lvl ≥ 1; the experience spent is 5·lvl·(lvl-1); what is left is below 10·lvl and not negative for a non-negative total; `remaining` is 5·lvl·(lvl+1) |
| ActorSheet.WithIcon | module/sheets/actor-sheet.mjs:80 | an item without an image gets the default icon, an image present is kept, nothing else changes |
| ActorSheet.OfKind | module/sheets/actor-sheet.mjs:79-99 | the filter keeps exactly the items of the kind |
| ActorSheet.OfKindAppend | module/sheets/actor-sheet.mjs:79-99 | the filter keeps the original order: it distributes over concatenation |
| ActorSheet.GearAndSkillsDisjoint | module/sheets/actor-sheet.mjs:81-83 | no item is both gear and a skill |
| ActorSheet.PrepareItems | module/sheets/actor-sheet.mjs:75-103 | every item gets its icon in place; gear is exactly the "item" items and skills exactly the "skill" items, in order |
| ActorSheet.NewItemData | module/sheets/actor-sheet.mjs:199-219 | without a type there is no item; otherwise it is named "New " + the capitalised type and keeps every other data entry, but not the type, as its system data |
| Equipment.CurrentIn | module/ui/equipment.js:29-31 | a slot shows an item exactly when its id is non-empty and names an item of the actor |
| Equipment.HandItems | module/ui/equipment.js:76-83 | both hands show the right-hand then the left-hand item, leaving out empty hands |
| Equipment.SlotsFor | module/ui/equipment.js:24-95 | at most two slots are offered; a single slot shows what the map holds there, the both-hands slot what both hands hold |
| Equipment.SlotsForKeys | module/ui/equipment.js:24-95 | head, body, support-armor, one, dual/both and accessory offer exactly their slots; any other value offers none |
| Equipment.OfferedSlotsAccepted | module/ui/equipment.js:131-143 | every offered slot is one the equip handler knows |
| Equipment.EquipInto | module/ui/equipment.js:129-144 | equipping removes no slot; a slot it adds is the chosen one or a hand and holds the item; no slot but the chosen one and the hands changes |
| Equipment.UnequipFrom | module/ui/equipment.js:116-121 | unequipping removes no slot; a slot it adds is the chosen one or a hand; no slot but the chosen one and the hands changes, and every slot it changes becomes empty |
| Equipment.EquipSingle | module/ui/equipment.js:132-139 | equipping into a single slot sets that slot to the item and no other |
| Equipment.EquipBothHands | module/ui/equipment.js:140-143 | equipping into both hands sets the right and the left hand and nothing else |
| Equipment.EquipUnknownSlot | module/ui/equipment.js:129-144 | no selected slot, or one the handler does not know, leaves the map unchanged |
| Equipment.UnequipClears | module/ui/equipment.js:116-121 | unequipping both hands clears both; any other slot clears only that slot |
| Equipment.UnequipUndoesEquip | module/ui/equipment.js:114-144 | unequipping the slot just equipped empties what was filled and keeps the rest |
| Equipment.EquippedItemIsShown | module/ui/equipment.js:20-150 | after an owned item is equipped into an offered slot, that slot shows the item |
| Equipment.EquipmentMenu.constructor | module/ui/equipment.js:2-8 | no slot is selected at first |
| Equipment.EquipmentMenu.SelectSlot | module/ui/equipment.js:108-112 | choosing a slot only records it |
| Equipment.EquipmentMenu.Equip | module/ui/equipment.js:128-150 | the map changes as the equip rule says; the window closes unless no slot was chosen |
| Equipment.EquipmentMenu.Unequip | module/ui/equipment.js:114-126 | the map changes as the unequip rule says |
| RollDice.WindowTitle | module/ui/roll_dice.js:3-9 | a title in the window options wins, then the dice options' title, then "Dice Roller" |
| RollDice.DiceMenu.constructor | module/ui/roll_dice.js:2-18 | the title is merged in and the modifier list is always a list |
| RollDice.DiceMenu.AddModifier | module/ui/roll_dice.js:39-53 | exactly one active, editable modifier is appended and the earlier ones are unchanged |
| RollDice.DiceMenu.RemoveModifier | module/ui/roll_dice.js:55-62 | the list becomes WithoutId of the old list: exactly the modifiers with another id, in their order (WithoutIdAppend) |
| RollDice.WithoutId | module/ui/roll_dice.js:58-60 | removal keeps exactly the modifiers with another id and never lengthens the list; by WithoutIdAppend it keeps them in order and once each |
| RollDice.WithoutIdAppend | module/ui/roll_dice.js:58-60 | removal distributes over concatenation, so the kept modifiers stay in their order; with WithoutId's own clauses on one modifier this fixes the result |
| RollDice.WithoutIdUnused | module/ui/roll_dice.js:58-60 | removing an id no modifier has changes nothing |
| RollDice.RemoveUndoesAdd | module/ui/roll_dice.js:43-60 | removing a freshly added modifier with a new id restores the list |
| RollDice.Ticked | module/ui/roll_dice.js:72-75 | after submission a modifier is active exactly when its box reads "on", and nothing else about it changes |
| RollDice.IsTicked | module/ui/roll_dice.js:72-75 | `form.get(id + "-active") === "on"`: a missing field is not ticked; Ticked uses it for every modifier |
| RollDice.ActiveOnly | module/ui/roll_dice.js:77 | the filter keeps exactly the active modifiers |
| RollDice.ActiveOnlyConcat | module/ui/roll_dice.js:77 | the filter distributes over concatenation, so it keeps the order of the modifiers |
| RollDice.SignTerm | module/ui/roll_dice.js:81-85 | each term is one sign, "-" exactly when the value starts with "-", then the rest of the value in parentheses |
| RollDice.StripSign | module/ui/roll_dice.js:82-83 | `replace(/^[-+]/, "")`: at most one leading sign is taken off; SignNormalisation shows the stripped value placed in the term |
| RollDice.SignNormalisation | module/ui/roll_dice.js:82-84 | a value starting with "-" gives "-(rest)", otherwise "+(rest)", with exactly one leading sign removed |
| RollDice.NoActiveFormula | module/ui/roll_dice.js:78-88 | with no active modifier the formula is the base formula, "d6" when none is given |
| RollDice.BuildFormula | module/ui/roll_dice.js:78-88 | the formula always starts with the base formula, "d6" when none is given |
| RollDice.Terms | module/ui/roll_dice.js:80-87 | the `map(...).join("")` of the active terms in order; FormulaAppend shows each trailing active modifier adds exactly its own term |
| RollDice.BaseFormula | module/ui/roll_dice.js:78 | `formula || "d6"`; NoActiveFormula shows it is the whole formula when no modifier is active |
| RollDice.FormulaAppend | module/ui/roll_dice.js:77-88 | a modifier added at the end adds its signed term to the formula if it is active, and nothing otherwise |
| RollDice.DiceMenu.Submit | module/ui/roll_dice.js:68-88 | the check boxes set the flags, and the formula is built from the updated list |
| ItemSheet.TemplatePath | module/sheets/item-sheet.mjs:22-25 | the path is the item template folder, then "/item-", the type and "-sheet.hbs" |
| ItemSheet.TemplateKind | module/sheets/item-sheet.mjs:22-25 | a path it accepts is the template path of the item type it returns |
| ItemSheet.TemplateNamesKind | module/sheets/item-sheet.mjs:22-25 | each item type has its own template path, from which the type is read back |
| ItemSheet.Normalise | module/sheets/item-sheet.mjs:48-57 | object-shaped rolls become an array with the same values in order; a missing list stays missing |
| ItemSheet.NormaliseIdempotent | module/sheets/item-sheet.mjs:48-57 | normalising twice is normalising once |
| ItemSheet.AddRollAsWritten | module/sheets/item-sheet.mjs:70-79 | the handler as written fails exactly on an object-shaped list; otherwise it stores an array of the old rolls followed by one empty roll |
| ItemSheet.AddRollAsWrittenFailsOnObject | module/sheets/item-sheet.mjs:72-75 | the handler as written fails on every object-shaped list, where the intended one appends to its values |
| ItemSheet.AddRoll | module/sheets/item-sheet.mjs:70-79 | one empty roll is appended to the rolls (to none when missing); wherever the handler as written succeeds, the results agree |
| ItemSheet.SpliceOne | module/sheets/item-sheet.mjs:88 | one entry goes when the index is inside the list or negative on a non-empty list; otherwise the list keeps its length |
| ItemSheet.SpliceInside | module/sheets/item-sheet.mjs:88 | an index inside the list removes exactly that entry and keeps the order of the rest |
| ItemSheet.SplicePastEnd | module/sheets/item-sheet.mjs:88 | an index at or past the end leaves the list unchanged |
| ItemSheet.SpliceFromEnd | module/sheets/item-sheet.mjs:88 | a negative index -k removes the k-th entry from the end; one reaching past the start is clamped to 0 and removes the first entry, and an empty list stays empty |
| ItemSheet.DeleteRoll | module/sheets/item-sheet.mjs:81-91 | a missing list makes the handler fail; any other becomes an array without the spliced entry |
| ItemSheet.TrimUpper | module/sheets/item-sheet.mjs:95-99 | trimming and upper-casing commute |
| ItemSheet.PassiveIgnoresCase | module/sheets/item-sheet.mjs:93-101 | the passive-timing rule ignores letter case |
| ItemSheet.IsPassive | module/sheets/item-sheet.mjs:95-100 | the timing trimmed and lower-cased equals "passive"; PassiveIgnoresCase and PassiveIgnoresSpace show that case, an already trimmed text and a leading space do not change the answer |
| ItemSheet.PassiveIgnoresSpace | module/sheets/item-sheet.mjs:93-101 | the passive-timing rule gives the same answer for a timing and its trimmed form, and ignores a space in front |
| ItemSheet.ItemSheetState.GetData | module/sheets/item-sheet.mjs:48-57 | a skill's rolls are normalised in place, other items' are untouched, and the values never change |
| ItemSheet.ItemSheetState.AddRollClicked | module/sheets/item-sheet.mjs:70-79 | the rolls become those of the intended add-roll |
| ItemSheet.ItemSheetState.DeleteRollClicked | module/sheets/item-sheet.mjs:81-91 | it succeeds exactly when rolls exist, and then stores them with the entry removed |
| ItemSheet.ItemSheetState.TimingChanged | module/sheets/item-sheet.mjs:93-101 | the skill is active exactly when its timing, trimmed and lower-cased, is "passive"; a missing timing is "" |
| Konosuba.InsertSpaces | module/konosuba.mjs:55 | the first character is kept, only spaces are added, at most one for every two characters |
| Konosuba.InsertSpacesAtBoundaries | module/konosuba.mjs:53-55 | the regular-expression scan inserts a space at exactly each position where a lower-case letter is followed by an upper-case one |
| Konosuba.InsertSpacesOnlySpaces | module/konosuba.mjs:54-55 | only spaces are inserted |
| Konosuba.InsertSpacesTail | module/konosuba.mjs:54-55 | the first character is kept and what follows it differs from the input only by spaces |
| Konosuba.RemoveSpaces | module/konosuba.mjs:54-55 | deleting the spaces keeps exactly the characters other than a space, and never lengthens the text |
| Konosuba.RemoveSpacesAppend | module/konosuba.mjs:54-55 | deleting spaces distributes over concatenation |
| Konosuba.CamelToTitle | module/konosuba.mjs:53-57 | the title starts with the input's first character upper-cased, every later character is a space or one of the input's, and at most one space is added for every two characters |
| Konosuba.CamelToTitleWithoutSpaces | module/konosuba.mjs:53-57 | deleting the spaces from the title gives the input, spaces deleted, with its first character upper-cased |
| Konosuba.CamelToTitleOfIdentifier | module/konosuba.mjs:53-57 | for a camel-case name without spaces, the title minus its spaces is the name with its first character upper-cased |
| Konosuba.IncludesIgnoresCase | module/konosuba.mjs:63-65 | the `includes` helper gives the same answer whatever the case of either text |
| Konosuba.IncludesIgnoringCase | module/konosuba.mjs:63-65 | the `includes` helper: Includes on both texts lower-cased, so true exactly when the lower-cased search occurs in the lower-cased text; IncludesIgnoresCase shows case does not matter |
| Konosuba.Contains | module/konosuba.mjs:59-61 | false for anything that is not an array; for an array, true exactly when the item is an element |
| Konosuba.SameKindIds | module/konosuba.mjs:144-146 | exactly the ids of the actor's other items of the created item's type |
| Konosuba.KeepExcept | module/konosuba.mjs:147-151 | exactly the items whose id is not deleted are kept |
| Konosuba.PreCreateItem | module/konosuba.mjs:141-165 | there is a resulting item list exactly when the item belongs to an actor |
| Konosuba.PreCreateDeduplicates | module/konosuba.mjs:143-164 | after a race or class is created the actor has no other item of that type, and every other item is still there |
| Konosuba.PreCreateOtherKinds | module/konosuba.mjs:141-165 | items without an actor, or of any type but race and class, delete nothing |
| Konosuba.InitiativeStep | module/konosuba.mjs:110-135 | a combatant with an initiative is skipped; one without an actor, or whose actor has no combat snapshot, stops the hook; any other gets its actor's action points |
| Konosuba.CombatantCreated | module/konosuba.mjs:120-135 | the created combatant gets its actor's action points (0 when missing) as initiative when it has none; otherwise it is unchanged |
| Konosuba.ActionPoints | module/konosuba.mjs:133 | `actionPoints || 0`: the snapshot's action points, 0 when missing; InitiativeFromAbilities gives its value for a player |
| Konosuba.InitiativeFromAbilities | module/documents/actor.mjs:113-115 | the action points a combatant takes as initiative are its actor's agility score plus perception score plus what the active skills add, while their formulas evaluate |
| Konosuba.CombatCreated | module/konosuba.mjs:110-119 | the hook keeps the number of combatants |
| Konosuba.HaltIndex | module/konosuba.mjs:111-117 | the first combatant that stops the hook, if any |
| Konosuba.CombatCreatedEffect | module/konosuba.mjs:110-119 | before the halting combatant every combatant is processed; from it on nothing changes |
| Konosuba.CombatCreatedKeepsSet | module/konosuba.mjs:111-112 | combatants that already have an initiative are never changed |
| Konosuba.HaltKeepsRest | module/konosuba.mjs:111-115 | once the combatant at the loop index halts the hook, the list is already the hook's result |
| Konosuba.StepAdvances | module/konosuba.mjs:111-117 | processing the combatant at the loop index extends the processed prefix by one without changing the result |
| Konosuba.Encounter.OnCreateCombat | module/konosuba.mjs:110-119 | the loop over the combatants leaves them as the specification of the hook says |

## Left out

- Arith.Eval: `eval` is replaced by an integer grammar of `+`, `-`, `*`, parentheses and signs. Two equal signs in a row (`++`, `--`, which JavaScript reads as increment and decrement operators) and numbers with a leading zero are syntax errors, as in strict-mode JavaScript. JavaScript's number semantics (division, decimals, exponents, `NaN`, coercions) and identifiers are not modelled. A blank text and a syntax error both read as "nothing" (`None`). In the source, blank text gives `undefined`, which `|| 0` turns into 0. A syntax error (`eval("2d6")` in the attribute branch of `calculateStats`, or `eval("abc")`) throws and aborts the computation; the model counts it as 0 and, for attributes, as a reset to 0.
- Host persistence (`actor.update`, `item.update`, `combatant.update`, `deleteEmbeddedDocuments`, `Item.create`) is modelled only as the state or data it requests. The wait between a request and its effect (`async`/`await`) is left out, as are `render` and the dialogs. `close` is the `isOpen` flag of the equipment window.
- Rolling dice, chat messages and the re-roll context menu are left out because they are host I/O and randomness. So are the "/doom" command, the `ready` hook and template preloading. Only the formula built before the roll is modelled.
- The dead `customRollsData` list built in `_prepareItems` is left out (module/sheets/actor-sheet.mjs:84-96). Its result is never stored. If a skill had no `customRolls` at all, that loop would throw; the item schema always gives the field a default array, so this is not modelled either.
- The sheet's roll-dice button only opens the dice window with default title and formula (module/sheets/actor-sheet.mjs:111-116), so it is left out.
- ActorSheet.LevelFromExperience: the input field delivers text, which JavaScript coerces to a number. The model takes an integer, so non-numeric or fractional input is not modelled.
- ItemSheet.DeleteRollClicked: the index is an integer. A data attribute that is not a number (`Number` gives `NaN`, which `splice` reads as 0) is not modelled.
- ItemSheet.IsPassive: white space is ignored through `trim`; a lemma covers a leading space and the trimmed form, and trailing white space is covered only by the contract of `Trim`.
- Strings.Trim: white space is the ASCII white space only. JavaScript's `trim` also removes Unicode spaces and line terminators.
- Strings.ToLower: case mapping is ASCII only. Unicode case mapping is not modelled.
- Strings.ToUpper and Strings.Capitalize: upper-casing is ASCII only as well. JavaScript's `toUpperCase` also maps letters such as "é" to "É", and some, such as "ß" to "SS", to more than one character, which would change the length these contracts fix; that is not modelled.
- RollDice.DiceMenu.Submit: the dice window closes after the roll (module/ui/roll_dice.js:108); that close is left out with the roll itself, and the dice menu has no open flag.
- ActorDocument.ComputeCombat: the order of the skills does not matter for the checks, nor for the attributes while every active skill's attribute formula evaluates (`CombatOrderIndependent`). As the source folds attributes, a formula that evaluates to nothing resets the attribute to 0, wiping the seed and the skills folded before it but not those after it, so the attributes can depend on order (`AttributeFoldOrderDependent`, `AttributeOrderExample`). The model keeps that behaviour and does not promise order independence for attributes in general.
- ActorSheet.WithIcon: a missing image (`null`, `undefined` or `""`) is modelled as the empty text.
- ActorDocument.ClassModFor: class modifiers and the stored class value are integers. `Number(...)` coercion of text, and falsy values other than 0, are not modelled.
- RollDice.DiceMenu.constructor: the dice options always exist. The source's fallback for missing dice options can never take effect, because `diceOptions.title` is read before it and would already have thrown.
- Konosuba.PreCreateDeduplicates requires item ids to be unique within an actor, as the host guarantees. Deletion is by id.
- Equipment.CurrentIn: the host's item lookup is a set of owned ids. A missing item shows as none, where the source gives `undefined`, which the template shows the same way.
- `getRollData`, `prepareData` and `prepareBaseData` are left out. They only call the host or do nothing.
- The npc branch of `prepareDerivedData` is modelled as doing nothing, as in the source.
- ActorDocument.Actor.CalculateStats, ActorDocument.Actor.PrepareDerivedData, ActorDocument.SeedCombat and ActorDocument.ComputeCombat require `HasCombatAbilities`: a player actor is taken to carry the dexterity, agility, perception and strength abilities, the abilities `calculateStats` reads by name; the actor data schema that declares them is not part of this model. The source reads their scores unguarded and would throw a `TypeError` when one is missing; that failure is not modelled.

## Findings

| source | as written | input that shows it | evidently intended | confidence | as-written member | corrected member |
|---|---|---|---|---|---|---|
| module/sheets/item-sheet.mjs:72-75 | the add-roll handler binds the rolls with `const` and then assigns `Object.values(rolls)` to that binding when they are object-shaped, which throws a `TypeError` | a skill whose `customRolls` is an object such as `{"0": {name: "a", formula: "1"}}` when "add roll" is clicked; `getData` normally turns it into an array first, so this needs an object-shaped value stored after the sheet was rendered | take the values as an array and append one empty roll | not executed; medium | ItemSheet.AddRollAsWrittenFailsOnObject | ItemSheet.AddRoll |
