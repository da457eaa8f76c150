/**
 * The dice roller window: its list of named modifiers, and the roll
 * formula it builds from the base formula and the active modifiers.
 */
module RollDice {
  import opened Wrappers
  import opened Strings

  datatype Modifier = Modifier(id: string, name: string, value: string, active: bool, editable: bool)

  /** The window title when neither the caller nor the dice options give one. */
  const DefaultTitle := "Dice Roller"

  /**
   * The window title: a title in the window options wins, then the dice
   * options' title, then the default.  An empty title counts as none.
   */
  function WindowTitle(diceTitle: string, optionsTitle: Option<string>): (r: string)
    ensures optionsTitle.Some? ==> r == optionsTitle.value
    ensures optionsTitle.None? && diceTitle != "" ==> r == diceTitle
    ensures optionsTitle.None? && diceTitle == "" ==> r == DefaultTitle
  {
    match optionsTitle
    case Some(t) => t
    case None => if diceTitle != "" then diceTitle else DefaultTitle
  }

  /** The modifiers whose id differs from `id`, in their order. */
  function WithoutId(mods: seq<Modifier>, id: string): (r: seq<Modifier>)
    ensures |r| <= |mods|
    ensures forall m :: m in r <==> m in mods && m.id != id
    decreases |mods|
  {
    if mods == [] then []
    else
      var last := mods[|mods| - 1];
      assert mods == mods[..|mods| - 1] + [last];
      WithoutId(mods[..|mods| - 1], id) + (if last.id != id then [last] else [])
  }

  /**
   * Removal keeps the kept modifiers in their order: it distributes over
   * concatenation, so with the membership clause of `WithoutId` on a single
   * modifier it determines the whole result.
   */
  lemma {:induction false} WithoutIdAppend(a: seq<Modifier>, b: seq<Modifier>, id: string)
    ensures WithoutId(a + b, id) == WithoutId(a, id) + WithoutId(b, id)
    decreases |b|
  {
    if b == [] {
      assert a + b == a;
    } else {
      var init, last := b[..|b| - 1], b[|b| - 1];
      var tail := if last.id != id then [last] else [];
      assert (a + b)[..|a + b| - 1] == a + init && (a + b)[|a + b| - 1] == last;
      assert WithoutId(a + b, id) == WithoutId(a + init, id) + tail;
      assert WithoutId(b, id) == WithoutId(init, id) + tail;
      WithoutIdAppend(a, init, id);
      assert WithoutId(a, id) + WithoutId(init, id) + tail == WithoutId(a, id) + (WithoutId(init, id) + tail);
    }
  }

  /** Removing a modifier whose id no other modifier has undoes adding it. */
  lemma {:induction false} RemoveUndoesAdd(mods: seq<Modifier>, m: Modifier)
    requires forall k :: 0 <= k < |mods| ==> mods[k].id != m.id
    ensures WithoutId(mods + [m], m.id) == mods
    decreases |mods|
  {
    assert (mods + [m])[..|mods|] == mods;
    WithoutIdUnused(mods, m.id);
  }

  /** Removing an id nobody has changes nothing. */
  lemma {:induction false} WithoutIdUnused(mods: seq<Modifier>, id: string)
    requires forall k :: 0 <= k < |mods| ==> mods[k].id != id
    ensures WithoutId(mods, id) == mods
    decreases |mods|
  {
    if mods != [] {
      var init, last := mods[..|mods| - 1], mods[|mods| - 1];
      assert forall k :: 0 <= k < |init| ==> init[k].id != id by {
        forall k | 0 <= k < |init|
          ensures init[k].id != id
        {
          assert init[k] == mods[k];
        }
      }
      WithoutIdUnused(init, id);
      assert WithoutId(mods, id) == WithoutId(init, id) + [last];
      assert init + [last] == mods;
    }
  }

  /** The submitted form ticks a modifier's box with the value "on". */
  predicate IsTicked(form: map<string, string>, id: string) {
    id + "-active" in form && form[id + "-active"] == "on"
  }

  /**
   * Every modifier with `active` set from its check box: after submission a
   * modifier is active exactly when its box was ticked, and nothing else
   * about it changes.
   */
  function Ticked(mods: seq<Modifier>, form: map<string, string>): (r: seq<Modifier>)
    ensures |r| == |mods|
    ensures forall k :: 0 <= k < |mods| ==>
              && r[k].active == IsTicked(form, mods[k].id)
              && r[k].(active := mods[k].active) == mods[k]
  {
    seq(|mods|, k requires 0 <= k < |mods| => mods[k].(active := IsTicked(form, mods[k].id)))
  }

  /** The active modifiers, in their order. */
  function ActiveOnly(mods: seq<Modifier>): (r: seq<Modifier>)
    ensures |r| <= |mods|
    ensures forall m :: m in r <==> m in mods && m.active
    decreases |mods|
  {
    if mods == [] then []
    else
      var last := mods[|mods| - 1];
      assert mods == mods[..|mods| - 1] + [last];
      ActiveOnly(mods[..|mods| - 1]) + (if last.active then [last] else [])
  }

  /** The filter keeps order: filtering a concatenation concatenates the filtered parts. */
  lemma {:induction false} ActiveOnlyConcat(a: seq<Modifier>, b: seq<Modifier>)
    ensures ActiveOnly(a + b) == ActiveOnly(a) + ActiveOnly(b)
    decreases |b|
  {
    if b == [] {
      assert a + b == a;
    } else {
      var init, last := b[..|b| - 1], b[|b| - 1];
      var tail := if last.active then [last] else [];
      assert (a + b)[..|a + b| - 1] == a + init && (a + b)[|a + b| - 1] == last;
      assert ActiveOnly(a + b) == ActiveOnly(a + init) + tail;
      assert ActiveOnly(b) == ActiveOnly(init) + tail;
      ActiveOnlyConcat(a, init);
      assert ActiveOnly(a) + ActiveOnly(init) + tail == ActiveOnly(a) + (ActiveOnly(init) + tail);
    }
  }

  /** The value's text without one leading "+" or "-". */
  function StripSign(v: string): string {
    if v != [] && (v[0] == '-' || v[0] == '+') then v[1..] else v
  }

  /**
   * One modifier in the formula: its sign, then the rest of its value in
   * parentheses.  The term always opens with exactly one sign.
   */
  function SignTerm(v: string): (r: string)
    ensures |r| == |StripSign(v)| + 3
    ensures (r[0] == '-' <==> StartsWith(v, "-")) && (r[0] == '+' <==> !StartsWith(v, "-"))
    ensures r[1] == '(' && r[|r| - 1] == ')'
  {
    var sign := if StartsWith(v, "-") then "-" else "+";
    sign + "(" + StripSign(v) + ")"
  }

  /** Sign normalisation: exactly one leading sign is taken off, and a missing sign is "+". */
  lemma SignNormalisation(v: string)
    ensures SignTerm("-" + v) == "-(" + v + ")"
    ensures SignTerm("+" + v) == "+(" + v + ")"
    ensures v == [] || (v[0] != '-' && v[0] != '+') ==> SignTerm(v) == "+(" + v + ")"
  {
    assert ("-" + v)[..1] == "-" && ("-" + v)[1..] == v;
    assert ("+" + v)[..1] == "+" && ("+" + v)[1..] == v;
    if v != [] {
      assert v[..1][0] == v[0];
    }
  }

  /** The terms of the modifiers, joined without separator. */
  function Terms(mods: seq<Modifier>): string
    decreases |mods|
  {
    if mods == [] then ""
    else Terms(mods[..|mods| - 1]) + SignTerm(mods[|mods| - 1].value)
  }

  /** The formula typed in, defaulting to "d6" when there is none. */
  function BaseFormula(formula: string): string {
    if formula == "" then "d6" else formula
  }

  /** The roll formula: the base, then one signed term per active modifier. */
  function BuildFormula(formula: string, mods: seq<Modifier>): (r: string)
    ensures StartsWith(r, BaseFormula(formula))
  {
    var active := ActiveOnly(mods);
    BaseFormula(formula) + (if |active| > 0 then Terms(active) else "")
  }

  /** With no active modifier the formula is just the base formula. */
  lemma {:induction false} NoActiveFormula(formula: string, mods: seq<Modifier>)
    requires forall k :: 0 <= k < |mods| ==> !mods[k].active
    ensures BuildFormula(formula, mods) == BaseFormula(formula)
    decreases |mods|
  {
    InactiveDropped(mods);
  }

  lemma {:induction false} InactiveDropped(mods: seq<Modifier>)
    requires forall k :: 0 <= k < |mods| ==> !mods[k].active
    ensures ActiveOnly(mods) == []
    decreases |mods|
  {
    if mods != [] {
      InactiveDropped(mods[..|mods| - 1]);
    }
  }

  /**
   * The formula grows by one term for an active modifier added at the end,
   * and not at all for an inactive one.
   */
  lemma FormulaAppend(formula: string, mods: seq<Modifier>, m: Modifier)
    ensures BuildFormula(formula, mods + [m])
            == BuildFormula(formula, mods) + (if m.active then SignTerm(m.value) else "")
  {
    var active := ActiveOnly(mods);
    var base := BaseFormula(formula);
    ActiveOnlyAppend(mods, m);
    TermsAppend(active, m);
    hide ActiveOnly, Terms, SignTerm, BaseFormula;
    var before := if |active| > 0 then Terms(active) else "";
    assert BuildFormula(formula, mods) == base + before;
    if m.active {
      assert BuildFormula(formula, mods + [m]) == base + Terms(active + [m]);
      if |active| == 0 {
        assert active + [m] == [m] && Terms(active) == "";
      }
      assert base + (before + SignTerm(m.value)) == (base + before) + SignTerm(m.value);
    } else {
      assert active + [] == active;
      assert (base + before) + "" == base + before;
    }
  }

  /** A modifier added at the end is kept by the filter exactly when it is active. */
  lemma ActiveOnlyAppend(mods: seq<Modifier>, m: Modifier)
    ensures ActiveOnly(mods + [m]) == ActiveOnly(mods) + (if m.active then [m] else [])
  {
    assert (mods + [m])[..|mods|] == mods;
  }

  /** The terms of a list grown at the end gain the last modifier's term. */
  lemma TermsAppend(active: seq<Modifier>, m: Modifier)
    ensures Terms(active + [m]) == Terms(active) + SignTerm(m.value)
    ensures Terms([]) == ""
  {
    assert (active + [m])[..|active|] == active;
  }

  /** The roller window of one actor. */
  class DiceMenu {
    var title: string
    /** The base formula from the dice options; empty when there is none. */
    var formula: string
    var modifiers: seq<Modifier>

    /** The constructor: the dice options' title is merged in, and `modifiers` defaults to none. */
    constructor(diceTitle: string, formula: string, modifiers: Option<seq<Modifier>>, optionsTitle: Option<string>)
      ensures title == WindowTitle(diceTitle, optionsTitle)
      ensures this.formula == formula
      ensures this.modifiers == modifiers.GetOr([])
    {
      title := WindowTitle(diceTitle, optionsTitle);
      this.formula := formula;
      this.modifiers := modifiers.GetOr([]);
    }

    /** "Add modifier": one new active, editable modifier at the end; `id` is the host's random id. */
    method AddModifier(id: string, name: string, value: string)
      modifies this`modifiers
      ensures modifiers == old(modifiers) + [Modifier(id, name, value, true, true)]
    {
      modifiers := modifiers + [Modifier(id, name, value, true, true)];
    }

    /** "Remove modifier": every modifier with that id goes. */
    method RemoveModifier(id: string)
      modifies this`modifiers
      ensures modifiers == WithoutId(old(modifiers), id)
    {
      modifiers := WithoutId(modifiers, id);
    }

    /** Submitting the form: the check boxes set `active`, then the formula is built. */
    method Submit(form: map<string, string>) returns (rollFormula: string)
      modifies this`modifiers
      ensures modifiers == Ticked(old(modifiers), form)
      ensures rollFormula == BuildFormula(formula, modifiers)
    {
      var i := 0;
      while i < |modifiers|
        invariant 0 <= i <= |modifiers| == |old(modifiers)|
        invariant forall k :: 0 <= k < i ==> modifiers[k] == Ticked(old(modifiers), form)[k]
        invariant forall k :: i <= k < |modifiers| ==> modifiers[k] == old(modifiers)[k]
      {
        modifiers := modifiers[i := modifiers[i].(active := IsTicked(form, modifiers[i].id))];
        i := i + 1;
      }
      rollFormula := BuildFormula(formula, modifiers);
    }
  }
}
