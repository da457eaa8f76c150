/**
 * The item sheet: the template it renders, a skill's list of custom rolls
 * (which the host may hand over as an object keyed by position rather than
 * an array), and the rule that a passive skill is always active.
 */
module ItemSheet {
  import opened Wrappers
  import opened Strings

  // ---------------------------------------------------------------------
  // Template
  // ---------------------------------------------------------------------

  const TemplateDir := "systems/konosuba/templates/item"

  /** The sheet template of an item type: a `-sheet.hbs` file in the system's item template folder. */
  function TemplatePath(kind: string): (r: string)
    ensures StartsWith(r, TemplateDir + "/item-")
    ensures |r| == |TemplateDir| + |kind| + 16 && r[|r| - 10..] == "-sheet.hbs"
  {
    TemplateDir + "/item-" + kind + "-sheet.hbs"
  }

  /** The item type a template path was built for, if it is one. */
  function TemplateKind(path: string): (r: Option<string>)
    ensures r.Some? ==> TemplatePath(r.value) == path
  {
    var prefix := TemplateDir + "/item-";
    var suffix := "-sheet.hbs";
    if |path| >= |prefix| + |suffix| && path[..|prefix|] == prefix
       && path[|path| - |suffix|..] == suffix
    then
      var kind := path[|prefix|..|path| - |suffix|];
      assert path == prefix + kind + suffix;
      Some(kind)
    else None
  }

  /** Every item type has its own template, and the path names it. */
  lemma TemplateNamesKind(kind: string)
    ensures TemplateKind(TemplatePath(kind)) == Some(kind)
  {
    var prefix := TemplateDir + "/item-";
    var suffix := "-sheet.hbs";
    var path := TemplatePath(kind);
    assert path == prefix + kind + suffix;
    assert path[..|prefix|] == prefix;
    assert path[|path| - |suffix|..] == suffix;
    assert path[|prefix|..|path| - |suffix|] == kind;
  }

  // ---------------------------------------------------------------------
  // Custom rolls
  // ---------------------------------------------------------------------

  datatype CustomRoll = CustomRoll(name: string, formula: string)

  const EmptyRoll := CustomRoll("", "")

  /**
   * A skill's `customRolls` as stored: missing, an array, or an object whose
   * values (in key order) are the rolls.
   */
  datatype Rolls = Absent | AsArray(rolls: seq<CustomRoll>) | AsObject(values: seq<CustomRoll>)

  /** The rolls in order; a missing list has none. */
  function Values(r: Rolls): seq<CustomRoll> {
    match r
    case Absent => []
    case AsArray(s) => s
    case AsObject(v) => v
  }

  /** `getData`: object-shaped rolls become the array of their values. */
  function Normalise(r: Rolls): (n: Rolls)
    ensures !n.AsObject?
    ensures Values(n) == Values(r)
    ensures r.Absent? <==> n.Absent?
  {
    if r.AsObject? then AsArray(r.values) else r
  }

  /** Normalising twice is normalising once. */
  lemma NormaliseIdempotent(r: Rolls)
    ensures Normalise(Normalise(r)) == Normalise(r)
  {
  }

  /**
   * "Add roll" as the source writes it: a missing list starts empty, an
   * array gets the new roll; an object-shaped list reaches an assignment to
   * a constant binding and the handler throws (`None`).
   */
  function AddRollAsWritten(r: Rolls): (n: Option<Rolls>)
    ensures n.None? <==> r.AsObject?
    ensures n.Some? ==> n.value.AsArray? && Values(n.value) == Values(r) + [EmptyRoll]
  {
    match r
    case Absent => Some(AsArray([EmptyRoll]))
    case AsArray(s) => Some(AsArray(s + [EmptyRoll]))
    case AsObject(_) => None
  }

  /** The add-roll handler fails on every object-shaped list. */
  lemma AddRollAsWrittenFailsOnObject(v: seq<CustomRoll>)
    ensures AddRollAsWritten(AsObject(v)) == None
    ensures Values(AddRoll(AsObject(v))) == v + [EmptyRoll]
  {
  }

  /** "Add roll" as intended: the rolls, normalised, with one empty roll after them. */
  function AddRoll(r: Rolls): (n: Rolls)
    ensures n.AsArray?
    ensures Values(n) == Values(r) + [EmptyRoll]
    ensures AddRollAsWritten(r).Some? ==> AddRollAsWritten(r).value == n
  {
    AsArray(Values(r) + [EmptyRoll])
  }

  /**
   * `Array.prototype.splice(index, 1)`: a negative index counts from the
   * end (and stops at 0), and an index at or past the end removes nothing.
   */
  function SpliceOne<T>(s: seq<T>, index: int): (r: seq<T>)
    ensures |r| == if (index < 0 && s != []) || 0 <= index < |s| then |s| - 1 else |s|
  {
    var start := if index < 0 then (if |s| + index < 0 then 0 else |s| + index) else index;
    if start < |s| then s[..start] + s[start + 1..] else s
  }

  /** For an index inside the list, exactly that entry goes and the rest keep their order. */
  lemma SpliceInside<T>(s: seq<T>, index: int)
    requires 0 <= index < |s|
    ensures SpliceOne(s, index) == s[..index] + s[index + 1..]
    ensures forall k :: 0 <= k < index ==> SpliceOne(s, index)[k] == s[k]
    ensures forall k :: index <= k < |s| - 1 ==> SpliceOne(s, index)[k] == s[k + 1]
  {
  }

  /** An index at or past the end leaves the list as it is. */
  lemma SplicePastEnd<T>(s: seq<T>, index: int)
    requires index >= |s|
    ensures SpliceOne(s, index) == s
  {
  }

  /**
   * A negative index `-k` removes the k-th entry from the end; one reaching
   * past the front stops at index 0 and removes the first entry.
   */
  lemma SpliceFromEnd<T>(s: seq<T>, k: int)
    requires 0 < k
    ensures k <= |s| ==> SpliceOne(s, -k) == s[..|s| - k] + s[|s| - k + 1..]
    ensures k > |s| ==> SpliceOne(s, -k) == if s == [] then [] else s[1..]
  {
  }

  /**
   * "Delete roll": the list is copied (a missing one cannot be, and the
   * handler throws: `None`), normalised, and has the entry at `index`
   * spliced out.
   */
  function DeleteRoll(r: Rolls, index: int): (n: Option<Rolls>)
    ensures n.Some? <==> !r.Absent?
    ensures n.Some? ==> n.value == AsArray(SpliceOne(Values(r), index))
  {
    if r.Absent? then None else Some(AsArray(SpliceOne(Values(r), index)))
  }

  // ---------------------------------------------------------------------
  // Timing
  // ---------------------------------------------------------------------

  /** A skill whose timing reads "passive" (in any case, with any surrounding space) is active. */
  function IsPassive(timing: string): bool {
    ToLower(Trim(timing)) == "passive"
  }

  lemma UpperKeepsSpace(s: string)
    ensures forall k :: 0 <= k < |s| ==> (IsSpace(ToUpper(s)[k]) <==> IsSpace(s[k]))
  {
  }

  lemma {:induction false} SpacePrefixUpper(s: string)
    ensures SpacePrefix(ToUpper(s)) == SpacePrefix(s)
    decreases |s|
  {
    UpperKeepsSpace(s);
    if s != [] && IsSpace(s[0]) {
      assert ToUpper(s)[1..] == ToUpper(s[1..]);
      SpacePrefixUpper(s[1..]);
    }
  }

  lemma {:induction false} SpaceSuffixUpper(s: string)
    ensures SpacePrefixOfReverse(ToUpper(s)) == SpacePrefixOfReverse(s)
    decreases |s|
  {
    UpperKeepsSpace(s);
    if s != [] && IsSpace(s[|s| - 1]) {
      assert ToUpper(s)[..|s| - 1] == ToUpper(s[..|s| - 1]);
      SpaceSuffixUpper(s[..|s| - 1]);
    }
  }

  /** Trimming and upper-casing commute. */
  lemma TrimUpper(s: string)
    ensures Trim(ToUpper(s)) == ToUpper(Trim(s))
  {
    var i := SpacePrefix(s);
    var j := |s| - SpacePrefixOfReverse(s[i..]);
    TrimAt(s, i, j);
    SpacePrefixUpper(s);
    hide Trim, ToUpper;
    UpperSlice(s, i, |s|);
    assert s[i..|s|] == s[i..] && ToUpper(s)[i..|s|] == ToUpper(s)[i..];
    SpaceSuffixUpper(s[i..]);
    TrimAt(ToUpper(s), i, j);
    UpperSlice(s, i, j);
  }

  /** The timing rule trims first, so trimming before it, or leading white space, changes nothing. */
  lemma PassiveIgnoresSpace(timing: string)
    ensures IsPassive(Trim(timing)) == IsPassive(timing)
    ensures IsPassive([' '] + timing) == IsPassive(timing)
  {
    TrimIdempotent(timing);
    TrimLeadingSpace(timing);
  }

  /** The timing rule ignores letter case. */
  lemma PassiveIgnoresCase(timing: string)
    ensures IsPassive(ToUpper(timing)) == IsPassive(timing)
  {
    TrimUpper(timing);
    LowerOfUpper(Trim(timing));
  }

  /** The document whose sheet is open: its type and the fields the sheet edits. */
  class ItemSheetState {
    const kind: string
    var customRolls: Rolls
    var active: bool

    constructor(kind: string, customRolls: Rolls, active: bool)
      ensures this.kind == kind && this.customRolls == customRolls && this.active == active
    {
      this.kind := kind;
      this.customRolls := customRolls;
      this.active := active;
    }

    /** The rendered template. */
    function Template(): string
      reads this
    {
      TemplatePath(kind)
    }

    /** `getData`: a skill's object-shaped rolls are turned into an array in place. */
    method GetData()
      modifies this`customRolls
      ensures customRolls == if kind == "skill" then Normalise(old(customRolls)) else old(customRolls)
      ensures Values(customRolls) == Values(old(customRolls))
    {
      if kind == "skill" && customRolls.AsObject? {
        customRolls := AsArray(customRolls.values);
      }
    }

    /** "Add roll", with the intended behaviour on object-shaped lists. */
    method AddRollClicked()
      modifies this`customRolls
      ensures customRolls == AddRoll(old(customRolls))
    {
      customRolls := AsArray(Values(customRolls) + [EmptyRoll]);
    }

    /** "Delete roll"; when the handler throws nothing is stored. */
    method DeleteRollClicked(index: int) returns (ok: bool)
      modifies this`customRolls
      ensures ok <==> !old(customRolls).Absent?
      ensures customRolls == DeleteRoll(old(customRolls), index).GetOr(old(customRolls))
    {
      if customRolls.Absent? {
        return false;
      }
      customRolls := AsArray(SpliceOne(Values(customRolls), index));
      return true;
    }

    /** A change of the timing field; a missing value reads as "". */
    method TimingChanged(timing: Option<string>)
      modifies this`active
      ensures active == IsPassive(timing.GetOr(""))
    {
      active := IsPassive(timing.GetOr(""));
    }
  }
}
