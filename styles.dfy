/** Style ids, cell roles, style rules, the rule registry (the `Add`
    extension on a list of rules) and the style resolver `GetCellStyle`. */
module Styles {
  import opened Wrappers

  /** The style ids of the generated style sheet. */
  datatype CellStyle =
    | Default | Bold | Italic | TimesRoman | YellowFill
    | Alignment | Border | LiteBlueFill | NavyFill | AlignmentWithBorder
  {
    /** The numeric value of the enumeration member. */
    function Id(): nat {
      match this
      case Default => 0
      case Bold => 1
      case Italic => 2
      case TimesRoman => 3
      case YellowFill => 4
      case Alignment => 5
      case Border => 6
      case LiteBlueFill => 7
      case NavyFill => 8
      case AlignmentWithBorder => 9
    }
  }

  /** The role a style is looked up for. */
  datatype CellType = Header | Row

  /** A style rule: a target name (a nullable string), the style for header
      cells and for row cells, and an optional column index. */
  datatype SetStyle = SetStyle(name: Option<string>, headerStyle: CellStyle, rowStyle: CellStyle, columnIndex: Option<int>)

  /** The duplicate test of `Add`, as written: same name, and the column
      indices equal when both are present, otherwise both absent. */
  predicate SameRule(rule: SetStyle, name: Option<string>, columnIndex: Option<int>) {
    && rule.name == name
    && (if columnIndex.Some? && rule.columnIndex.Some?
        then rule.columnIndex.value == columnIndex.value
        else columnIndex == rule.columnIndex)
  }

  /** Some rule of the list already has this (name, column index). */
  predicate Registered(list: seq<SetStyle>, name: Option<string>, columnIndex: Option<int>) {
    exists i :: 0 <= i < |list| && SameRule(list[i], name, columnIndex)
  }

  /** No two rules of the list share (name, column index). */
  predicate KeysUnique(list: seq<SetStyle>) {
    forall i, j :: 0 <= i < j < |list| ==> (list[i].name, list[i].columnIndex) != (list[j].name, list[j].columnIndex)
  }

  /** The list after `Add`. */
  function Added(list: seq<SetStyle>, name: Option<string>, headerStyle: CellStyle, rowStyle: CellStyle, columnIndex: Option<int>): (r: seq<SetStyle>)
    ensures |list| <= |r| <= |list| + 1 && r[..|list|] == list
    ensures Registered(r, name, columnIndex)
  {
    if Registered(list, name, columnIndex) then list
    else
      var r := list + [SetStyle(name, headerStyle, rowStyle, columnIndex)];
      assert SameRule(r[|list|], name, columnIndex);
      r
  }

  /** A caller-owned list of rules, extended in place by `Add`. */
  class StyleList {
    var items: seq<SetStyle>

    constructor ()
      ensures items == []
    {
      items := [];
    }

    /** Appends the rule unless one with the same name and column index is
        already present. */
    method Add(name: Option<string>, headerStyle: CellStyle, rowStyle: CellStyle, columnIndex: Option<int>)
      modifies this
      ensures items == Added(old(items), name, headerStyle, rowStyle, columnIndex)
    {
      if !Registered(items, name, columnIndex) {
        items := items + [SetStyle(name, headerStyle, rowStyle, columnIndex)];
      }
    }
  }

  /** The duplicate test is plain equality of the (name, column index) key. */
  lemma SameRuleIsKeyEquality(rule: SetStyle, name: Option<string>, columnIndex: Option<int>)
    ensures SameRule(rule, name, columnIndex) <==> (rule.name, rule.columnIndex) == (name, columnIndex)
  {
    if columnIndex.Some? && rule.columnIndex.Some? {
      assert rule.columnIndex == columnIndex <==> rule.columnIndex.value == columnIndex.value;
    }
  }

  /** An existing key leaves the list unchanged; a new key appends exactly
      the given rule at the end. */
  lemma AddedCases(list: seq<SetStyle>, name: Option<string>, headerStyle: CellStyle, rowStyle: CellStyle, columnIndex: Option<int>)
    ensures (exists i :: 0 <= i < |list| && (list[i].name, list[i].columnIndex) == (name, columnIndex))
            ==> Added(list, name, headerStyle, rowStyle, columnIndex) == list
    ensures (forall i :: 0 <= i < |list| ==> (list[i].name, list[i].columnIndex) != (name, columnIndex))
            ==> Added(list, name, headerStyle, rowStyle, columnIndex) == list + [SetStyle(name, headerStyle, rowStyle, columnIndex)]
  {
    forall i | 0 <= i < |list| {
      SameRuleIsKeyEquality(list[i], name, columnIndex);
    }
  }

  /** `Add` keeps the keys of the list unique. */
  lemma AddedKeepsKeysUnique(list: seq<SetStyle>, name: Option<string>, headerStyle: CellStyle, rowStyle: CellStyle, columnIndex: Option<int>)
    requires KeysUnique(list)
    ensures KeysUnique(Added(list, name, headerStyle, rowStyle, columnIndex))
  {
    AddedCases(list, name, headerStyle, rowStyle, columnIndex);
  }

  /** First registration wins: adding a key that is present again, whatever
      its styles, changes nothing, so the stored styles stay the first ones. */
  lemma FirstRegistrationWins(list: seq<SetStyle>, name: Option<string>, h1: CellStyle, r1: CellStyle, h2: CellStyle, r2: CellStyle, columnIndex: Option<int>)
    ensures var once := Added(list, name, h1, r1, columnIndex);
            Added(once, name, h2, r2, columnIndex) == once
  {
  }

  /** An indexed rule and an unindexed rule with the same name are different
      keys: ("X", none) after ("X", 3) is appended. */
  lemma IndexedAndUnindexedDistinct(name: Option<string>, index: int, headerStyle: CellStyle, rowStyle: CellStyle)
    ensures var list := [SetStyle(name, headerStyle, rowStyle, Some(index))];
            Added(list, name, headerStyle, rowStyle, None) == list + [SetStyle(name, headerStyle, rowStyle, None)]
  {
    var list := [SetStyle(name, headerStyle, rowStyle, Some(index))];
    assert !SameRule(list[0], name, None);
  }

  // ---------------------------------------------------------------------
  // The style resolver

  /** The style a rule gives to a role. */
  function RoleStyle(rule: SetStyle, cellType: CellType): (s: CellStyle)
    ensures cellType == Header ==> s == rule.headerStyle
    ensures cellType == Row ==> s == rule.rowStyle
  {
    match cellType
    case Header => rule.headerStyle
    case Row => rule.rowStyle
  }

  /** The position of the first rule whose name is the target (|list| when
      there is none). */
  function FirstNamed(list: seq<SetStyle>, target: Option<string>): (k: nat)
    ensures k <= |list|
    ensures k < |list| ==> list[k].name == target
    ensures forall j :: 0 <= j < k ==> list[j].name != target
  {
    if list == [] then 0
    else if list[0].name == target then 0
    else 1 + FirstNamed(list[1..], target)
  }

  /** `GetCellStyle`: the role's style of the first rule named like the
      target, else 9 for a header and 6 for a row.  The column index of a
      rule plays no part. */
  function GetCellStyle(setStyles: Option<seq<SetStyle>>, dataSetName: Option<string>, cellType: CellType): (r: nat)
    ensures setStyles.None? ==> r == (if cellType == Header then AlignmentWithBorder.Id() else Border.Id())
    ensures || r == (if cellType == Header then AlignmentWithBorder.Id() else Border.Id())
            || (setStyles.Some? && exists i :: 0 <= i < |setStyles.value| && setStyles.value[i].name == dataSetName
                                               && r == RoleStyle(setStyles.value[i], cellType).Id())
  {
    if setStyles.Some? && FirstNamed(setStyles.value, dataSetName) < |setStyles.value| then
      RoleStyle(setStyles.value[FirstNamed(setStyles.value, dataSetName)], cellType).Id()
    else
      match cellType
      case Header => AlignmentWithBorder.Id()
      case Row => Border.Id()
  }

  /** The resolver answers with the role's style of the first rule whose
      name is the target, and with 9 (header) or 6 (row) when no rule has
      that name or there is no list. */
  lemma GetCellStyleFirstMatch(setStyles: Option<seq<SetStyle>>, dataSetName: Option<string>, cellType: CellType)
    ensures setStyles.None? || (forall i :: 0 <= i < |setStyles.value| ==> setStyles.value[i].name != dataSetName)
            ==> GetCellStyle(setStyles, dataSetName, cellType) == (if cellType == Header then AlignmentWithBorder.Id() else Border.Id())
    ensures setStyles.Some? ==>
            forall i :: 0 <= i < |setStyles.value| && setStyles.value[i].name == dataSetName
                        && (forall j :: 0 <= j < i ==> setStyles.value[j].name != dataSetName)
                        ==> GetCellStyle(setStyles, dataSetName, cellType) == RoleStyle(setStyles.value[i], cellType).Id()
  {
    if setStyles.Some? {
      var k := FirstNamed(setStyles.value, dataSetName);
      forall i | 0 <= i < |setStyles.value| && setStyles.value[i].name == dataSetName
                 && (forall j :: 0 <= j < i ==> setStyles.value[j].name != dataSetName)
        ensures i == k
      {
      }
    }
  }

  /** Rules that agree in names and styles give the same lookups, whatever
      their column indices. */
  lemma GetCellStyleIgnoresColumnIndex(s: seq<SetStyle>, t: seq<SetStyle>, target: Option<string>, cellType: CellType)
    requires |s| == |t|
    requires forall i :: 0 <= i < |s| ==> s[i].(columnIndex := None) == t[i].(columnIndex := None)
    ensures GetCellStyle(Some(s), target, cellType) == GetCellStyle(Some(t), target, cellType)
  {
    forall i | 0 <= i < |s| ensures s[i].name == t[i].name && RoleStyle(s[i], cellType) == RoleStyle(t[i], cellType) {
      assert s[i].(columnIndex := None).name == t[i].(columnIndex := None).name;
      assert s[i].(columnIndex := None).headerStyle == t[i].(columnIndex := None).headerStyle;
      assert s[i].(columnIndex := None).rowStyle == t[i].(columnIndex := None).rowStyle;
    }
    var k := FirstNamed(s, target);
    if k < |s| {
      assert forall j :: 0 <= j < k ==> t[j].name != target;
    } else {
      assert forall i :: 0 <= i < |t| ==> t[i].name != target;
    }
  }

  /** Registering a rule never changes the lookup of a name that already has
      a rule: the first rule with that name stays first. */
  lemma AddedKeepsLookup(list: seq<SetStyle>, name: Option<string>, headerStyle: CellStyle, rowStyle: CellStyle, columnIndex: Option<int>, target: Option<string>, cellType: CellType)
    requires exists i :: 0 <= i < |list| && list[i].name == target
    ensures GetCellStyle(Some(Added(list, name, headerStyle, rowStyle, columnIndex)), target, cellType)
            == GetCellStyle(Some(list), target, cellType)
  {
    var r := Added(list, name, headerStyle, rowStyle, columnIndex);
    var k := FirstNamed(list, target);
    assert k < |list|;
    assert r[k] == list[k];
    assert forall j :: 0 <= j < k ==> r[j] == list[j];
  }

  /** A rule registered for a name no rule had yet becomes that name's style. */
  lemma AddedNewNameIsFound(list: seq<SetStyle>, name: Option<string>, headerStyle: CellStyle, rowStyle: CellStyle, columnIndex: Option<int>, cellType: CellType)
    requires forall i :: 0 <= i < |list| ==> list[i].name != name
    ensures GetCellStyle(Some(Added(list, name, headerStyle, rowStyle, columnIndex)), name, cellType)
            == (if cellType == Header then headerStyle.Id() else rowStyle.Id())
  {
    assert !Registered(list, name, columnIndex);
    var r := Added(list, name, headerStyle, rowStyle, columnIndex);
    assert r[|list|] == SetStyle(name, headerStyle, rowStyle, columnIndex);
  }
}
