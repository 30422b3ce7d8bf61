/** The validators and display classifiers of src/schema/jira.ts. Terminal
    colours and emoji are abstract values: a `Style` names the colour a piece
    of text is painted in, a `Glyph` names the icon that replaces an issue
    type. Rendering never changes the text it paints. */
module Schema {
  import opened Common

  /** The estimate scale, in ascending order. */
  const Scale: seq<int> := [0, 1, 2, 3, 5, 8, 13]

  /** `sizeSchema`: the union of the seven literal estimates. */
  predicate IsSize(n: int) {
    n == 0 || n == 1 || n == 2 || n == 3 || n == 5 || n == 8 || n == 13
  }

  type Size = n: int | IsSize(n) witness 0

  datatype Style = Gray | Green | Yellow | YellowBold | Red | RedBold | Blue | Cyan

  datatype Glyph = CheckBox | Beetle | Gift | Lightning

  /** What a classifier produces: painted text, an icon, or the input untouched. */
  datatype Shown = Styled(style: Style, text: string) | Icon(glyph: Glyph) | AsIs(text: string)

  /** How alarming an estimate colour is, from grey up to bold red. The
      ranking is this model's own reading of the estimate colours; the
      program itself never compares colours. Blue and cyan are not estimate
      colours and rank 0. */
  function Severity(s: Style): nat {
    match s
    case Gray => 0
    case Green => 1
    case Yellow => 2
    case YellowBold => 3
    case Red => 4
    case RedBold => 5
    case Blue => 0
    case Cyan => 0
  }

  /** The scale holds exactly the accepted estimates, strictly ascending. */
  lemma ScaleIsSizes(n: int)
    ensures IsSize(n) <==> n in Scale
    ensures forall i, j :: 0 <= i < j < |Scale| ==> Scale[i] < Scale[j]
  {
  }

  /** `colorSizeSchema.parse(n)`: a styled number for an accepted estimate;
      any other number fails the schema. */
  function ColorSize(n: int): (r: Option<Shown>)
    ensures r.Some? <==> IsSize(n)
    ensures r.Some? ==> r.value.Styled? && r.value.text == IntToString(n)
    ensures r.Some? ==> (r.value.style == Gray <==> n == 0)
    ensures r.Some? ==> (r.value.style == Green <==> n == 1 || n == 2)
    ensures r.Some? ==> (r.value.style == Yellow <==> n == 3)
    ensures r.Some? ==> (r.value.style == YellowBold <==> n == 5)
    ensures r.Some? ==> (r.value.style == Red <==> n == 8)
    ensures r.Some? ==> (r.value.style == RedBold <==> n == 13)
  {
    if !IsSize(n) then None
    else
      var style :=
        if n == 0 then Gray
        else if n == 1 || n == 2 then Green
        else if n == 3 then Yellow
        else if n == 5 then YellowBold
        else if n == 8 then Red
        else RedBold;
      Some(Styled(style, IntToString(n)))
  }

  /** A larger estimate is never painted in a milder colour. */
  lemma SizeColorsEscalate(a: Size, b: Size)
    requires a <= b
    ensures Severity(ColorSize(a).value.style) <= Severity(ColorSize(b).value.style)
  {
  }

  /** Only the estimates 1 and 2 share a colour; every other pair differs. */
  lemma SizeColorsDistinguish(a: Size, b: Size)
    requires a < b
    ensures ColorSize(a).value.style == ColorSize(b).value.style <==> a == 1 && b == 2
  {
  }

  /** `colorTaskSchema`: the colour of a task name in the split prompt. */
  function ColorTask(name: string): (r: Shown)
    ensures !r.Icon? && r.text == name
    ensures r.AsIs? <==>
      name !in {"DEV Task", "Upstream", "Root Cause Analysis Task", "QE Task",
                "Preliminary Testing Task", "Integration Testing"}
    ensures r.Styled? ==> (r.style == Green <==> name in {"DEV Task", "Upstream", "Root Cause Analysis Task"})
    ensures r.Styled? ==> (r.style == Yellow <==> name == "QE Task")
    ensures r.Styled? ==> (r.style == Blue <==> name in {"Preliminary Testing Task", "Integration Testing"})
  {
    match name
    case "DEV Task" => Styled(Green, name)
    case "Upstream" => Styled(Green, name)
    case "Root Cause Analysis Task" => Styled(Green, name)
    case "QE Task" => Styled(Yellow, name)
    case "Preliminary Testing Task" => Styled(Blue, name)
    case "Integration Testing" => Styled(Blue, name)
    case _ => AsIs(name)
  }

  const IssuePrefix := "RHEL-"

  /** All characters of `s` are decimal digits (possibly none). */
  function AllDigits(s: string): (b: bool)
    ensures b <==> forall i :: 0 <= i < |s| ==> IsDigit(s[i])
    decreases |s|
  {
    |s| == 0 || (IsDigit(s[0]) && AllDigits(s[1..]))
  }

  /** `issueIdSchema`: the pattern `^RHEL-\d+$` with neither flag set, so
      `\d` is an ASCII digit and `$` is the end of the string. */
  function IsIssueId(s: string): (b: bool)
    ensures b <==> StartsWith(s, IssuePrefix) && IsNumeral(s[|IssuePrefix|..])
  {
    |s| > |IssuePrefix| && s[..|IssuePrefix|] == IssuePrefix && AllDigits(s[|IssuePrefix|..])
  }

  /** The issue number of a valid key. */
  function IssueNumber(s: string): Option<nat> {
    if IsIssueId(s) then Some(DigitsValue(s[|IssuePrefix|..])) else None
  }

  /** Every issue number, written in decimal after the prefix, is a valid
      key, and the number can be read back from it. */
  lemma IssueKeyOfNumber(n: nat)
    ensures IsIssueId(IssuePrefix + NatToString(n))
    ensures IssueNumber(IssuePrefix + NatToString(n)) == Some(n)
  {
    var key := IssuePrefix + NatToString(n);
    assert key[..|IssuePrefix|] == IssuePrefix;
    assert key[|IssuePrefix|..] == NatToString(n);
    NatToStringRoundTrip(n);
  }

  /** `issueTypeSchema`: an icon for the four known issue types. */
  function IssueType(name: string): (r: Shown)
    ensures !r.Styled?
    ensures r.Icon? <==> name in {"Task", "Bug", "Story", "Epic"}
    ensures r.AsIs? ==> r.text == name
  {
    match name
    case "Task" => Icon(CheckBox)
    case "Bug" => Icon(Beetle)
    case "Story" => Icon(Gift)
    case "Epic" => Icon(Lightning)
    case _ => AsIs(name)
  }

  /** Distinct issue types give distinct abstract display values: the four
      icons are pairwise distinct and any other type is kept as itself. An
      icon is a `Glyph` here, so a type name spelled like an icon's own
      characters is not confused with that icon, whereas the printed text
      could coincide. */
  lemma IssueTypeInjective(a: string, b: string)
    requires a != b
    ensures IssueType(a) != IssueType(b)
  {
  }

  /** `issueStatusSchema`: the colour of a workflow status. */
  function IssueStatus(name: string): (r: Shown)
    ensures !r.Icon? && r.text == name
    ensures r.AsIs? <==> name !in {"New", "Planning", "In Progress", "Integration", "Release Pending"}
    ensures r.Styled? ==> (r.style == Cyan <==> name in {"New", "Planning"})
    ensures r.Styled? ==> (r.style == Blue <==> name == "In Progress")
    ensures r.Styled? ==> (r.style == Green <==> name in {"Integration", "Release Pending"})
  {
    match name
    case "New" => Styled(Cyan, name)
    case "Planning" => Styled(Cyan, name)
    case "In Progress" => Styled(Blue, name)
    case "Integration" => Styled(Green, name)
    case "Release Pending" => Styled(Green, name)
    case _ => AsIs(name)
  }
}
