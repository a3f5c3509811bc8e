/** The responsive-layout arithmetic of MainActivity: width classes from the
    screen width in dp, the column count per class, and the staggered entrance
    delay of the exercise cards. */
module Layout {

  datatype WindowWidthClass = Compact | Medium | Expanded

  /** Widths from here up are at least Medium. */
  const MediumBreakpointDp: int := 600
  /** Widths from here up are Expanded. */
  const ExpandedBreakpointDp: int := 840

  /** The classes in increasing order of width. */
  function Rank(c: WindowWidthClass): nat {
    match c
    case Compact => 0
    case Medium => 1
    case Expanded => 2
  }

  /** `getWindowWidthClass()` for a `screenWidthDp` value. */
  function WidthClassOf(screenWidthDp: int): (c: WindowWidthClass)
    ensures c == Compact <==> screenWidthDp < MediumBreakpointDp
    ensures c == Medium <==> MediumBreakpointDp <= screenWidthDp < ExpandedBreakpointDp
    ensures c == Expanded <==> ExpandedBreakpointDp <= screenWidthDp
  {
    if screenWidthDp < MediumBreakpointDp then Compact
    else if screenWidthDp < ExpandedBreakpointDp then Medium
    else Expanded
  }

  /** A wider screen never gets a narrower class. */
  lemma WidthClassMonotone(w1: int, w2: int)
    requires w1 <= w2
    ensures Rank(WidthClassOf(w1)) <= Rank(WidthClassOf(w2))
  {
  }

  /** The `columnCount` chosen in ExerciseList. */
  function ColumnCount(c: WindowWidthClass): (n: int)
    ensures n == Rank(c) + 1
  {
    match c
    case Compact => 1
    case Medium => 2
    case Expanded => 3
  }

  /** ExerciseList uses the single-column list rather than the grid. */
  predicate UsesSingleColumnList(c: WindowWidthClass)
    ensures UsesSingleColumnList(c) <==> c == Compact
  {
    ColumnCount(c) == 1
  }

  /** ExerciseDetailScreen switches to the two-pane layout off Compact. */
  predicate UsesTwoPaneDetail(c: WindowWidthClass)
    ensures UsesTwoPaneDetail(c) <==> ColumnCount(c) > 1
  {
    c != Compact
  }

  /** From width to columns: 1 below 600 dp, 2 below 840 dp, 3 from there up,
      never fewer columns on a wider screen; the detail screen has two panes
      exactly when the list is a grid. */
  lemma ColumnsForWidth(w1: int, w2: int)
    ensures ColumnCount(WidthClassOf(w1)) == 1 <==> w1 < MediumBreakpointDp
    ensures ColumnCount(WidthClassOf(w1)) == 2 <==> MediumBreakpointDp <= w1 < ExpandedBreakpointDp
    ensures ColumnCount(WidthClassOf(w1)) == 3 <==> ExpandedBreakpointDp <= w1
    ensures w1 <= w2 ==> ColumnCount(WidthClassOf(w1)) <= ColumnCount(WidthClassOf(w2))
    ensures UsesTwoPaneDetail(WidthClassOf(w1)) <==> !UsesSingleColumnList(WidthClassOf(w1))
    ensures UsesTwoPaneDetail(WidthClassOf(w1)) <==> w1 >= MediumBreakpointDp
  {
  }

  /** Kotlin's `/` on Int: division truncating toward zero (Dafny's own `/`
      is Euclidean). Truncation is what leaves a remainder with the dividend's
      sign and smaller than the divisor in size. */
  function KotlinQuot(a: int, b: int): (q: int)
    requires b != 0
    ensures a >= 0 ==> 0 <= a - q * b < b || 0 <= a - q * b < -b
    ensures a <= 0 ==> -b < a - q * b <= 0 || b < a - q * b <= 0
  {
    var m := a % b;
    assert a == (a / b) * b + m;
    if a >= 0 || m == 0 then a / b
    else if b > 0 then
      assert a - (a / b + 1) * b == m - b;
      a / b + 1
    else
      assert a - (a / b - 1) * b == m + b;
      a / b - 1
  }

  /** Kotlin's `%` on Int: what is left of the dividend after taking away the
      truncated quotient times the divisor, so it takes the dividend's sign. */
  function KotlinRem(a: int, b: int): (r: int)
    requires b != 0
    ensures a == KotlinQuot(a, b) * b + r
    ensures -b < r < b || b < r < -b
    ensures a >= 0 ==> r >= 0
    ensures a <= 0 ==> r <= 0
  {
    a - KotlinQuot(a, b) * b
  }

  /** The entrance delay of the card at `itemIndex`, in milliseconds:
      `itemIndex % 10 * 100L`. */
  function StaggerDelayMs(itemIndex: int): (d: int)
    ensures d % 100 == 0
    ensures itemIndex >= 0 ==> 0 <= d <= 900
    ensures -900 <= d <= 900
  {
    KotlinRem(itemIndex, 10) * 100
  }

  /** Delays repeat every ten cards, and step up by 100 ms from one card to the
      next within a block of ten. */
  lemma StaggerPattern(itemIndex: nat)
    ensures StaggerDelayMs(itemIndex + 10) == StaggerDelayMs(itemIndex)
    ensures itemIndex % 10 != 9 ==> StaggerDelayMs(itemIndex + 1) == StaggerDelayMs(itemIndex) + 100
    ensures itemIndex % 10 == 9 ==> StaggerDelayMs(itemIndex + 1) == 0
    ensures StaggerDelayMs(itemIndex) == 0 <==> itemIndex % 10 == 0
  {
  }
}
