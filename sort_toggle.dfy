/**
 * The sort header of the three list components: `currentSortColumn` and
 * `currentSortDirection`, how a click on a column header changes them, and
 * how the chosen direction turns a comparison into the comparator's answer.
 */
module SortToggle {

  /** `'asc' | 'desc'` */
  datatype Direction = Asc | Desc

  /** The pair `(currentSortColumn, currentSortDirection)`, for any column type. */
  datatype SortState<C> = SortState(column: C, direction: Direction)

  function Flip(d: Direction): (r: Direction)
    ensures r != d
  {
    match d
    case Asc => Desc
    case Desc => Asc
  }

  /**
   * A click on `clicked`: the current column flips its direction, any other
   * column becomes current in ascending order.
   */
  function Click<C(==)>(s: SortState<C>, clicked: C): (r: SortState<C>)
    ensures r.column == clicked
    ensures r.direction == Asc <==> (s.column != clicked || s.direction == Desc)
  {
    if s.column == clicked then SortState(clicked, Flip(s.direction))
    else SortState(clicked, Asc)
  }

  /** Two clicks on the current column restore the state. */
  lemma ClickTwiceOnCurrent<C>(s: SortState<C>)
    ensures Click(Click(s, s.column), s.column) == s
  {
  }

  /** Two clicks on another column leave it current in descending order. */
  lemma ClickTwiceOnOther<C>(s: SortState<C>, c: C)
    requires s.column != c
    ensures Click(Click(s, c), c) == SortState(c, Desc)
  {
  }

  /** `currentSortDirection === 'asc' ? comparison : -comparison` */
  function Directed(d: Direction, comparison: int): (r: int)
    ensures d == Asc ==> r == comparison
    ensures d == Desc ==> r + comparison == 0
  {
    match d
    case Asc => comparison
    case Desc => -comparison
  }

  /**
   * The header arrow: ' ▲' or ' ▼' on the current column. The text shown on
   * the other columns differs between components and is passed in.
   */
  function SortIcon(isCurrent: bool, d: Direction, otherwise: string): (r: string)
    ensures isCurrent ==> (r == " ▲" <==> d == Asc) && (r == " ▼" <==> d == Desc)
    ensures !isCurrent ==> r == otherwise
  {
    assert " ▲"[1] != " ▼"[1];
    if !isCurrent then otherwise
    else match d
      case Asc => " ▲"
      case Desc => " ▼"
  }

  /** After a click, the clicked column shows ▲ unless it was already current and ascending. */
  lemma IconAfterClick<C>(s: SortState<C>, c: C, otherwise: string)
    ensures SortIcon(true, Click(s, c).direction, otherwise)
         == (if s.column == c && s.direction == Asc then " ▼" else " ▲")
  {
  }
}
