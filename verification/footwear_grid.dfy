/** The product grid: which card is expanded, where each card sits, where
    the grid scrolls to and whether the expanded card is still in view. */
module FootwearGrid {
  import opened Wrappers

  const GridGap: nat := 12
  const NumberOfColumns: nat := 3
  const CardWidth: nat := 160
  const CardHeight: nat := 200

  /** A card's cell: zero-based row and column. */
  datatype GridPosition = GridPosition(row: int, column: int)

  /** hasProductActive: any number counts as an active index, zero included
      (which is falsy and handled separately); a missing index does not. */
  function HasProductActive(active: Option<int>): (r: bool)
    ensures r <==> active.Some?
  {
    active.Some?
  }

  /** A card is expanded when it is the active one. */
  function Expanded(i: nat, active: Option<int>): (r: bool)
    ensures r ==> HasProductActive(active)
  {
    active == Some(i)
  }

  /** With a card expanded every card sits in the last column, one per row;
      otherwise the cards fill the rows left to right. */
  function Position(i: nat, active: Option<int>): (r: GridPosition)
    ensures 0 <= r.column < NumberOfColumns && 0 <= r.row <= i
    ensures HasProductActive(active) ==> r == GridPosition(i, NumberOfColumns - 1)
    ensures !HasProductActive(active) ==> r.row * NumberOfColumns + r.column == i
  {
    if HasProductActive(active) then GridPosition(i, NumberOfColumns - 1)
    else GridPosition(i / NumberOfColumns, i % NumberOfColumns)
  }

  /** The scroll offset the grid moves to when a card becomes active, if
      any: that card's row, one card height and gap per row. */
  function ScrollTarget(active: Option<int>, productsLoaded: bool): (r: Option<int>)
    ensures r.Some? <==> active.Some? && active.value >= 0 && productsLoaded
    ensures r.Some? ==> r.value == active.value * (CardHeight + GridGap) && r.value >= 0
  {
    if active.Some? && active.value >= 0 && productsLoaded
    then Some(active.value * (CardHeight + GridGap))
    else None
  }

  /** The expanded card counts as aligned with the selection while the grid
      is scrolled no more than 100 from where it settled. */
  function Aligned(scrollTop: real, settled: real): (r: bool)
    ensures r <==> settled - 100.0 <= scrollTop <= settled + 100.0
  {
    !(scrollTop > settled + 100.0 || scrollTop < settled - 100.0)
  }

  /** The row each of the three blank cells starts at (one-based, as CSS
      grid rows are); `None` is 'auto'. */
  function FillerRowStart(k: nat, active: Option<int>, productCount: nat): (r: Option<int>)
    requires k < 3
    ensures active.None? <==> r.None?
  {
    if HasProductActive(active) then Some(productCount + 1 + k) else None
  }

  // ---------------------------------------------------------------------
  // Properties

  /** Whichever card is expanded, no two cards share a cell. */
  lemma PositionsDistinct(i: nat, j: nat, active: Option<int>)
    requires i != j
    ensures Position(i, active) != Position(j, active)
  {
  }

  /** The grid scrolls exactly to the top of the active card's row once it
      is laid out expanded. */
  lemma ScrollToActiveRow(i: nat)
    ensures ScrollTarget(Some(i), true) == Some(Position(i, Some(i)).row * (CardHeight + GridGap))
  {
  }

  /** The blank cells start below the last card in the expanded layout
      (rows counted from one). */
  lemma FillersBelowCards(k: nat, active: Option<int>, productCount: nat, i: nat)
    requires k < 3 && i < productCount && active.Some?
    ensures FillerRowStart(k, active, productCount).value > Position(i, active).row + 1
  {
  }
}
