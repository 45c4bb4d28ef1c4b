/**
 * Slot layout of the album cases on the shelf: four cases per board, the
 * board chosen by integer division, the slot by remainder, and the board
 * height looked up in a three-entry table with a fallback to the first
 * entry.
 */
module Shelf {

  datatype Vec3 = Vec3(x: real, y: real, z: real)

  const SHELF_Y_POSITIONS: seq<real> := [1.2, 0.0, -1.2]
  const ALBUMS_PER_SHELF: nat := 4

  /** `shelfYPositions[i] || shelfYPositions[0]`: a missing entry and an entry equal to 0 both fall back. */
  function ShelfY(shelfIndex: nat): (y: real)
    ensures y in SHELF_Y_POSITIONS && y != 0.0
  {
    if shelfIndex < |SHELF_Y_POSITIONS| && SHELF_Y_POSITIONS[shelfIndex] != 0.0
    then SHELF_Y_POSITIONS[shelfIndex]
    else SHELF_Y_POSITIONS[0]
  }

  function SlotX(positionInShelf: nat): real
  {
    -1.1 + (positionInShelf as real) * 0.7
  }

  /** `getShelfAndPosition` as written. */
  function ShelfAndPosition(index: nat): (p: Vec3)
    ensures index % ALBUMS_PER_SHELF < ALBUMS_PER_SHELF
    ensures index == ALBUMS_PER_SHELF * (index / ALBUMS_PER_SHELF) + index % ALBUMS_PER_SHELF
    ensures p.x == -1.1 + ((index % ALBUMS_PER_SHELF) as real) * 0.7
    ensures p.y == ShelfY(index / ALBUMS_PER_SHELF) + 0.45
    ensures p.z == 0.15
  {
    var shelfIndex := index / ALBUMS_PER_SHELF;
    var positionInShelf := index % ALBUMS_PER_SHELF;
    Vec3(SlotX(positionInShelf), ShelfY(shelfIndex) + 0.45, 0.15)
  }

  /** The board heights the lookup yields, including the fallback for shelf 1 and for shelves past the table. */
  lemma ShelfHeights(shelfIndex: nat)
    ensures shelfIndex == 0 ==> ShelfY(shelfIndex) == 1.2
    ensures shelfIndex == 1 ==> ShelfY(shelfIndex) == 1.2
    ensures shelfIndex == 2 ==> ShelfY(shelfIndex) == -1.2
    ensures shelfIndex >= 3 ==> ShelfY(shelfIndex) == 1.2
  {
  }

  /** Along one board the slots run strictly left to right. */
  lemma SlotsIncreaseAlongShelf(i: nat, j: nat)
    requires i / ALBUMS_PER_SHELF == j / ALBUMS_PER_SHELF && i < j
    ensures ShelfAndPosition(i).x < ShelfAndPosition(j).x
    ensures ShelfAndPosition(i).y == ShelfAndPosition(j).y
  {
    assert i % ALBUMS_PER_SHELF < j % ALBUMS_PER_SHELF;
  }

  /** The four catalog cases all sit on the top board, at four different x positions. */
  lemma CatalogLayout()
    ensures forall i :: 0 <= i < 4 ==> ShelfAndPosition(i).y == 1.2 + 0.45
    ensures forall i, j :: 0 <= i < j < 4 ==> ShelfAndPosition(i).x < ShelfAndPosition(j).x
  {
    forall i, j | 0 <= i < j < 4 ensures ShelfAndPosition(i).x < ShelfAndPosition(j).x {
      SlotsIncreaseAlongShelf(i, j);
    }
  }

  /** As written, the fifth case (first slot of the second board) lands exactly on the first case. */
  lemma SecondShelfOverlapsFirst()
    ensures ShelfAndPosition(4) == ShelfAndPosition(0)
  {
  }

  /** The evidently intended lookup: the table entry whenever one exists, the first entry past the table. */
  function IntendedShelfY(shelfIndex: nat): real
  {
    if shelfIndex < |SHELF_Y_POSITIONS| then SHELF_Y_POSITIONS[shelfIndex] else SHELF_Y_POSITIONS[0]
  }

  /** The layout with the intended lookup. */
  function IntendedShelfAndPosition(index: nat): (p: Vec3)
    ensures p.x == SlotX(index % ALBUMS_PER_SHELF)
    ensures p.y == IntendedShelfY(index / ALBUMS_PER_SHELF) + 0.45
    ensures p.z == 0.15
  {
    Vec3(SlotX(index % ALBUMS_PER_SHELF), IntendedShelfY(index / ALBUMS_PER_SHELF) + 0.45, 0.15)
  }

  /** With the intended lookup the twelve slots of the three boards are pairwise distinct. */
  lemma IntendedSlotsDistinct(i: nat, j: nat)
    requires i < j < 3 * ALBUMS_PER_SHELF
    ensures IntendedShelfAndPosition(i) != IntendedShelfAndPosition(j)
  {
    if i / ALBUMS_PER_SHELF == j / ALBUMS_PER_SHELF {
      assert i % ALBUMS_PER_SHELF != j % ALBUMS_PER_SHELF;
      assert SlotX(i % ALBUMS_PER_SHELF) != SlotX(j % ALBUMS_PER_SHELF);
    } else {
      assert IntendedShelfY(i / ALBUMS_PER_SHELF) != IntendedShelfY(j / ALBUMS_PER_SHELF);
    }
  }

  /** The two lookups differ only on the second board, so the catalog of four is laid out identically. */
  lemma IntendedAgreesOffSecondShelf(index: nat)
    requires index / ALBUMS_PER_SHELF != 1
    ensures IntendedShelfAndPosition(index) == ShelfAndPosition(index)
  {
  }
}
