/**
 * The fixed configuration of the slot machine (src/utils/constants.ts):
 * the layout, the catalog of symbol types and the machine-level game states.
 * Widths and horizontal spacings only place containers on screen and are not
 * part of this model.
 */
module Constants {
  /** Number of reels (columns) and of visible rows. */
  const ReelCount: nat := 5
  const RowCount: nat := 3

  const SymbolHeight: int := 80
  const SymbolSpacing: int := 5

  /** Vertical distance between two neighbouring slots of a reel (85). */
  const Pitch: int := SymbolHeight + SymbolSpacing

  /** The catalog: 13 symbol types, one per texture file `Mnn_000.jpg`. */
  datatype SymbolType =
    | M00 | M01 | M02 | M03 | M04 | M05 | M06
    | M07 | M08 | M09 | M10 | M11 | M12

  /** The machine-level state reported by `getGameState`. */
  datatype GameState = Idle | Spinning | Stopping
}
