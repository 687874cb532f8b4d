/** What a picture is made of, for its writer and its reader alike: macroblocks, where their blocks
    lie, and what one leaves on record. */
module Macroblocks {
  import opened Bits
  import opened MotionVectors

  const PCM_BYTES := 384
  const I_PCM_IN_P := 30   // mb_type 5 + 25

  /** A recorded partition, in luma samples; `ref` -1 is an I_PCM macroblock. */
  datatype Part = Part(x: int, y: int, w: int, h: int, ref: int, mv: Mv)

  /** What is recorded of one macroblock: its partitions, and its samples if it is I_PCM. */
  datatype Record = Record(parts: seq<Part>, pcm: seq<byte>)

  // ---------------------------------------------------------------- geometry

  function SubX(x4: int, i: nat): int { x4 + (i % 2) * 2 }
  function SubY(y4: int, i: nat): int { y4 + (i / 2) * 2 }
  function BlkX(qx: int, i: nat): int { qx + i % 2 }
  function BlkY(qy: int, i: nat): int { qy + i / 2 }

  function MbX(wmb: nat, m: nat): int
    requires wmb > 0
  {
    (m % wmb) * 4
  }

  function MbY(wmb: nat, m: nat): int
    requires wmb > 0
  {
    (m / wmb) * 4
  }

  /** The quarters of a macroblock and the blocks of a quarter go left to right, top to bottom
      (6.4.2.2), macroblocks row by row (6.4.1). */
  lemma ScanOrder(x: int, y: int, wmb: nat, row: nat, col: nat)
    requires col < wmb
    ensures SubX(x, 0) == SubX(x, 2) == x && SubX(x, 1) == SubX(x, 3) == x + 2
    ensures SubY(y, 0) == SubY(y, 1) == y && SubY(y, 2) == SubY(y, 3) == y + 2
    ensures BlkX(x, 0) == BlkX(x, 2) == x && BlkX(x, 1) == BlkX(x, 3) == x + 1
    ensures BlkY(y, 0) == BlkY(y, 1) == y && BlkY(y, 2) == BlkY(y, 3) == y + 1
    ensures MbX(wmb, row * wmb + col) == 4 * col && MbY(wmb, row * wmb + col) == 4 * row
  {
    DivUnique(row * wmb + col, wmb, row, col);
  }
}
