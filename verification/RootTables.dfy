/** How the root tables are laid out: rows of eight, and one level of the tree after another. */
module RootTables {

  /** One row of eight table entries. */
  function Lane(i: int, a: int, b: int, c: int, d: int, e: int, f: int, g: int, h: int): (r: int) {
    if i < 4 then (if i < 2 then (if i < 1 then a else b) else if i < 3 then c else d)
    else if i < 6 then (if i < 5 then e else f) else if i < 7 then g else h
  }

  /** The place of node k counted from the end of its level, where the inverse loop reads. */
  function Mirror(k: int): (r: int) {
    if k < 2 then 2 - k
    else if k < 4 then 5 - k
    else if k < 8 then 11 - k
    else if k < 16 then 23 - k
    else if k < 32 then 47 - k
    else if k < 64 then 95 - k
    else if k < 128 then 191 - k
    else 383 - k
  }

  /** Counting down from the end of the level meets the mirrored entry of block b. */
  lemma MirrorOfBlock(m: nat, b: nat)
    requires m in {1, 2, 4, 8, 16, 32, 64, 128} && b < m
    ensures Mirror(m + b) == 2 * m - 1 - b
  {
  }
}
