/** The table of C roots: a closed hash table of addresses of cells that hold ML values. */
module Roots {

  /** A slot of the table: empty, or the address of a root and whether it counts when an image is saved. */
  datatype Entry = Empty | Root(root: int, live: bool)
}
