/** What the model knows of the machine. */
module Machine {
  const POINTER_SIZE := 8

  /** The bytes that a block of the given size takes: even an empty one has an address of its own. */
  function Footprint(size: nat): nat {
    if size == 0 then 1 else size
  }
}
