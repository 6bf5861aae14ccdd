/** Rounding to whole pages (shared/util.h). */
module Pages {
  const PAGE_SIZE: nat := 4096

  function PageFloor(x: nat): (r: nat)
    ensures r <= x < r + PAGE_SIZE && r % PAGE_SIZE == 0
  {
    x / PAGE_SIZE * PAGE_SIZE
  }

  function PageAlign(x: nat): (r: nat)
    ensures x <= r < x + PAGE_SIZE && r % PAGE_SIZE == 0
  {
    (x + PAGE_SIZE - 1) / PAGE_SIZE * PAGE_SIZE
  }
}
