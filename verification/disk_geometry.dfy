/**
 Sizes of machine/disk.h. Where a proof multiplies or divides by one of the sizes of this project, the number is
 written out instead of its name, which keeps the solver's arithmetic linear.
 */
module DiskGeometry {
  const SECTOR_SIZE := 128
  const NUM_SECTORS := 1024
}
