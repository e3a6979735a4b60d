/** A write on a nearly full disk that returns 0 and takes a block all the same. */
module DiskFull {
  import opened Layout
  import opened BlockFormat
  import opened FileTree
  import opened FileOps

  const GEO: Geo := Geo(3, 1, 2)
  const DISK: Ctx := Ctx(BYTES, GEO)
  const FILE: nat := 7
  const EMPTY: Inode := Inode(0, [0, 0, 0, 0, 0, 0, 0, 0, 0, 0, 0, 0, 0, 0])

  /** Blocks 0 and 1, the bitmap itself, are marked; block 2 is free. */
  function Bitmap(): (x: Sector) { BYTES.mark(BYTES.mark(ZERO, 0, true), 1, true) }

  /** One empty file on a disk with one free block. */
  function Start(): (t: Tree) { Tree([ZERO, Bitmap(), ZERO], map[FILE := EMPTY]) }

  /** The file lacks the indirect block and the data block for file block 12. */
  lemma OneFreeTwoMissing()
    ensures Own(DISK, Start()) && ZeroTail(DISK, Start())
    ensures FreeCount(DISK, Start().blocks) == 1 && Missing(DISK, Start(), FILE, 12) == 2
  {
    BytesLaws();
    BytesBlank();
    assert forall b: nat :: b < 3 ==> (Used(DISK, Start().blocks, b) <==> b < 2);
    assert forall f: nat, p: Pos :: At(DISK, Start(), f, p) == 0;
    assert FreeSet(DISK, Start().blocks) == {2};
  }

  /** The code on this input: a write at byte 6144 returns 0, yet the block is marked used, while the
      inode table still names no block. */
  method ZeroWriteTakesBlock(data: seq<Byte>) returns (fs: FileSystem, n: nat)
    requires data != []
    ensures fresh(fs) && fs.c == DISK && n == 0
    ensures Full(fs.c, fs.blocks) && fs.T() != Start() && fs.table == map[FILE := EMPTY]
  {
    OneFreeTwoMissing();
    fs := new FileSystem(DISK, 0, Start().blocks, Start().inodes);
    n := fs.Writei(FILE, data, 6144);
  }
}
