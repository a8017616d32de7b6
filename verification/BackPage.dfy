/** A large array of positions kept in a file, seen through a window of one block that is written back when it moves. */
module BackPage {

  const VARYSIZE := 256
  const POS_SIZE := 8

  class VirtualArray {
    const varybuf: array<int>              // the window
    var oldoffset: int                     // the block in the window, or -1
    var file: map<int, seq<int>>           // the blocks in the file, by offset
    ghost var written: map<nat, int>       // the last value written at each index

    ghost predicate Valid()
      reads this, varybuf
    {
      && varybuf.Length == VARYSIZE && (0 <= oldoffset || oldoffset == -1)
      && (forall o :: o in file ==> |file[o]| == VARYSIZE)
      && forall i :: i in written ==> Kept(i)
    }

    /** The last value written at `i` is in the window, or in the file when its block is not the one in the window. */
    ghost predicate Kept(i: nat)
      requires i in written
      reads this, varybuf
    {
      var o := Offset(i);
      if o == oldoffset then varybuf.Length == VARYSIZE && varybuf[i % VARYSIZE] == written[i]
      else o in file && |file[o]| == VARYSIZE && file[o][i % VARYSIZE] == written[i]
    }

    static function Offset(i: nat): (o: nat)
    {
      (i - i % VARYSIZE) * POS_SIZE
    }

    /** Two indices with one place in a block and one offset are the same. */
    static lemma OneIndex(i: nat, j: nat)
      ensures Offset(i) == Offset(j) && i % VARYSIZE == j % VARYSIZE ==> i == j
    {
    }

    constructor ()
      ensures Valid() && written == map[]
    {
      varybuf, oldoffset, file, written := new int[VARYSIZE], -1, map[], map[];
    }

    /** The window moved to the block at `offset`, after the block in it has been written back. */
    method MoveWindow(offset: int)
      requires Valid() && 0 <= offset
      modifies this`file, this`oldoffset, varybuf
      ensures Valid() && oldoffset == offset
    {
      if offset != oldoffset {
        if oldoffset >= 0 { file := file[oldoffset := varybuf[..]]; }
        if offset in file {
          var block := file[offset];
          forall k | 0 <= k < VARYSIZE { varybuf[k] := block[k]; }
        }
        oldoffset := offset;
        forall i | i in written ensures Kept(i) {
          assert old(Kept(i));
        }
      }
    }

    /** vrdary: where a value has been written, the last one. */
    method Read(indx: int) returns (value: int)
      requires Valid()
      modifies this`file, this`oldoffset, varybuf
      ensures Valid()
      ensures indx < 0 ==> value == 0
      ensures indx in written ==> value == written[indx]
    {
      if indx < 0 { return 0; }
      var subindx := indx % VARYSIZE;
      MoveWindow((indx - subindx) * POS_SIZE);
      value := varybuf[subindx];
      assert indx in written ==> Kept(indx);
    }

    /** vwtary. */
    method Write(indx: nat, newvalue: int)
      requires Valid()
      modifies this`file, this`oldoffset, this`written, varybuf
      ensures Valid() && written == old(written)[indx := newvalue]
    {
      var subindx := indx % VARYSIZE;
      MoveWindow((indx - subindx) * POS_SIZE);
      label Moved:
      varybuf[subindx] := newvalue;
      written := written[indx := newvalue];
      forall i | i in written ensures Kept(i) {
        if i != indx {
          assert old@Moved(Kept(i));
          OneIndex(i, indx);
        }
      }
    }
  }
}
