// Block ownership through truncation, deletion, creation and first write: a
// block is TAKEN exactly when one live inode with bytes in it owns it.
module FsBlocks {
  import opened Prelude
  import opened Bytes
  import opened FsModel
  import opened FsAbstract
  import opened FsInvariant

  // Inode i gives up its bytes (truncation) or its life (deletion); its block, if
  // it has one, becomes FREE and every other block keeps its owner.
  lemma BlockReleased(inodes: Inodes, taken: seq<bool>, blockTaken: seq<bool>, bs: nat, i: int,
                      inodes': Inodes, taken': seq<bool>)
    requires |inodes| == |taken| && BlockInv(inodes, taken, blockTaken, bs) && LiveFile(taken, i)
    requires |inodes'| == |inodes| && |taken'| == |taken|
    requires forall j :: 0 <= j < |inodes| && j != i ==> inodes'[j] == inodes[j] && taken'[j] == taken[j]
    requires !taken'[i] || inodes'[i].size == 0
    ensures inodes[i].size > 0 ==> 0 < inodes[i].block < |blockTaken| && blockTaken[inodes[i].block]
    ensures BlockInv(inodes', taken',
                     if inodes[i].size > 0 then blockTaken[inodes[i].block := false] else blockTaken, bs)
  {
    var b := inodes[i].block;
    if inodes[i].size > 0 {
      assert Owns(inodes, taken, i, b);
      assert Owns(inodes, taken, ROOT_DIR_INUM, 0);
    }
    var blocks' := if inodes[i].size > 0 then blockTaken[b := false] else blockTaken;
    forall j, c | Owns(inodes', taken', j, c) ensures j != i && Owns(inodes, taken, j, c) && blocks'[c] {
      assert Owns(inodes, taken, j, c);
    }
    assert Owns(inodes', taken', ROOT_DIR_INUM, 0) by {
      assert Owns(inodes, taken, ROOT_DIR_INUM, 0);
    }
    forall c | 0 <= c < |blocks'| && blocks'[c] ensures Owned(inodes', taken', c) {
      assert Owned(inodes, taken, c);
      var j :| Owns(inodes, taken, j, c);
      assert Owns(inodes', taken', j, c);
    }
    forall j | Live(taken', j) ensures inodes'[j].size <= bs {
      assert j != i ==> Live(taken, j);
    }
  }

  // An inode without bytes comes to life: no block changes owner.
  lemma EmptyInodeAdded(inodes: Inodes, taken: seq<bool>, blockTaken: seq<bool>, bs: nat, i: int)
    requires |inodes| == |taken| && BlockInv(inodes, taken, blockTaken, bs)
    requires 0 <= i < |taken| && !taken[i]
    ensures BlockInv(inodes[i := Inode(TFile, 0, -1)], taken[i := true], blockTaken, bs)
  {
    var inodes' := inodes[i := Inode(TFile, 0, -1)];
    var taken' := taken[i := true];
    assert Owns(inodes, taken, ROOT_DIR_INUM, 0);
    assert Owns(inodes', taken', ROOT_DIR_INUM, 0);
    forall j, c | Owns(inodes', taken', j, c) ensures Owns(inodes, taken, j, c) {
    }
    forall c | 0 <= c < |blockTaken| && blockTaken[c] ensures Owned(inodes', taken', c) {
      assert Owned(inodes, taken, c);
      var j :| Owns(inodes, taken, j, c);
      assert Owns(inodes', taken', j, c);
    }
    forall j | Live(taken', j) ensures inodes'[j].size <= bs {
      assert j != i ==> Live(taken, j);
    }
  }

  // A live file grows to `size` bytes in block b, which is its own block or, if it
  // had none, a block that was FREE.
  lemma BytesAdded(inodes: Inodes, taken: seq<bool>, blockTaken: seq<bool>, bs: nat, i: int, b: int, size: nat)
    requires |inodes| == |taken| && BlockInv(inodes, taken, blockTaken, bs) && LiveFile(taken, i)
    requires 0 < size <= bs && 0 <= b < |blockTaken|
    requires if inodes[i].size == 0 then !blockTaken[b] else b == inodes[i].block
    ensures BlockInv(inodes[i := inodes[i].(block := b, size := size)], taken, blockTaken[b := true], bs)
  {
    var inodes' := inodes[i := inodes[i].(block := b, size := size)];
    var blocks' := blockTaken[b := true];
    assert Owns(inodes, taken, ROOT_DIR_INUM, 0);
    assert Owns(inodes', taken, ROOT_DIR_INUM, 0);
    assert inodes[i].size > 0 ==> Owns(inodes, taken, i, b);
    forall j, c | Owns(inodes', taken, j, c)
      ensures 0 <= c < |blocks'| && blocks'[c] && if j == i then c == b else Owns(inodes, taken, j, c)
    {
      assert j != i ==> Owns(inodes, taken, j, c);
    }
    forall j, k, c | Owns(inodes', taken, j, c) && Owns(inodes', taken, k, c) ensures j == k {
      assert j != i ==> Owns(inodes, taken, j, c);
      assert k != i ==> Owns(inodes, taken, k, c);
    }
    forall c | 0 <= c < |blocks'| && blocks'[c] ensures Owned(inodes', taken, c) {
      if c == b {
        assert Owns(inodes', taken, i, b);
      } else {
        assert Owned(inodes, taken, c);
        var j :| Owns(inodes, taken, j, c);
        assert Owns(inodes', taken, j, c);
      }
    }
  }
}
