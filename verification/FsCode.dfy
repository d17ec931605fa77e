/** The block allocator and file contents of fs.c, and the chunk loop of file.c, in place. */
module FsCode {
  import opened Common
  import opened FsSpec
  import opened FsNeed
  import FsBitmap

  class Fs {
    const nmeta: nat                  // blocks before the data area
    var blocks: seq<Block>
    var used: seq<bool>               // the free bitmap
    var files: map<nat, Inode>        // in-memory inodes
    var dinodes: map<nat, Inode>      // on-disk inodes
    ghost var owner: map<nat, Role>

    ghost predicate Valid()
      reads this
    {
      FsOk(blocks, used, files, owner, nmeta)
    }

    /** The file system of an image that is as it should be. */
    constructor (nmeta: nat, blocks: seq<Block>, used: seq<bool>, files: map<nat, Inode>, ghost owner: map<nat, Role>)
      requires FsOk(blocks, used, files, owner, nmeta)
      ensures Valid() && this.blocks == blocks && this.files == files && dinodes == files && this.owner == owner
      ensures this.nmeta == nmeta && this.used == used
    {
      this.nmeta, this.blocks, this.used, this.files, dinodes, this.owner := nmeta, blocks, used, files, files, owner;
    }

    /** ialloc: the lowest free number below `ninodes` becomes an empty inode without links; None is the
        panic "no inodes". */
    method Ialloc(typ: nat, ninodes: nat) returns (r: Option<nat>)
      requires Valid() && dinodes.Keys == files.Keys
      modifies this`files, this`dinodes
      ensures Valid() && dinodes.Keys == files.Keys
      ensures r.None? ==> files == old(files) && dinodes == old(dinodes) && forall j :: 1 <= j < ninodes ==> j in files
      ensures r.Some? ==>
                && 1 <= r.value < ninodes && r.value !in old(files)
                && (forall j :: 1 <= j < r.value ==> j in old(files))
                && files == old(files)[r.value := Inode(typ, 0, 0, NoAddrs())]
                && dinodes == old(dinodes)[r.value := Inode(typ, 0, 0, NoAddrs())] && Dense(blocks, files[r.value])
    {
      hide FsOk, Dense;
      var inum := 1;
      while inum < ninodes
        invariant 1 <= inum && files == old(files) && dinodes == old(dinodes)
        invariant forall j :: 1 <= j < inum ==> j in files
      {
        if inum !in dinodes {
          NewInode(blocks, used, files, owner, nmeta, inum, typ, 0);
          dinodes := dinodes[inum := Inode(typ, 0, 0, NoAddrs())];
          files := files[inum := Inode(typ, 0, 0, NoAddrs())];
          return Some(inum);
        }
        inum := inum + 1;
      }
      return None;
    }

    /** iput's release of an inode: its blocks are free, its number is free, and nothing else changes hands. */
    method Ifree(i: nat)
      requires Valid() && i in files
      modifies this
      ensures Valid() && blocks == old(blocks) && owner == Disowned(old(owner), i)
      ensures files == old(files) - {i} && dinodes == old(dinodes) - {i}
    {
      hide FsOk, Disowned;
      Itrunc(i);
      DropInode(blocks, used, files, owner, nmeta, i);
      DisownedTwice(old(owner), i);
      files := files - {i};
      dinodes := dinodes - {i};
    }

    /** balloc: the first free block, marked and zeroed; None stands for the panic. */
    method Balloc() returns (r: Option<nat>)
      requires |used| == |blocks|
      modifies this`used, this`blocks
      ensures r.None? ==> used == old(used) && blocks == old(blocks) && forall c :: 0 <= c < |used| ==> used[c]
      ensures r.Some? ==>
                && r.value < |old(used)| && !old(used)[r.value]
                && (forall c :: 0 <= c < r.value ==> old(used)[c])
                && used == old(used)[r.value := true] && blocks == old(blocks)[r.value := ZeroBlock()]
      ensures r.None? <==> Clear(old(used)) == 0
      ensures r.Some? ==> Clear(old(used)) == Clear(used) + 1
    {
      hide Clear;
      var b := 0;
      while b < |used|
        invariant used == old(used) && blocks == old(blocks)
        invariant forall c :: 0 <= c < b && c < |used| ==> used[c]
      {
        var bi := 0;
        while bi < FsBitmap.BPB && b + bi < |used|
          invariant bi <= FsBitmap.BPB && used == old(used) && blocks == old(blocks)
          invariant forall c :: 0 <= c < b + bi && c < |used| ==> used[c]
        {
          if !used[b + bi] {
            ClearMark(used, b + bi);
            used := used[b + bi := true];
            blocks := blocks[b + bi := ZeroBlock()];
            return Some(b + bi);
          }
          bi := bi + 1;
        }
        b := b + FsBitmap.BPB;
      }
      ClearNone(used);
      r := None;
    }

    /** bmap: the disk block of file block `bn`, allocated if there is none.  None, the panic "out of blocks", comes
        exactly when there are fewer free blocks than that takes. */
    method Bmap(i: nat, bn: nat) returns (r: Option<nat>)
      requires Valid() && i in files && bn < MAXFILE     // else panic "bmap: out of range"
      modifies this`blocks, this`used, this`files, this`owner
      ensures Valid() && files.Keys == old(files).Keys && |blocks| == |old(blocks)|
      ensures forall j :: j in files && j != i ==> files[j] == old(files)[j]
      ensures SameExceptMap(old(blocks), old(files), blocks, files, i)
      ensures DataKept(old(blocks), old(owner), blocks, owner)
      ensures FileBlock(old(blocks), old(files)[i], bn) != 0 ==>
                && r == Some(FileBlock(old(blocks), old(files)[i], bn))
                && blocks == old(blocks) && files == old(files) && used == old(used) && owner == old(owner)
      ensures r.Some? ==>
                && r.value != 0 && r.value < |blocks| && r.value in owner && owner[r.value] == DataOf(i, bn)
                && FileBlock(blocks, files[i], bn) == r.value
      ensures r.Some? && FileBlock(old(blocks), old(files)[i], bn) == 0 ==>
                && OneMore(old(blocks), old(files)[i], blocks, files[i], bn, r.value)
                && blocks[r.value] == ZeroBlock() && !old(used)[r.value]
                && (Indirect(files[i]) != 0 <==> Indirect(old(files)[i]) != 0 || bn >= NDIRECT)
      ensures r.Some? && FileBlock(old(blocks), old(files)[i], bn) == 0 ==>
                && Extends(old(files)[i], files[i])
                && (files[i].addrs == old(files)[i].addrs <==> bn >= NDIRECT && Indirect(old(files)[i]) != 0)
      ensures r.None? ==> SameMap(old(blocks), old(files)[i], blocks, files[i])
      ensures r.None? <==> Clear(old(used)) < NeedOne(old(blocks), old(files)[i], bn)
      ensures r.Some? ==> Clear(old(used)) == Clear(used) + NeedOne(old(blocks), old(files)[i], bn)
    {
      hide FsOk, FileBlock, Indirect, OneMore, SameMap, SameExceptMap, DataKept, SetWord, Word, ZeroBlock, Clear;
      AddrsOf(blocks, used, files, owner, nmeta, i, bn);
      NothingMoved(blocks, files, owner, i);
      var ip := files[i];
      if bn < NDIRECT {
        if ip.addrs[bn] != 0 {
          return Some(ip.addrs[bn]);
        }
        r := Balloc();
        if r.Some? {
          NewDirect(old(blocks), old(used), files, owner, nmeta, i, bn, r.value);
          files := files[i := ip.(addrs := ip.addrs[bn := r.value])];
          owner := owner[r.value := DataOf(i, bn)];
        }
        return;
      }
      var x := ip.addrs[NDIRECT];
      if x == 0 {
        r := Balloc();
        if r.None? {
          return;
        }
        NewIndirect(old(blocks), old(used), files, owner, nmeta, i, r.value);
        x := r.value;
        ZeroEntry(bn - NDIRECT);
        files := files[i := ip.(addrs := ip.addrs[NDIRECT := x])];
        owner := owner[x := IndirectOf(i)];
      }
      ghost var blocks1, used1, files1, owner1 := blocks, used, files, owner;
      AddrsOf(blocks, used, files, owner, nmeta, i, bn);
      var addr := Word(blocks[x], bn - NDIRECT);
      if addr != 0 {
        return Some(addr);
      }
      r := Balloc();
      if r.None? {
        return;
      }
      NewEntry(blocks1, used1, files, owner, nmeta, i, bn - NDIRECT, r.value);
      blocks := blocks[x := SetWord(blocks[x], bn - NDIRECT, r.value)];
      owner := owner[r.value := DataOf(i, bn)];
      TwoMoves(old(blocks), old(files), old(owner), blocks1, files1, owner1, blocks, owner, i, bn, r.value);
    }

    /** One turn of readi's loop: `m` bytes from position `o`, all in one block. */
    method ReadChunk(i: nat, o: nat, m: nat) returns (r: Option<seq<nat>>)
      requires Valid() && i in files && o / BSIZE < MAXFILE && o % BSIZE + m <= BSIZE
      modifies this`blocks, this`used, this`files, this`owner
      ensures Valid() && i in files && Others(old(blocks), old(files), blocks, files, i)
      ensures FileBlock(old(blocks), old(files)[i], o / BSIZE) != 0 ==>
                r.Some? && blocks == old(blocks) && used == old(used) && files == old(files) && owner == old(owner)
      ensures SameBytes(old(blocks), old(files)[i], blocks, files[i])
      ensures r.Some? ==> |r.value| == m && IsRead(old(blocks), old(files)[i], o, r.value)
      ensures r.None? <==> Clear(old(used)) < NeedOne(old(blocks), old(files)[i], o / BSIZE)
      ensures r.Some? ==>
                && Clear(old(used)) == Clear(used) + NeedOne(old(blocks), old(files)[i], o / BSIZE)
                && Maps(old(blocks), old(files)[i], blocks, files[i], o / BSIZE)
    {
      hide FsOk, FileBlock, Indirect, OneMore, SameMap, SameExceptMap, DataKept, ByteAt, Others, ZeroBlock, Clear, Maps,
        NeedOne;
      NoOthers(blocks, files, i);
      var b := Bmap(i, o / BSIZE);
      OthersAfterBmap(old(blocks), old(files), old(blocks), old(used), old(files), old(owner), blocks, files, owner,
                      nmeta, i);
      if b.None? {
        SameMapBytes(old(blocks), old(used), old(files), old(owner), blocks, files, owner, nmeta, i);
        return None;
      }
      BytesAfterBmap(old(blocks), old(used), old(files), old(owner), blocks, files, owner, nmeta, i, o / BSIZE,
                     b.value);
      MapsAfterBmap(old(blocks), old(files)[i], blocks, files[i], o / BSIZE, b.value);
      BlockShape(blocks, used, files, owner, nmeta, b.value);
      var data := blocks[b.value][o % BSIZE..o % BSIZE + m];
      forall t | 0 <= t < m ensures data[t] == ByteAt(old(blocks), old(files)[i], o + t) {
        ChunkByte(blocks, files[i], o, t, b.value);
      }
      return Some(data);
    }

    /** readi on a file or directory: the slice of its bytes that starts at `off`, cut at its size.  Where no
        block is mapped below the size it reads zeroes, and bmap maps a zeroed block; no byte of any file
        changes by that.  None stands for the panic "out of blocks", which comes exactly when there are fewer free
        blocks than the slice needs. */
    method Readi(i: nat, off: nat, n: nat) returns (r: Option<int>, dst: seq<nat>)
      requires Valid() && i in files && off < UINT && n < UINT
      requires files[i].size <= MAXFILE * BSIZE      // else panic "bmap: out of range"
      modifies this`blocks, this`used, this`files, this`owner
      ensures Valid() && Others(old(blocks), old(files), blocks, files, i)
      ensures Dense(old(blocks), old(files)[i]) ==>
                r.Some? && blocks == old(blocks) && used == old(used) && files == old(files) && owner == old(owner)
      ensures Content(blocks, files[i]) == Content(old(blocks), old(files)[i])
      ensures r.Some? ==>
                && r.value == (if off > files[i].size || off + n >= UINT then -1 else Min(n, files[i].size - off))
                && (r.value >= 0 ==> dst == Content(blocks, files[i])[off..off + r.value])
      ensures r.None? <==>
                && off <= old(files)[i].size && off + n < UINT
                && Clear(old(used)) < RangeNeed(old(blocks), old(files)[i], off, Min(n, old(files)[i].size - off))
    {
      hide FsOk, FileBlock, Indirect, ByteAt, MappedTo, Others, Clear, Maps, NeedOne, Balanced, Reach, RangeNeed,
        SameBytes, Dense, Content, IsRead;
      dst := [];
      NoOthers(blocks, files, i);
      SameAlready(blocks, files[i], off);
      if off > files[i].size || (off + n) % UINT < off {
        return Some(-1), dst;
      }
      var want := n;
      if off + n > files[i].size {
        want := files[i].size - off;
      }
      var tot := 0;
      BalancedStart(used, blocks, files[i], off);
      while tot < want
        invariant Valid() && i in files && Others(old(blocks), old(files), blocks, files, i)
        invariant SameBytes(old(blocks), old(files)[i], blocks, files[i])
        invariant Dense(old(blocks), old(files)[i]) ==>
                    blocks == old(blocks) && used == old(used) && files == old(files) && owner == old(owner)
        invariant tot <= want == Min(n, old(files)[i].size - off) && |dst| == tot
        invariant 0 < tot < want ==> (off + tot) % BSIZE == 0
        invariant Balanced(old(used), old(blocks), old(files)[i], off / BSIZE, used, blocks, files[i], Reach(off, tot))
        invariant IsRead(old(blocks), old(files)[i], off, dst)
      {
        var o := off + tot;
        ghost var blocks0, files0 := blocks, files;
        if Dense(old(blocks), old(files)[i]) {
          DenseAt(blocks, used, files, owner, nmeta, i, o);
        }
        var m := Min(want - tot, BSIZE - o % BSIZE);
        ghost var used0 := used;
        var data := ReadChunk(i, o, m);
        BalancedChunk(old(used), old(blocks), old(files)[i], off, tot, m, want, used0, blocks0, files0[i], used, blocks,
                      files[i], data.Some?);
        OthersTwice(old(blocks), old(files), blocks0, files0, blocks, files, i);
        SameTwice(old(blocks), old(files)[i], blocks0, files0[i], blocks, files[i]);
        if data.None? {
          SameContent(old(blocks), old(files)[i], blocks, files[i]);
          return None, dst;
        }
        ReadMore(old(blocks), old(files)[i], blocks0, files0[i], off, dst, data.value);
        dst := dst + data.value;
        tot := tot + m;
      }
      r := Some(want);
      Enough(old(used), old(blocks), old(files)[i], used, blocks, files[i], off, want);
      SameContent(old(blocks), old(files)[i], blocks, files[i]);
      IsSlice(old(blocks), old(files)[i], off, dst);
    }

    /** One turn of writei's loop: the part of `src` from `tot` on that falls into one block. */
    method WriteChunk(i: nat, off: nat, src: seq<nat>, tot: nat,
                      ghost blocks0: seq<Block>, ghost files0: map<nat, Inode>)
      returns (ok: bool)
      requires Valid() && i in files0 && Writing(blocks0, files0, blocks, files, i, off, src, tot)
      requires tot < |src| && off <= files0[i].size && off + |src| <= MAXFILE * BSIZE
      modifies this`blocks, this`used, this`files, this`owner
      ensures Valid()
      ensures ok ==> Writing(blocks0, files0, blocks, files, i, off, src, tot + ChunkLen(off, src, tot))
      ensures !ok ==> Stopped(blocks0, files0, blocks, files, i, off, src, tot)
      ensures var bn := (off + tot) / BSIZE;
              if ok then
                && Clear(old(used)) == Clear(used) + NeedOne(old(blocks), old(files)[i], bn)
                && Maps(old(blocks), old(files)[i], blocks, files[i], bn)
              else Clear(old(used)) < NeedOne(old(blocks), old(files)[i], bn)
    {
      hide FsOk, FileBlock, Indirect, OneMore, SameMap, SameExceptMap, DataKept, ByteAt, MappedTo, Others, Written,
        Patch, Tracked, Extends, ZeroBlock, Dense, Clear, NeedOne, Maps, SameBytes;
      var o := off + tot;
      ghost var n := Max(BlocksFor(files0[i].size), BlocksFor(o));
      var b := Bmap(i, o / BSIZE);
      SizesSame(old(blocks), old(files), blocks, files, i);
      OthersAfterBmap(blocks0, files0, old(blocks), old(used), old(files), old(owner), blocks, files, owner, nmeta, i);
      if b.None? {
        SameMapBytes(old(blocks), old(used), old(files), old(owner), blocks, files, owner, nmeta, i);
        WrittenSame(blocks0, files0[i], old(blocks), old(files)[i], blocks, files[i], off, src, tot);
        return false;
      }
      BytesAfterBmap(old(blocks), old(used), old(files), old(owner), blocks, files, owner, nmeta, i, o / BSIZE,
                     b.value);
      WrittenSame(blocks0, files0[i], old(blocks), old(files)[i], blocks, files[i], off, src, tot);
      BlockShape(blocks, used, files, owner, nmeta, b.value);
      if Dense(blocks0, files0[i]) {
        MapAfterBmap(old(blocks), old(files)[i], blocks, files[i], o / BSIZE, n, b.value);
      }
      TrackedBmap(blocks0, files0[i], old(blocks), old(files)[i], blocks, files[i], off, src, tot, b.value);
      var m := Min(|src| - tot, BSIZE - o % BSIZE);
      ghost var blocks1 := blocks;
      blocks := blocks[b.value := Patch(blocks[b.value], o % BSIZE, src[tot..tot + m])];
      ChunkWritten(blocks0, files0, blocks1, used, files, owner, nmeta, i, off, src, tot, b.value, blocks);
      MapsAfterBmap(old(blocks), old(files)[i], blocks1, files[i], o / BSIZE, b.value);
      MapsStays(old(blocks), old(files)[i], blocks1, blocks, files[i], o / BSIZE);
      return true;
    }

    /** writei on a file or directory: splice `src` into its bytes at `off`.  None stands for the
        panic "balloc: out of blocks", which leaves the size as it was and a part of `src` in place.  The
        inode on disk follows if and only if the file grows, or no block had to be mapped that the inode
        itself names.  The panic comes exactly when there are fewer free blocks than the range needs. */
    method Writei(i: nat, src: seq<nat>, off: nat) returns (r: Option<int>)
      requires Valid() && i in files && off < UINT && |src| < UINT
      requires i in dinodes && dinodes[i] == files[i]
      modifies this
      ensures Valid() && files.Keys == old(files).Keys
      ensures Others(old(blocks), old(files), blocks, files, i)
      ensures Refused(old(files)[i], off, |src|) <==> r == Some(-1)
      ensures r == Some(-1) ==>
                blocks == old(blocks) && files == old(files) && dinodes == old(dinodes) && used == old(used)
      ensures r.None? ==>
                && dinodes == old(dinodes)
                && exists tot :: 0 <= tot < |src| && Stopped(old(blocks), old(files), blocks, files, i, off, src, tot)
      ensures r.Some? && r != Some(-1) ==>
                && r == Some(|src|)
                && Content(blocks, files[i]) == Splice(Content(old(blocks), old(files)[i]), off, src)
                && files[i].typ == old(files)[i].typ && files[i].nlink == old(files)[i].nlink
                && i in dinodes && dinodes == old(dinodes)[i := dinodes[i]]
                && (dinodes[i] == files[i] <==>
                      off + |src| > old(files)[i].size || Steady(old(blocks), old(files)[i], off, |src|))
      ensures r.Some? && Dense(old(blocks), old(files)[i]) ==>
                Dense(blocks, files[i]) && dinodes == old(dinodes)[i := files[i]]
      ensures r.None? <==>
                && !Refused(old(files)[i], off, |src|)
                && Clear(old(used)) < RangeNeed(old(blocks), old(files)[i], off, |src|)
      ensures r.Some? && r != Some(-1) ==>
                Balanced(old(used), old(blocks), old(files)[i], off / BSIZE, used, blocks, files[i], Reach(off, |src|))
    {
      hide FsOk, ByteAt, MappedTo, Others, Written, Splice, Content, Tracked, Steady, Clear, Balanced, Reach,
        RangeNeed, NeedOne, Maps;
      if off > files[i].size || (off + |src|) % UINT < off {
        NoOthers(blocks, files, i);
        return Some(-1);
      }
      if off + |src| > MAXFILE * BSIZE {
        NoOthers(blocks, files, i);
        return Some(-1);
      }
      WritingStarts(blocks, used, files, owner, nmeta, i, off, src);
      var tot := 0;
      BalancedStart(used, blocks, files[i], off);
      while tot < |src|
        invariant tot <= |src| && Valid() && dinodes == old(dinodes)
        invariant Writing(old(blocks), old(files), blocks, files, i, off, src, tot)
        invariant Balanced(old(used), old(blocks), old(files)[i], off / BSIZE, used, blocks, files[i], Reach(off, tot))
      {
        ghost var used1, blocks1, ip1 := used, blocks, files[i];
        var ok := WriteChunk(i, off, src, tot, old(blocks), old(files));
        BalancedChunk(old(used), old(blocks), old(files)[i], off, tot, ChunkLen(off, src, tot), |src|, used1, blocks1,
                      ip1, used, blocks, files[i], ok);
        if !ok {
          return None;
        }
        tot := tot + ChunkLen(off, src, tot);
      }
      Enough(old(used), old(blocks), old(files)[i], used, blocks, files[i], off, |src|);
      BalancedSize(old(used), old(blocks), old(files)[i], off / BSIZE, used, blocks, files[i], Reach(off, |src|),
                   off + |src|);
      TrackedIs(old(blocks), old(files)[i], blocks, files[i], off, |src|);
      DenseSteady(old(blocks), old(files)[i], off, |src|);
      if |src| > 0 && off + |src| > files[i].size {
        SizeChange(old(blocks), old(files), blocks, used, files, owner, nmeta, i, off + |src|);
        WrittenStays(old(blocks), old(files)[i], blocks, files[i], files[i].(size := off + |src|), off, src);
        files := files[i := files[i].(size := off + |src|)];
        dinodes := dinodes[i := files[i]];
      }
      WrittenIsSplice(old(blocks), old(files)[i], blocks, files[i], off, src);
      r := Some(|src|);
    }

    /** bfree. */
    method Bfree(b: nat)
      requires b < |used| && used[b]     // else panic "freeing free block"
      modifies this`used
      ensures used == old(used)[b := false]
    {
      used := used[b := false];
    }

    /** itrunc: inode `i` gives back every block it owns, and no other block changes hands. */
    method Itrunc(i: nat)
      requires Valid() && i in files
      modifies this
      ensures Valid() && blocks == old(blocks) && owner == Disowned(old(owner), i)
      ensures files == old(files)[i := old(files)[i].(size := 0, addrs := NoAddrs())]
      ensures dinodes == old(dinodes)[i := files[i]]
    {
      hide FsOk, FileBlock, Indirect, SetWord, Word, Cleared, Disowned;
      AddrsOf(blocks, used, files, owner, nmeta, i, 0);
      ghost var ip0 := files[i];
      var k := 0;
      while k < NDIRECT
        invariant k <= NDIRECT && Valid() && i in files && blocks == old(blocks) && dinodes == old(dinodes)
        invariant files == old(files)[i := ip0.(addrs := files[i].addrs)]
        invariant |files[i].addrs| == NDIRECT + 1
        invariant forall n :: 0 <= n < k ==> files[i].addrs[n] == 0
        invariant Disowned(owner, i) == Disowned(old(owner), i)
      {
        if files[i].addrs[k] != 0 {
          DetachDirect(blocks, used, files, owner, nmeta, i, k);
          DisownedDrop(owner, i, files[i].addrs[k]);
          Bfree(files[i].addrs[k]);
          owner := owner - {files[i].addrs[k]};
          files := files[i := files[i].(addrs := files[i].addrs[k := 0])];
        }
        k := k + 1;
      }
      if files[i].addrs[NDIRECT] != 0 {
        FreeEntries(i);
      }
      SizeOnly(blocks, used, files, owner, nmeta, i);
      NoAddrsIs(files[i].addrs);
      NothingOwned(blocks, used, files, owner, nmeta, i);
      files := files[i := files[i].(size := 0)];
      dinodes := dinodes[i := files[i]];
    }

    /** The second half of itrunc: the entries of the indirect block, then the block itself.  The
        entries are not cleared on disk; `blocks` with the first `j` of them cleared is the disk that
        the bitmap agrees with meanwhile. */
    method FreeEntries(i: nat)
      requires Valid() && i in files && |files[i].addrs| == NDIRECT + 1 && files[i].addrs[NDIRECT] != 0
      modifies this`used, this`files, this`owner
      ensures Valid() && files == old(files)[i := old(files)[i].(addrs := old(files)[i].addrs[NDIRECT := 0])]
      ensures Disowned(owner, i) == Disowned(old(owner), i)
    {
      hide FsOk, FileBlock, Indirect, SetWord, Word, Cleared, Disowned;
      AddrsOf(blocks, used, files, owner, nmeta, i, 0);
      var x := files[i].addrs[NDIRECT];
      ClearedStart(blocks[x]);
      assert blocks[x := blocks[x]] == blocks;
      var j := 0;
      while j < NINDIRECT
        invariant j <= NINDIRECT && files == old(files) && |Cleared(blocks[x], j)| == BSIZE
        invariant FsOk(blocks[x := Cleared(blocks[x], j)], used, files, owner, nmeta)
        invariant Disowned(owner, i) == Disowned(old(owner), i)
      {
        ghost var virtual := blocks[x := Cleared(blocks[x], j)];
        DetachEntry(virtual, used, files, owner, nmeta, i, j);
        ClearedStep(blocks[x], j);
        assert virtual[x := SetWord(virtual[x], j, 0)] == blocks[x := Cleared(blocks[x], j + 1)];
        var b := Word(blocks[x], j);
        if b != 0 {
          DisownedDrop(owner, i, b);
          Bfree(b);
          owner := owner - {b};
        }
        j := j + 1;
      }
      ghost var virtual := blocks[x := Cleared(blocks[x], NINDIRECT)];
      AllCleared(virtual, used, files, owner, nmeta, i, blocks[x]);
      DetachIndirect(virtual, used, files, owner, nmeta, i, blocks[x]);
      assert virtual[x := blocks[x]] == blocks;
      DisownedDrop(owner, i, x);
      Bfree(x);
      owner := owner - {x};
      files := files[i := files[i].(addrs := files[i].addrs[NDIRECT := 0])];
    }

    /** filewrite's chunk loop: its chunks compose to one splice.  `done` bytes are written when it stops: all, or
        the chunks below the largest file size.  None is the panic "out of blocks", which comes exactly when there
        are fewer free blocks than those bytes need. */
    method Filewrite(i: nat, src: seq<nat>, off: nat) returns (r: Option<int>, done: nat)
      requires Valid() && i in files && Dense(blocks, files[i]) && off < UINT && |src| < 0x8000_0000
      requires i in dinodes && dinodes[i] == files[i]
      modifies this
      ensures Valid() && files.Keys == old(files).Keys && done <= |src|
      ensures Others(old(blocks), old(files), blocks, files, i)
      ensures r.Some? ==>
                && r == Some(if done == |src| then |src| else -1)
                && (done == |src| <==> |src| == 0 || !Refused(old(files)[i], off, |src|))
                && done == Accepted(old(files)[i], off, |src|)
                && (done > 0 ==> off <= old(files)[i].size)
                && Content(blocks, files[i]) ==
                     (if done == 0 then Content(old(blocks), old(files)[i])
                      else Splice(Content(old(blocks), old(files)[i]), off, src[..done]))
                && Dense(blocks, files[i]) && dinodes == old(dinodes)[i := files[i]]
      ensures r.None? <==> TooFew(old(used), old(blocks), old(files)[i], off, Accepted(old(files)[i], off, |src|))
    {
      hide FsOk, FileBlock, Indirect, ByteAt, MappedTo, Others, Splice, Content, Dense, Clear, RangeNeed, Balanced,
        Reach, Stopped, Refused, Accepted, Steady;
      NoOthers(blocks, files, i);
      ghost var c0 := Content(blocks, files[i]);
      SpliceNothing(blocks, files[i], off);
      AcceptedIff(files[i], off, |src|);
      if off <= MAXFILE * BSIZE { NothingNeeded(blocks, files[i], off); }
      done := 0;
      while done < |src|
        invariant done <= |src| && Valid() && files.Keys == old(files).Keys
        invariant Others(old(blocks), old(files), blocks, files, i) && Dense(blocks, files[i])
        invariant dinodes == old(dinodes)[i := files[i]]
        invariant done == 0 ==> blocks == old(blocks) && files == old(files)
        invariant done == 0 ==> used == old(used)
        invariant InChunks(old(files)[i], off, |src|, done)
        invariant done > 0 ==>
                    && Balanced(old(used), old(blocks), old(files)[i], off / BSIZE, used, blocks, files[i],
                                Reach(off, done))
                    && off <= old(files)[i].size && off + done <= MAXFILE * BSIZE
                    && files[i].size == Max(old(files)[i].size, off + done)
                    && off <= |c0| && Content(blocks, files[i]) == Splice(c0, off, src[..done])
      {
        var n1 := Min(|src| - done, CHUNK);
        ghost var used1, blocks1, files1 := used, blocks, files;
        var w := Writei(i, src[done..done + n1], off + done);
        NextChunk(old(files)[i], files1[i], off, |src|, done, n1);
        OthersTwice(old(blocks), old(files), blocks1, files1, blocks, files, i);
        if w.None? {
          ShortChunk(old(used), old(blocks), old(files)[i], off, done, used1, blocks1, files1[i], n1,
                     Accepted(old(files)[i], off, |src|));
          return None, done;
        }
        if w.value < 0 {
          if done > 0 {
            Enough(old(used), old(blocks), old(files)[i], used, blocks, files[i], off, done);
          }
          return Some(-1), done;
        }
        BalancedNext(old(used), old(blocks), old(files)[i], off, done, used1, blocks1, files1[i], n1, used, blocks,
                     files[i]);
        SpliceStep(old(blocks), old(files)[i], blocks1, files1[i], blocks, files[i], c0, off, src, done, n1);
        done := done + n1;
      }
      r := Some(|src|);
      if |src| > 0 {
        Enough(old(used), old(blocks), old(files)[i], used, blocks, files[i], off, |src|);
      }
    }
  }

  lemma MapsAfterBmap(blocks0: seq<Block>, ip0: Inode, blocks: seq<Block>, ip: Inode, bn: nat, b: nat)
    requires bn < MAXFILE && b != 0 && FileBlock(blocks, ip, bn) == b
    requires FileBlock(blocks0, ip0, bn) != 0 ==> blocks == blocks0 && ip == ip0
    requires FileBlock(blocks0, ip0, bn) == 0 ==>
               && OneMore(blocks0, ip0, blocks, ip, bn, b)
               && (Indirect(ip) != 0 <==> Indirect(ip0) != 0 || bn >= NDIRECT)
    ensures Maps(blocks0, ip0, blocks, ip, bn)
  {
    hide FileBlock, Indirect;
  }

  lemma MapsStays(blocks0: seq<Block>, ip0: Inode, blocks1: seq<Block>, blocks2: seq<Block>, ip: Inode, bn: nat)
    requires bn < MAXFILE && Maps(blocks0, ip0, blocks1, ip, bn)
    requires forall c :: 0 <= c < MAXFILE ==> FileBlock(blocks2, ip, c) == FileBlock(blocks1, ip, c)
    ensures Maps(blocks0, ip0, blocks2, ip, bn)
  {
    hide FileBlock, Indirect;
  }

  /** One turn of the loop of readi or writei, for `m` of the `n` bytes from `off` on, after `tot` of them. */
  lemma BalancedChunk(used0: seq<bool>, blocks0: seq<Block>, ip0: Inode, off: nat, tot: nat, m: nat, n: nat,
                      used1: seq<bool>, blocks1: seq<Block>, ip1: Inode,
                      used2: seq<bool>, blocks2: seq<Block>, ip2: Inode, ok: bool)
    requires tot < n && off + n <= MAXFILE * BSIZE && m == Min(n - tot, BSIZE - (off + tot) % BSIZE)
    requires 0 < tot ==> (off + tot) % BSIZE == 0
    requires Balanced(used0, blocks0, ip0, off / BSIZE, used1, blocks1, ip1, Reach(off, tot))
    requires var bn := (off + tot) / BSIZE;
             if ok then
               && Clear(used1) == Clear(used2) + NeedOne(blocks1, ip1, bn)
               && Maps(blocks1, ip1, blocks2, ip2, bn)
             else Clear(used1) < NeedOne(blocks1, ip1, bn)
    ensures if ok then Balanced(used0, blocks0, ip0, off / BSIZE, used2, blocks2, ip2, Reach(off, tot + m))
            else Clear(used0) < RangeNeed(blocks0, ip0, off, n)
  {
    hide Clear, NeedOne, Maps, Need, Balanced, Reach;
    ReachStep(off, tot, m);
    ReachGrows(off, tot, n);
    if ok {
      BalancedStep(used0, blocks0, ip0, off / BSIZE, used1, blocks1, ip1, used2, blocks2, ip2, (off + tot) / BSIZE);
    } else {
      BalancedShort(used0, blocks0, ip0, off / BSIZE, used1, blocks1, ip1, (off + tot) / BSIZE, Reach(off, n));
    }
  }

  lemma BalancedStart(used: seq<bool>, blocks: seq<Block>, ip: Inode, off: nat)
    ensures Balanced(used, blocks, ip, off / BSIZE, used, blocks, ip, Reach(off, 0))
  {
  }

  lemma Enough(used0: seq<bool>, blocks0: seq<Block>, ip0: Inode, used: seq<bool>, blocks: seq<Block>, ip: Inode,
               off: nat, n: nat)
    requires off + n <= MAXFILE * BSIZE
    requires Balanced(used0, blocks0, ip0, off / BSIZE, used, blocks, ip, Reach(off, n))
    ensures Clear(used0) >= RangeNeed(blocks0, ip0, off, n)
  {
    hide Clear, Need, Balanced, Reach;
    if n > 0 {
      ReachBound(off, n);
      BalancedDone(used0, blocks0, ip0, off / BSIZE, used, blocks, ip, Reach(off, n));
    }
  }

  lemma BalancedSize(used0: seq<bool>, blocks0: seq<Block>, ip0: Inode, lo: nat,
                     used: seq<bool>, blocks: seq<Block>, ip: Inode, next: nat, size: nat)
    requires Balanced(used0, blocks0, ip0, lo, used, blocks, ip, next)
    ensures Balanced(used0, blocks0, ip0, lo, used, blocks, ip.(size := size), next)
  {
    hide Clear, Missing;
    SizeIrrelevant(blocks, ip, size);
    forall hi | next <= hi <= MAXFILE
      ensures Need(blocks, ip.(size := size), next, hi) == Need(blocks, ip, next, hi)
    {
      MissingSame(blocks, ip, blocks, ip.(size := size), next, hi);
    }
  }

  const LOGSIZE: nat := 30
  const CHUNK: nat := ((LOGSIZE - 1 - 1 - 2) / 2) * 512

  /** How much of a write of `n` bytes filewrite gets in: whole chunks, as long as the file does not become too
      large. */
  function Accepted(ip: Inode, off: nat, n: nat): nat {
    if off > ip.size || off > MAXFILE * BSIZE then 0
    else if off + n <= MAXFILE * BSIZE then n
    else (MAXFILE * BSIZE - off) / CHUNK * CHUNK
  }

  /** Fewer blocks are free than `n` bytes from `off` on need. */
  predicate TooFew(used: seq<bool>, blocks: seq<Block>, ip: Inode, off: nat, n: nat) {
    off + n <= MAXFILE * BSIZE && Clear(used) < RangeNeed(blocks, ip, off, n)
  }

  lemma NothingNeeded(blocks: seq<Block>, ip: Inode, off: nat)
    requires off <= MAXFILE * BSIZE
    ensures RangeNeed(blocks, ip, off, 0) == 0
  {
  }

  /** `done` bytes are in and the next chunk is to come. */
  predicate InChunks(ip: Inode, off: nat, n: nat, done: nat) {
    done <= Accepted(ip, off, n) && (done == n || done % CHUNK == 0)
  }

  lemma WholeChunks(room: nat, k: nat)
    requires k % CHUNK == 0
    ensures k <= room ==> k <= room / CHUNK * CHUNK
    ensures k <= room < k + CHUNK ==> k == room / CHUNK * CHUNK
    ensures room / CHUNK * CHUNK <= room
  {
    assert CHUNK == 6656;
    assert k == k / 6656 * 6656;
    assert room == room / 6656 * 6656 + room % 6656;
  }

  lemma ChunkAfter(k: nat)
    requires k % CHUNK == 0
    ensures (k + CHUNK) % CHUNK == 0
  {
  }

  /** The next chunk is refused exactly when no more is accepted. */
  lemma NextChunk(ip0: Inode, ip: Inode, off: nat, n: nat, done: nat, n1: nat)
    requires InChunks(ip0, off, n, done) && done < n < 0x8000_0000 && n1 == Min(n - done, CHUNK)
    requires done > 0 ==> off <= ip0.size && off + done <= MAXFILE * BSIZE && off + done <= ip.size
    requires done == 0 ==> ip == ip0
    ensures Refused(ip, off + done, n1) ==> done == Accepted(ip0, off, n)
    ensures !Refused(ip, off + done, n1) ==>
              && InChunks(ip0, off, n, done + n1) && off + done + n1 <= MAXFILE * BSIZE && off <= ip0.size
              && off + Accepted(ip0, off, n) <= MAXFILE * BSIZE
  {
    if off <= MAXFILE * BSIZE {
      var room := MAXFILE * BSIZE - off;
      WholeChunks(room, done);
      ChunkAfter(done);
      WholeChunks(room, done + CHUNK);
    }
  }

  lemma AcceptedIff(ip: Inode, off: nat, n: nat)
    requires n < 0x8000_0000
    ensures Accepted(ip, off, n) == n <==> n == 0 || !Refused(ip, off, n)
    ensures Accepted(ip, off, n) <= n && (Accepted(ip, off, n) > 0 ==> off + Accepted(ip, off, n) <= MAXFILE * BSIZE)
  {
    if off <= MAXFILE * BSIZE {
      WholeChunks(MAXFILE * BSIZE - off, 0);
    }
  }

  /** The block where the next chunk starts is the first not reached yet, or the last one reached. */
  lemma NextReach(off: nat, done: nat, n1: nat)
    requires 0 < n1
    ensures Reach(off, done + n1) == Reach(off + done, n1) > (off + done) / BSIZE
    ensures Reach(off, done) == (off + done) / BSIZE ||
            (done > 0 && (off + done) % BSIZE != 0 && Reach(off, done) == (off + done) / BSIZE + 1)
  {
  }

  /** The free blocks after `done` bytes, for any range that goes on from there. */
  lemma BalancedAt(used0: seq<bool>, blocks0: seq<Block>, ip0: Inode, off: nat, done: nat,
                   used1: seq<bool>, blocks1: seq<Block>, ip1: Inode, hi: nat)
    requires done == 0 ==> used1 == used0 && blocks1 == blocks0 && ip1 == ip0
    requires done > 0 ==> Balanced(used0, blocks0, ip0, off / BSIZE, used1, blocks1, ip1, Reach(off, done))
    requires Dense(blocks1, ip1) && off + done <= ip1.size && (off + done) / BSIZE < hi <= MAXFILE
    ensures Clear(used1) + Need(blocks0, ip0, off / BSIZE, hi) ==
            Clear(used0) + Need(blocks1, ip1, (off + done) / BSIZE, hi)
  {
    hide Clear, Need, Reach;
    NextReach(off, done, 1);
    if done > 0 && Reach(off, done) != (off + done) / BSIZE {
      MappedBelow(blocks1, ip1, BlocksFor(ip1.size), (off + done) / BSIZE);
      NeedSkip(blocks1, ip1, (off + done) / BSIZE, hi);
    }
  }

  lemma BalancedNext(used0: seq<bool>, blocks0: seq<Block>, ip0: Inode, off: nat, done: nat,
                     used1: seq<bool>, blocks1: seq<Block>, ip1: Inode, n1: nat,
                     used2: seq<bool>, blocks2: seq<Block>, ip2: Inode)
    requires done == 0 ==> used1 == used0 && blocks1 == blocks0 && ip1 == ip0
    requires done > 0 ==> Balanced(used0, blocks0, ip0, off / BSIZE, used1, blocks1, ip1, Reach(off, done))
    requires Dense(blocks1, ip1) && off + done <= ip1.size && 0 < n1
    requires Balanced(used1, blocks1, ip1, (off + done) / BSIZE, used2, blocks2, ip2, Reach(off + done, n1))
    ensures Balanced(used0, blocks0, ip0, off / BSIZE, used2, blocks2, ip2, Reach(off, done + n1))
  {
    hide Clear, Need, Reach, Dense;
    NextReach(off, done, n1);
    forall hi | Reach(off, done + n1) <= hi <= MAXFILE
      ensures Clear(used2) + Need(blocks0, ip0, off / BSIZE, hi) ==
              Clear(used0) + Need(blocks2, ip2, Reach(off, done + n1), hi)
    {
      BalancedAt(used0, blocks0, ip0, off, done, used1, blocks1, ip1, hi);
    }
  }

  /** Too few blocks for a chunk are too few for the whole. */
  lemma ShortChunk(used0: seq<bool>, blocks0: seq<Block>, ip0: Inode, off: nat, done: nat,
                   used1: seq<bool>, blocks1: seq<Block>, ip1: Inode, n1: nat, n: nat)
    requires done == 0 ==> used1 == used0 && blocks1 == blocks0 && ip1 == ip0
    requires done > 0 ==> Balanced(used0, blocks0, ip0, off / BSIZE, used1, blocks1, ip1, Reach(off, done))
    requires Dense(blocks1, ip1) && off + done <= ip1.size && 0 < n1 && done + n1 <= n && off + n <= MAXFILE * BSIZE
    requires Clear(used1) < RangeNeed(blocks1, ip1, off + done, n1)
    ensures Clear(used0) < RangeNeed(blocks0, ip0, off, n)
  {
    hide Clear, Need, Reach, Dense, Balanced;
    NextReach(off, done, n1);
    ReachBound(off + done, n1);
    ReachGrows(off, done + n1, n);
    ReachBound(off, n);
    BalancedAt(used0, blocks0, ip0, off, done, used1, blocks1, ip1, Reach(off + done, n1));
    NeedFurther(blocks0, ip0, off / BSIZE, Reach(off, done + n1), Reach(off, n));
  }

  lemma OthersTwice(blocks: seq<Block>, files: map<nat, Inode>, blocks1: seq<Block>, files1: map<nat, Inode>,
                    blocks2: seq<Block>, files2: map<nat, Inode>, i: nat)
    requires Others(blocks, files, blocks1, files1, i) && Others(blocks1, files1, blocks2, files2, i)
    ensures Others(blocks, files, blocks2, files2, i)
  {
    hide ByteAt;
  }

  lemma SpliceNothing(blocks: seq<Block>, ip: Inode, off: nat)
    ensures |Content(blocks, ip)| == ip.size
  {
  }

  /** Two adjacent splices are one. */
  lemma SpliceSplice(c: seq<nat>, off: nat, s: seq<nat>, t: seq<nat>)
    requires off <= |c| && |s| > 0
    ensures off + |s| <= |Splice(c, off, s)|
    ensures Splice(Splice(c, off, s), off + |s|, t) == Splice(c, off, s + t)
  {
  }

  /** A chunk some writer hands to writei. */
  datatype Chunk = Chunk(off: nat, data: seq<nat>)

  predicate Fits(c: seq<nat>, w: Chunk) { w.off <= |c| && w.off + |w.data| <= MAXFILE * BSIZE }

  predicate Covers(w: Chunk, k: nat) { w.off <= k < w.off + |w.data| }

  /** The bytes of a file after the chunks of any number of writers, in the order writei gets them; a chunk
      that does not fit is refused. */
  function Interleaved(c: seq<nat>, ws: seq<Chunk>): (r: seq<nat>)
    ensures |c| <= |r|
  {
    if ws == [] then c
    else
      var b, w := Interleaved(c, ws[..|ws| - 1]), ws[|ws| - 1];
      if Fits(b, w) then Splice(b, w.off, w.data) else b
  }

  lemma SpliceAt(c: seq<nat>, w: Chunk, k: nat)
    requires w.off <= |c|
    ensures Covers(w, k) ==> k < |Splice(c, w.off, w.data)| && Splice(c, w.off, w.data)[k] == w.data[k - w.off]
    ensures !Covers(w, k) && k < |c| ==> k < |Splice(c, w.off, w.data)| && Splice(c, w.off, w.data)[k] == c[k]
  {
    if k < w.off {
      assert Splice(c, w.off, w.data)[k] == c[..w.off][k];
    }
  }

  /** Whatever other writers do between two chunks of a filewrite, each byte a chunk put in place stays until a
      later chunk covers it. */
  lemma {:induction false} StaysWritten(c: seq<nat>, ws: seq<Chunk>, i: nat, k: nat)
    requires i < |ws| && Fits(Interleaved(c, ws[..i]), ws[i]) && Covers(ws[i], k)
    requires forall j :: i < j < |ws| && Fits(Interleaved(c, ws[..j]), ws[j]) ==> !Covers(ws[j], k)
    ensures k < |Interleaved(c, ws)| && Interleaved(c, ws)[k] == ws[i].data[k - ws[i].off]
    decreases |ws|
  {
    hide Splice;
    var init, w := ws[..|ws| - 1], ws[|ws| - 1];
    var b := Interleaved(c, init);
    if i < |init| {
      assert init[..i] == ws[..i];
      forall j | i < j < |init| && Fits(Interleaved(c, init[..j]), init[j]) ensures !Covers(init[j], k) {
        assert init[..j] == ws[..j];
      }
      StaysWritten(c, init, i, k);
    }
    if Fits(b, w) {
      SpliceAt(b, w, k);
    }
  }

  lemma SpliceStep(blocks0: seq<Block>, ip0: Inode, blocks1: seq<Block>, ip1: Inode, blocks2: seq<Block>, ip2: Inode,
                   c0: seq<nat>, off: nat, src: seq<nat>, done: nat, n1: nat)
    requires 0 < n1 && done + n1 <= |src| && off + done <= ip1.size
    requires c0 == Content(blocks0, ip0) && (done == 0 ==> Content(blocks1, ip1) == c0)
    requires done > 0 ==> off <= |c0| && Content(blocks1, ip1) == Splice(c0, off, src[..done])
    requires Content(blocks2, ip2) == Splice(Content(blocks1, ip1), off + done, src[done..done + n1])
    ensures off <= |c0| && Content(blocks2, ip2) == Splice(c0, off, src[..done + n1])
    ensures ip2.size == Max(ip0.size, off + done + n1)
  {
    hide ByteAt;
    assert src[..done] + src[done..done + n1] == src[..done + n1];
    if done > 0 {
      SpliceSplice(c0, off, src[..done], src[done..done + n1]);
    } else {
      assert src[done..done + n1] == src[..done + n1];
    }
  }

  function NoAddrs(): (r: seq<nat>)
    ensures |r| == NDIRECT + 1
  {
    seq(NDIRECT + 1, _ => 0)
  }

  lemma NewInode(blocks: seq<Block>, used: seq<bool>, files: map<nat, Inode>, owner: map<nat, Role>, nmeta: nat,
                 i: nat, typ: nat, nlink: nat)
    requires FsOk(blocks, used, files, owner, nmeta) && i !in files
    ensures var ip := Inode(typ, nlink, 0, NoAddrs());
            FsOk(blocks, used, files[i := ip], owner, nmeta) && Dense(blocks, ip)
  {
    var ip := Inode(typ, nlink, 0, NoAddrs());
    var files' := files[i := ip];
    assert Indirect(ip) == 0 && forall bn :: 0 <= bn < MAXFILE ==> FileBlock(blocks, ip, bn) == 0;
    hide FileBlock, Indirect;
    forall j | j in files' ensures InodeOwned(blocks, files', owner, j) {
      assert j in files ==> InodeOwned(blocks, files, owner, j);
    }
    forall b | b in owner ensures HasRole(blocks, files', b, owner[b]) {
      assert HasRole(blocks, files, b, owner[b]);
    }
  }

  lemma DropInode(blocks: seq<Block>, used: seq<bool>, files: map<nat, Inode>, owner: map<nat, Role>, nmeta: nat,
                  i: nat)
    requires FsOk(blocks, used, files, owner, nmeta) && i in files && files[i].addrs == NoAddrs()
    ensures FsOk(blocks, used, files - {i}, owner, nmeta)
  {
    NothingOwned(blocks, used, files, owner, nmeta, i);
    hide FileBlock, Indirect;
    forall j | j in files - {i} ensures InodeOwned(blocks, files - {i}, owner, j) {
      assert InodeOwned(blocks, files, owner, j);
    }
    forall b | b in owner ensures HasRole(blocks, files - {i}, b, owner[b]) {
      assert HasRole(blocks, files, b, owner[b]) && b in Disowned(owner, i);
    }
  }

  lemma DisownedTwice(owner: map<nat, Role>, i: nat)
    ensures Disowned(Disowned(owner, i), i) == Disowned(owner, i)
  {
  }

  lemma NoAddrsIs(addrs: seq<nat>)
    requires |addrs| == NDIRECT + 1 && forall n :: 0 <= n <= NDIRECT ==> addrs[n] == 0
    ensures addrs == NoAddrs()
  {
  }

  /** The owner map without the blocks of inode `i`. */
  ghost function Disowned(owner: map<nat, Role>, i: nat): map<nat, Role> {
    map b | b in owner && owner[b].inum != i :: owner[b]
  }

  lemma DisownedDrop(owner: map<nat, Role>, i: nat, b: nat)
    requires b in owner && owner[b].inum == i
    ensures Disowned(owner - {b}, i) == Disowned(owner, i)
  {
  }

  /** The block with its first `j` words cleared. */
  ghost function Cleared(b: Block, j: nat): (r: Block)
    requires |b| == BSIZE && j <= NINDIRECT
    ensures |r| == BSIZE
  {
    if j == 0 then b else SetWord(Cleared(b, j - 1), j - 1, 0)
  }

  lemma {:induction false} ClearedAt(b: Block, j: nat, k: nat)
    requires |b| == BSIZE && j <= NINDIRECT && k < NINDIRECT
    ensures Word(Cleared(b, j), k) == if k < j then 0 else Word(b, k)
  {
    if j > 0 {
      ClearedAt(b, j - 1, k);
      WordSet(Cleared(b, j - 1), j - 1, 0, k);
    }
  }

  lemma ClearedStart(b: Block)
    requires |b| == BSIZE
    ensures Cleared(b, 0) == b
  {
  }

  lemma ClearedStep(b: Block, j: nat)
    requires |b| == BSIZE && j < NINDIRECT
    ensures Cleared(b, j + 1) == SetWord(Cleared(b, j), j, 0)
    ensures Word(Cleared(b, j), j) == Word(b, j)
  {
    ClearedAt(b, j, j);
  }

  lemma AllCleared(blocks: seq<Block>, used: seq<bool>, files: map<nat, Inode>, owner: map<nat, Role>,
                   nmeta: nat, i: nat, b: Block)
    requires FsOk(blocks, used, files, owner, nmeta) && i in files && |b| == BSIZE && |files[i].addrs| == NDIRECT + 1
    requires var x := files[i].addrs[NDIRECT]; x != 0 && x < |blocks| && blocks[x] == Cleared(b, NINDIRECT)
    ensures forall k :: NDIRECT <= k < MAXFILE ==> FileBlock(blocks, files[i], k) == 0
    ensures Indirect(files[i]) != 0
  {
    forall k | NDIRECT <= k < MAXFILE ensures FileBlock(blocks, files[i], k) == 0 {
      ClearedAt(b, NINDIRECT, k - NDIRECT);
    }
  }

  lemma SizeOnly(blocks: seq<Block>, used: seq<bool>, files: map<nat, Inode>, owner: map<nat, Role>,
                 nmeta: nat, i: nat)
    requires FsOk(blocks, used, files, owner, nmeta) && i in files
    ensures FsOk(blocks, used, files[i := files[i].(size := 0)], owner, nmeta)
  {
    NoOthers(blocks, files, i);
    SizeChange(blocks, files, blocks, used, files, owner, nmeta, i, 0);
  }

  /** An inode without addresses owns nothing. */
  lemma NothingOwned(blocks: seq<Block>, used: seq<bool>, files: map<nat, Inode>, owner: map<nat, Role>,
                     nmeta: nat, i: nat)
    requires FsOk(blocks, used, files, owner, nmeta) && i in files && files[i].addrs == NoAddrs()
    ensures owner == Disowned(owner, i)
  {
    forall b | b in owner ensures owner[b].inum != i {
      assert HasRole(blocks, files, b, owner[b]) && b != 0;
    }
  }

  /** The three tests of writei. */
  predicate Refused(ip: Inode, off: nat, n: nat) {
    off > ip.size || off + n >= UINT || off + n > MAXFILE * BSIZE
  }

  function Patch(b: Block, lo: nat, data: seq<nat>): (r: Block)
    requires lo + |data| <= |b|
    ensures |r| == |b|
    ensures forall k :: 0 <= k < |b| ==> r[k] == if lo <= k < lo + |data| then data[k - lo] else b[k]
  {
    b[..lo] + data + b[lo + |data|..]
  }

  /** `c` with `s` written over it from `off` on, growing it if needed. */
  function Splice(c: seq<nat>, off: nat, s: seq<nat>): (r: seq<nat>)
    requires off <= |c|
    ensures |r| == if |s| == 0 then |c| else Max(|c|, off + |s|)
  {
    c[..off] + s + (if off + |s| < |c| then c[off + |s|..] else [])
  }

  /** All other files have the same inodes and the same bytes. */
  ghost predicate Others(blocks: seq<Block>, files: map<nat, Inode>, blocks': seq<Block>,
                         files': map<nat, Inode>, i: nat) {
    && files'.Keys == files.Keys
    && (forall j :: j in files && j != i ==> files'[j] == files[j])
    && (forall j, k: nat :: j in files && j != i ==> ByteAt(blocks', files[j], k) == ByteAt(blocks, files[j], k))
  }

  /** The first `tot` bytes of `src` are in place and every other byte below the old size is as it
      was. */
  ghost predicate Written(blocks: seq<Block>, ip: Inode, blocks': seq<Block>, ip': Inode, off: nat,
                          src: seq<nat>, tot: nat) {
    && tot <= |src|
    && (forall k :: off <= k < off + tot ==> ByteAt(blocks', ip', k) == src[k - off])
    && (forall k :: 0 <= k < ip.size && !(off <= k < off + tot) ==> ByteAt(blocks', ip', k) == ByteAt(blocks, ip, k))
  }

  /** How much of `src` goes into the block that byte `off + tot` is in. */
  function ChunkLen(off: nat, src: seq<nat>, tot: nat): (m: nat)
    requires tot < |src|
    ensures 0 < m && tot + m <= |src|
  {
    Min(|src| - tot, BSIZE - (off + tot) % BSIZE)
  }

  /** writei after its first `tot` bytes, which end a block unless they are all; the size is set at the
      end. */
  ghost predicate Writing(blocks0: seq<Block>, files0: map<nat, Inode>, blocks: seq<Block>, files: map<nat, Inode>,
                          i: nat, off: nat, src: seq<nat>, tot: nat)
    requires i in files0
  {
    && Stopped(blocks0, files0, blocks, files, i, off, src, tot)
    && (0 < tot < |src| ==> (off + tot) % BSIZE == 0)
    && (Dense(blocks0, files0[i]) ==> MappedTo(blocks, files[i], Max(BlocksFor(files0[i].size), BlocksFor(off + tot))))
    && Tracked(blocks0, files0[i], blocks, files[i], off, tot)
  }

  /** File block `bn` holds one of the `tot` bytes from `off` on. */
  predicate Touches(off: nat, tot: nat, bn: nat) { tot > 0 && off / BSIZE <= bn <= (off + tot - 1) / BSIZE }

  /** No block of the range has to be mapped that the inode itself names: every one is mapped, or is reached
      through an indirect block that there is. */
  ghost predicate Steady(blocks: seq<Block>, ip: Inode, off: nat, tot: nat) {
    forall bn :: 0 <= bn < MAXFILE && Touches(off, tot, bn) && FileBlock(blocks, ip, bn) == 0 ==>
      bn >= NDIRECT && Indirect(ip) != 0
  }

  /** Block numbers are added to the inode and none is changed. */
  predicate Extends(ip: Inode, ip': Inode) {
    |ip'.addrs| == |ip.addrs| && forall j :: 0 <= j < |ip.addrs| && ip.addrs[j] != 0 ==> ip'.addrs[j] == ip.addrs[j]
  }

  /** Blocks outside the range are mapped as they were, and the inode is as it was exactly when it may be. */
  ghost predicate Tracked(blocks0: seq<Block>, ip0: Inode, blocks: seq<Block>, ip: Inode, off: nat, tot: nat) {
    && Extends(ip0, ip)
    && (forall bn :: 0 <= bn < MAXFILE && !Touches(off, tot, bn) ==>
          FileBlock(blocks, ip, bn) == FileBlock(blocks0, ip0, bn))
    && (ip.addrs == ip0.addrs <==> Steady(blocks0, ip0, off, tot))
  }

  lemma TrackedBmap(blocks0: seq<Block>, ip0: Inode, blocks: seq<Block>, ip: Inode, blocks': seq<Block>, ip': Inode,
                    off: nat, src: seq<nat>, tot: nat, b: nat)
    requires Tracked(blocks0, ip0, blocks, ip, off, tot) && tot < |src| && off + |src| <= MAXFILE * BSIZE
    requires 0 < tot ==> (off + tot) % BSIZE == 0
    requires var bn := (off + tot) / BSIZE;
             && (FileBlock(blocks, ip, bn) != 0 ==> blocks' == blocks && ip' == ip)
             && (FileBlock(blocks, ip, bn) == 0 ==>
                   && OneMore(blocks, ip, blocks', ip', bn, b) && Extends(ip, ip')
                   && (ip'.addrs == ip.addrs <==> bn >= NDIRECT && Indirect(ip) != 0))
    ensures Tracked(blocks0, ip0, blocks', ip', off, tot + ChunkLen(off, src, tot))
  {
    hide FileBlock, ChunkLen;
    var bn, m := (off + tot) / BSIZE, ChunkLen(off, src, tot);
    ChunkTouches(off, src, tot);
    assert Steady(blocks0, ip0, off, tot + m) <==>
             && Steady(blocks0, ip0, off, tot)
             && (FileBlock(blocks0, ip0, bn) == 0 ==> bn >= NDIRECT && Indirect(ip0) != 0);
    if ip.addrs != ip0.addrs && FileBlock(blocks, ip, bn) == 0 {
      StillExtended(ip0, ip, ip');
    }
  }

  /** A chunk touches the one block it starts in, which no earlier chunk did. */
  lemma ChunkTouches(off: nat, src: seq<nat>, tot: nat)
    requires tot < |src| && off + |src| <= MAXFILE * BSIZE && (0 < tot ==> (off + tot) % BSIZE == 0)
    ensures var bn := (off + tot) / BSIZE;
            && bn < MAXFILE && !Touches(off, tot, bn)
            && forall c: nat :: Touches(off, tot + ChunkLen(off, src, tot), c) <==> Touches(off, tot, c) || c == bn
  {
    var m := ChunkLen(off, src, tot);
    var o := off + tot;
    assert o == o / BSIZE * BSIZE + o % BSIZE;
    assert (o + m - 1) / BSIZE == o / BSIZE;
    assert tot > 0 ==> (o - 1) / BSIZE == o / BSIZE - 1;
  }

  lemma StillExtended(ip0: Inode, ip: Inode, ip': Inode)
    requires Extends(ip0, ip) && Extends(ip, ip') && ip.addrs != ip0.addrs
    ensures Extends(ip0, ip') && ip'.addrs != ip0.addrs
  {
    assert ip'.addrs == ip0.addrs ==> ip.addrs == ip0.addrs;
  }

  lemma TrackedSame(blocks0: seq<Block>, ip0: Inode, blocks: seq<Block>, blocks': seq<Block>, ip: Inode, off: nat,
                    tot: nat)
    requires Tracked(blocks0, ip0, blocks, ip, off, tot)
    requires forall c :: 0 <= c < MAXFILE ==> FileBlock(blocks', ip, c) == FileBlock(blocks, ip, c)
    ensures Tracked(blocks0, ip0, blocks', ip, off, tot)
  {
    hide FileBlock, Steady;
  }

  lemma TrackedIs(blocks0: seq<Block>, ip0: Inode, blocks: seq<Block>, ip: Inode, off: nat, tot: nat)
    requires Tracked(blocks0, ip0, blocks, ip, off, tot)
    ensures ip.addrs == ip0.addrs <==> Steady(blocks0, ip0, off, tot)
  {
  }

  /** An in-place write to a file with all its blocks maps nothing. */
  lemma DenseSteady(blocks: seq<Block>, ip: Inode, off: nat, tot: nat)
    ensures Dense(blocks, ip) && off + tot <= ip.size ==> Steady(blocks, ip, off, tot)
  {
    hide FileBlock, Indirect;
    if Dense(blocks, ip) && off + tot <= ip.size && tot > 0 {
      assert (off + tot - 1) / BSIZE < BlocksFor(ip.size);
    }
  }

  lemma SizesSame(blocks: seq<Block>, files: map<nat, Inode>, blocks': seq<Block>, files': map<nat, Inode>, i: nat)
    requires SameExceptMap(blocks, files, blocks', files', i)
    ensures i in files && i in files' && files'[i].size == files[i].size
    ensures files'[i].typ == files[i].typ && files'[i].nlink == files[i].nlink
  {
  }

  lemma WrittenSame(blocks: seq<Block>, ip: Inode, blocks1: seq<Block>, ip1: Inode, blocks2: seq<Block>, ip2: Inode,
                    off: nat, src: seq<nat>, tot: nat)
    requires Written(blocks, ip, blocks1, ip1, off, src, tot) && SameBytes(blocks1, ip1, blocks2, ip2)
    ensures Written(blocks, ip, blocks2, ip2, off, src, tot)
  {
    hide ByteAt;
  }

  /** Exactly the first `tot` bytes are written, and nothing else about any file has changed. */
  ghost predicate Stopped(blocks0: seq<Block>, files0: map<nat, Inode>, blocks: seq<Block>, files: map<nat, Inode>,
                          i: nat, off: nat, src: seq<nat>, tot: nat)
    requires i in files0
  {
    && files.Keys == files0.Keys && files[i].size == files0[i].size
    && files[i].typ == files0[i].typ && files[i].nlink == files0[i].nlink
    && Others(blocks0, files0, blocks, files, i)
    && Written(blocks0, files0[i], blocks, files[i], off, src, tot)
  }

  lemma NoOthers(blocks: seq<Block>, files: map<nat, Inode>, i: nat)
    ensures Others(blocks, files, blocks, files, i)
  {
  }

  lemma NothingWritten(blocks: seq<Block>, ip: Inode, off: nat, src: seq<nat>)
    requires off <= ip.size && Dense(blocks, ip)
    ensures Written(blocks, ip, blocks, ip, off, src, 0)
    ensures MappedTo(blocks, ip, Max(BlocksFor(ip.size), BlocksFor(off)))
  {
  }

  lemma WritingStarts(blocks: seq<Block>, used: seq<bool>, files: map<nat, Inode>, owner: map<nat, Role>, nmeta: nat,
                      i: nat, off: nat, src: seq<nat>)
    requires FsOk(blocks, used, files, owner, nmeta) && i in files && off <= files[i].size
    ensures Writing(blocks, files, blocks, files, i, off, src, 0)
  {
    hide ByteAt, MappedTo, FsOk;
  }

  ghost predicate SameBytes(blocks: seq<Block>, ip: Inode, blocks': seq<Block>, ip': Inode) {
    ip'.size == ip.size && forall k: nat :: ByteAt(blocks', ip', k) == ByteAt(blocks, ip, k)
  }

  /** `dst` are bytes of the file from `off` on. */
  ghost predicate IsRead(blocks: seq<Block>, ip: Inode, off: nat, dst: seq<nat>) {
    forall k :: 0 <= k < |dst| ==> dst[k] == ByteAt(blocks, ip, off + k)
  }

  lemma SameAlready(blocks: seq<Block>, ip: Inode, off: nat)
    ensures SameBytes(blocks, ip, blocks, ip) && IsRead(blocks, ip, off, [])
  {
  }

  lemma SameTwice(blocks0: seq<Block>, ip0: Inode, blocks1: seq<Block>, ip1: Inode, blocks2: seq<Block>, ip2: Inode)
    requires SameBytes(blocks0, ip0, blocks1, ip1) && SameBytes(blocks1, ip1, blocks2, ip2)
    ensures SameBytes(blocks0, ip0, blocks2, ip2) && ip2.size == ip0.size
  {
    hide ByteAt;
  }

  lemma ReadMore(blocks0: seq<Block>, ip0: Inode, blocks1: seq<Block>, ip1: Inode, off: nat, dst: seq<nat>,
                 data: seq<nat>)
    requires SameBytes(blocks0, ip0, blocks1, ip1) && IsRead(blocks0, ip0, off, dst)
    requires IsRead(blocks1, ip1, off + |dst|, data)
    ensures IsRead(blocks0, ip0, off, dst + data)
  {
    hide ByteAt;
    forall k | 0 <= k < |dst + data| ensures (dst + data)[k] == ByteAt(blocks0, ip0, off + k) {
      if k >= |dst| {
        assert (dst + data)[k] == data[k - |dst|] == ByteAt(blocks1, ip1, off + |dst| + (k - |dst|));
      }
    }
  }

  lemma IsSlice(blocks: seq<Block>, ip: Inode, off: nat, dst: seq<nat>)
    requires off + |dst| <= ip.size && IsRead(blocks, ip, off, dst)
    ensures dst == Content(blocks, ip)[off..off + |dst|]
  {
    hide ByteAt;
  }

  lemma SameContent(blocks: seq<Block>, ip: Inode, blocks': seq<Block>, ip': Inode)
    requires SameBytes(blocks, ip, blocks', ip')
    ensures Content(blocks', ip') == Content(blocks, ip)
  {
    hide ByteAt;
  }

  /** A block that bmap adds reads as the zeroes that were read in its place before. */
  lemma BytesAfterBmap(blocks0: seq<Block>, used0: seq<bool>, files0: map<nat, Inode>, owner0: map<nat, Role>,
                       blocks: seq<Block>, files: map<nat, Inode>, owner: map<nat, Role>, nmeta: nat,
                       i: nat, bn: nat, b: nat)
    requires FsOk(blocks0, used0, files0, owner0, nmeta) && |blocks| == |blocks0| && i in files0 && i in files
    requires bn < MAXFILE
    requires DataKept(blocks0, owner0, blocks, owner) && b != 0 && b < |blocks| && FileBlock(blocks, files[i], bn) == b
    requires FileBlock(blocks0, files0[i], bn) != 0 ==> blocks == blocks0 && files == files0
    requires FileBlock(blocks0, files0[i], bn) == 0 ==>
               OneMore(blocks0, files0[i], blocks, files[i], bn, b) && blocks[b] == ZeroBlock()
    ensures SameBytes(blocks0, files0[i], blocks, files[i])
  {
    hide FsOk, FileBlock, DataKept, ByteAt;
    if FileBlock(blocks0, files0[i], bn) == 0 {
      forall k: nat ensures ByteAt(blocks, files[i], k) == ByteAt(blocks0, files0[i], k) {
        if k / BSIZE == bn {
          ZeroByte(blocks0, files0[i], blocks, files[i], k);
        } else {
          BmapBytes(blocks0, used0, files0, owner0, blocks, files, owner, nmeta, i, k);
        }
      }
    }
  }

  /** A bmap that fails leaves every byte as it was. */
  lemma SameMapBytes(blocks0: seq<Block>, used0: seq<bool>, files0: map<nat, Inode>, owner0: map<nat, Role>,
                     blocks: seq<Block>, files: map<nat, Inode>, owner: map<nat, Role>, nmeta: nat, i: nat)
    requires FsOk(blocks0, used0, files0, owner0, nmeta) && |blocks| == |blocks0| && i in files0 && i in files
    requires DataKept(blocks0, owner0, blocks, owner) && SameMap(blocks0, files0[i], blocks, files[i])
    ensures SameBytes(blocks0, files0[i], blocks, files[i])
  {
    hide FsOk, FileBlock, DataKept, ByteAt;
    forall k: nat ensures ByteAt(blocks, files[i], k) == ByteAt(blocks0, files0[i], k) {
      BmapBytes(blocks0, used0, files0, owner0, blocks, files, owner, nmeta, i, k);
    }
  }

  lemma ZeroByte(blocks0: seq<Block>, ip0: Inode, blocks: seq<Block>, ip: Inode, k: nat)
    requires k / BSIZE < MAXFILE && FileBlock(blocks0, ip0, k / BSIZE) == 0
    requires var b := FileBlock(blocks, ip, k / BSIZE); b < |blocks| && blocks[b] == ZeroBlock()
    ensures ByteAt(blocks, ip, k) == ByteAt(blocks0, ip0, k)
  {
  }

  /** bmap changes no byte outside the block it may have added. */
  lemma BmapBytes(blocks0: seq<Block>, used0: seq<bool>, files0: map<nat, Inode>, owner0: map<nat, Role>,
                  blocks: seq<Block>, files: map<nat, Inode>, owner: map<nat, Role>, nmeta: nat, j: nat, k: nat)
    requires FsOk(blocks0, used0, files0, owner0, nmeta) && |blocks| == |blocks0| && j in files0 && j in files
    requires DataKept(blocks0, owner0, blocks, owner)
    requires k / BSIZE < MAXFILE ==>
               FileBlock(blocks, files[j], k / BSIZE) == FileBlock(blocks0, files0[j], k / BSIZE)
    ensures ByteAt(blocks, files[j], k) == ByteAt(blocks0, files0[j], k)
  {
    if k / BSIZE < MAXFILE {
      AddrsOf(blocks0, used0, files0, owner0, nmeta, j, k / BSIZE);
      hide FileBlock, FsOk;
    }
  }

  lemma OthersAfterBmap(blocks: seq<Block>, files: map<nat, Inode>,
                        blocks0: seq<Block>, used0: seq<bool>, files0: map<nat, Inode>, owner0: map<nat, Role>,
                        blocks': seq<Block>, files': map<nat, Inode>, owner': map<nat, Role>, nmeta: nat, i: nat)
    requires FsOk(blocks0, used0, files0, owner0, nmeta) && |blocks'| == |blocks0|
    requires files'.Keys == files0.Keys && (forall j :: j in files0 && j != i ==> files'[j] == files0[j])
    requires SameExceptMap(blocks0, files0, blocks', files', i) && DataKept(blocks0, owner0, blocks', owner')
    requires Others(blocks, files, blocks0, files0, i)
    ensures Others(blocks, files, blocks', files', i)
  {
    hide FsOk, FileBlock, ByteAt, DataKept;
    forall j, k: nat | j in files && j != i ensures ByteAt(blocks', files[j], k) == ByteAt(blocks, files[j], k) {
      BmapBytes(blocks0, used0, files0, owner0, blocks', files', owner', nmeta, j, k);
    }
  }

  /** Below the mapped part, bmap adds exactly the next block. */
  lemma MapAfterBmap(blocks0: seq<Block>, ip0: Inode, blocks: seq<Block>, ip: Inode, bn: nat, n: nat, b: nat)
    requires MappedTo(blocks0, ip0, n) && bn <= n && bn < MAXFILE && b != 0
    requires FileBlock(blocks0, ip0, bn) != 0 ==> blocks == blocks0 && ip == ip0
    requires FileBlock(blocks0, ip0, bn) == 0 ==>
               && OneMore(blocks0, ip0, blocks, ip, bn, b)
               && (Indirect(ip) != 0 <==> Indirect(ip0) != 0 || bn >= NDIRECT)
    ensures MappedTo(blocks, ip, Max(n, bn + 1))
    ensures forall k :: 0 <= k < MAXFILE && k != bn ==> FileBlock(blocks, ip, k) == FileBlock(blocks0, ip0, k)
    ensures bn < n ==> blocks == blocks0 && ip == ip0
  {
    hide FileBlock, Indirect;
  }

  lemma AfterBmap(blocks: seq<Block>, files: map<nat, Inode>,
                  blocks0: seq<Block>, used0: seq<bool>, files0: map<nat, Inode>, owner0: map<nat, Role>,
                  blocks': seq<Block>, used': seq<bool>, files': map<nat, Inode>, owner': map<nat, Role>,
                  nmeta: nat, i: nat, off: nat, src: seq<nat>, tot: nat, b: Option<nat>)
    requires FsOk(blocks0, used0, files0, owner0, nmeta) && FsOk(blocks', used', files', owner', nmeta)
    requires files'.Keys == files0.Keys && (forall j :: j in files0 && j != i ==> files'[j] == files0[j])
    requires SameExceptMap(blocks0, files0, blocks', files', i) && DataKept(blocks0, owner0, blocks', owner')
    requires |blocks'| == |blocks0| && Others(blocks, files, blocks0, files0, i) && i in files
    requires tot < |src| && off <= files[i].size && off + |src| <= MAXFILE * BSIZE && files0[i].size == files[i].size
    requires MappedTo(blocks0, files0[i], Max(BlocksFor(files[i].size), BlocksFor(off + tot)))
    requires Written(blocks, files[i], blocks0, files0[i], off, src, tot)
    requires var bn := (off + tot) / BSIZE;
             && (FileBlock(blocks0, files0[i], bn) != 0 ==> blocks' == blocks0 && files' == files0)
             && (b.Some? ==> b.value != 0 && b.value < |blocks'| && FileBlock(blocks', files'[i], bn) == b.value)
             && (b.Some? && FileBlock(blocks0, files0[i], bn) == 0 ==>
                   && OneMore(blocks0, files0[i], blocks', files'[i], bn, b.value)
                   && (Indirect(files'[i]) != 0 <==> Indirect(files0[i]) != 0 || bn >= NDIRECT))
    ensures off + tot < files[i].size ==> files' == files0
    ensures Others(blocks, files, blocks', files', i) && files'[i].size == files0[i].size
    ensures files'[i].typ == files0[i].typ && files'[i].nlink == files0[i].nlink
    ensures b.Some? || SameMap(blocks0, files0[i], blocks', files'[i]) ==>
              Written(blocks, files[i], blocks', files'[i], off, src, tot)
    ensures b.Some? ==>
              && MappedTo(blocks', files'[i], Max(Max(BlocksFor(files[i].size), BlocksFor(off + tot)),
                                                  (off + tot) / BSIZE + 1))
              && |blocks'[b.value]| == BSIZE
  {
    hide FsOk, FileBlock, Indirect, ByteAt, DataKept, MappedTo, Others, OneMore, SameMap;
    OthersAfterBmap(blocks, files, blocks0, used0, files0, owner0, blocks', files', owner', nmeta, i);
    MappedBelow(blocks0, files0[i], Max(BlocksFor(files[i].size), BlocksFor(off + tot)), (off + tot) / BSIZE);
    if b.Some? {
      BlockShape(blocks', used', files', owner', nmeta, b.value);
      var n := Max(BlocksFor(files[i].size), BlocksFor(off + tot));
      var bn := (off + tot) / BSIZE;
      MapAfterBmap(blocks0, files0[i], blocks', files'[i], bn, n, b.value);
      forall k: nat | k < files[i].size || k < off + tot
        ensures ByteAt(blocks', files'[i], k) == ByteAt(blocks0, files0[i], k)
      {
        if bn >= n {
          assert k / BSIZE != bn;
          BmapBytes(blocks0, used0, files0, owner0, blocks', files', owner', nmeta, i, k);
        }
      }
    } else if SameMap(blocks0, files0[i], blocks', files'[i]) {
      SameMapBytes(blocks0, used0, files0, owner0, blocks', files', owner', nmeta, i);
    }
  }

  lemma MappedBelow(blocks: seq<Block>, ip: Inode, n: nat, bn: nat)
    requires MappedTo(blocks, ip, n)
    ensures bn < n ==> FileBlock(blocks, ip, bn) != 0
  {
    hide FileBlock;
  }

  lemma BlockShape(blocks: seq<Block>, used: seq<bool>, files: map<nat, Inode>, owner: map<nat, Role>,
                   nmeta: nat, b: nat)
    requires FsOk(blocks, used, files, owner, nmeta) && b < |blocks|
    ensures |blocks[b]| == BSIZE
  {
  }

  /** A byte after the data block `b` of file block `bn` of inode `i` was patched. */
  lemma PatchedByte(blocks: seq<Block>, used: seq<bool>, files: map<nat, Inode>, owner: map<nat, Role>,
                    nmeta: nat, i: nat, bn: nat, b: nat, lo: nat, data: seq<nat>, j: nat, k: nat)
    requires FsOk(blocks, used, files, owner, nmeta) && i in files && j in files && bn < MAXFILE
    requires b != 0 && b < |blocks| && FileBlock(blocks, files[i], bn) == b && lo + |data| <= BSIZE == |blocks[b]|
    ensures var blocks' := blocks[b := Patch(blocks[b], lo, data)];
            && FsOk(blocks', used, files, owner, nmeta)
            && (forall c :: 0 <= c < MAXFILE ==> FileBlock(blocks', files[i], c) == FileBlock(blocks, files[i], c))
            && ByteAt(blocks', files[j], k) ==
                 if j == i && bn * BSIZE + lo <= k < bn * BSIZE + lo + |data| then data[k - bn * BSIZE - lo]
                 else ByteAt(blocks, files[j], k)
  {
    var blocks' := blocks[b := Patch(blocks[b], lo, data)];
    AddrsOf(blocks, used, files, owner, nmeta, i, bn);
    NotIndirect(blocks, used, files, owner, nmeta, b);
    WriteKeeps(blocks, used, files, owner, nmeta, b, Patch(blocks[b], lo, data));
    if k / BSIZE < MAXFILE {
      AddrsOf(blocks, used, files, owner, nmeta, j, k / BSIZE);
      hide FsOk, FileBlock, Patch;
      var c := FileBlock(blocks, files[j], k / BSIZE);
      assert FileBlock(blocks', files[j], k / BSIZE) == c;
      if c == b {
        assert j == i && k / BSIZE == bn;
        assert k == bn * BSIZE + k % BSIZE;
      }
    }
  }

  lemma AfterCopy(blocks: seq<Block>, files: map<nat, Inode>,
                  blocks1: seq<Block>, used: seq<bool>, files1: map<nat, Inode>, owner: map<nat, Role>,
                  nmeta: nat, i: nat, off: nat, src: seq<nat>, tot: nat, m: nat, b: nat, blocks': seq<Block>,
                  dense: bool := true)
    requires FsOk(blocks1, used, files1, owner, nmeta) && Others(blocks, files, blocks1, files1, i) && i in files
    requires off <= files[i].size && files1[i].size == files[i].size && off + |src| <= MAXFILE * BSIZE
    requires tot < |src| && m == Min(|src| - tot, BSIZE - (off + tot) % BSIZE)
    requires b != 0 && b < |blocks1| && FileBlock(blocks1, files1[i], (off + tot) / BSIZE) == b && |blocks1[b]| == BSIZE
    requires blocks' == blocks1[b := Patch(blocks1[b], (off + tot) % BSIZE, src[tot..tot + m])]
    requires Written(blocks, files[i], blocks1, files1[i], off, src, tot)
    requires dense ==>
               MappedTo(blocks1, files1[i], Max(Max(BlocksFor(files[i].size), BlocksFor(off + tot)),
                                                (off + tot) / BSIZE + 1))
    ensures FsOk(blocks', used, files1, owner, nmeta) && Others(blocks, files, blocks', files1, i)
    ensures Written(blocks, files[i], blocks', files1[i], off, src, tot + m)
    ensures forall c :: 0 <= c < MAXFILE ==> FileBlock(blocks', files1[i], c) == FileBlock(blocks1, files1[i], c)
    ensures tot + m < |src| ==> (off + tot + m) % BSIZE == 0
    ensures dense ==> MappedTo(blocks', files1[i], Max(BlocksFor(files[i].size), BlocksFor(off + tot + m)))
  {
    hide FsOk, FileBlock, ByteAt, Indirect, Patch;
    var o := off + tot;
    var bn, lo, data := o / BSIZE, o % BSIZE, src[tot..tot + m];
    assert o == bn * BSIZE + lo && BlocksFor(o + m) == bn + 1 && BlocksFor(o) <= bn + 1;
    PatchedByte(blocks1, used, files1, owner, nmeta, i, bn, b, lo, data, i, 0);
    forall j, k: nat | j in files && j != i ensures ByteAt(blocks', files[j], k) == ByteAt(blocks, files[j], k) {
      PatchedByte(blocks1, used, files1, owner, nmeta, i, bn, b, lo, data, j, k);
    }
    forall k: nat | k < files[i].size || k < o + m
      ensures ByteAt(blocks', files1[i], k) == if o <= k < o + m then src[k - off] else ByteAt(blocks1, files1[i], k)
    {
      PatchedByte(blocks1, used, files1, owner, nmeta, i, bn, b, lo, data, i, k);
    }
  }

  /** The rest of a turn of writei's loop, once bmap has given block `b`. */
  lemma ChunkWritten(blocks: seq<Block>, files: map<nat, Inode>,
                     blocks1: seq<Block>, used: seq<bool>, files1: map<nat, Inode>, owner: map<nat, Role>,
                     nmeta: nat, i: nat, off: nat, src: seq<nat>, tot: nat, b: nat, blocks': seq<Block>)
    requires files1.Keys == files.Keys && i in files
    requires FsOk(blocks1, used, files1, owner, nmeta) && Others(blocks, files, blocks1, files1, i)
    requires off <= files[i].size && files1[i].size == files[i].size && off + |src| <= MAXFILE * BSIZE
    requires files1[i].typ == files[i].typ && files1[i].nlink == files[i].nlink && tot < |src|
    requires b != 0 && b < |blocks1| && FileBlock(blocks1, files1[i], (off + tot) / BSIZE) == b && |blocks1[b]| == BSIZE
    requires var m := ChunkLen(off, src, tot);
             && blocks' == blocks1[b := Patch(blocks1[b], (off + tot) % BSIZE, src[tot..tot + m])]
             && Tracked(blocks, files[i], blocks1, files1[i], off, tot + m)
    requires Written(blocks, files[i], blocks1, files1[i], off, src, tot)
    requires Dense(blocks, files[i]) ==>
               MappedTo(blocks1, files1[i], Max(Max(BlocksFor(files[i].size), BlocksFor(off + tot)),
                                                (off + tot) / BSIZE + 1))
    ensures FsOk(blocks', used, files1, owner, nmeta)
    ensures Writing(blocks, files, blocks', files1, i, off, src, tot + ChunkLen(off, src, tot))
    ensures forall c :: 0 <= c < MAXFILE ==> FileBlock(blocks', files1[i], c) == FileBlock(blocks1, files1[i], c)
  {
    hide FsOk, FileBlock, ByteAt, Patch, Others, Written, Tracked, Dense, MappedTo;
    var m := ChunkLen(off, src, tot);
    AfterCopy(blocks, files, blocks1, used, files1, owner, nmeta, i, off, src, tot, m, b, blocks',
              Dense(blocks, files[i]));
    TrackedSame(blocks, files[i], blocks1, blocks', files1[i], off, tot + m);
  }

  /** Blocks and bytes do not depend on the size field. */
  lemma SizeIrrelevant(blocks: seq<Block>, ip: Inode, size: nat)
    ensures forall bn :: 0 <= bn < MAXFILE ==> FileBlock(blocks, ip.(size := size), bn) == FileBlock(blocks, ip, bn)
    ensures forall k: nat :: ByteAt(blocks, ip.(size := size), k) == ByteAt(blocks, ip, k)
    ensures Indirect(ip.(size := size)) == Indirect(ip)
  {
  }

  lemma SizeChange(blocks: seq<Block>, files: map<nat, Inode>, blocks': seq<Block>, used: seq<bool>,
                   files': map<nat, Inode>, owner: map<nat, Role>, nmeta: nat, i: nat, size: nat)
    requires FsOk(blocks', used, files', owner, nmeta) && i in files && Others(blocks, files, blocks', files', i)
    ensures var ip := files'[i].(size := size);
            && FsOk(blocks', used, files'[i := ip], owner, nmeta)
            && Others(blocks, files, blocks', files'[i := ip], i)
            && (forall n: nat :: MappedTo(blocks', files'[i], n) ==> MappedTo(blocks', ip, n))
            && (forall k: nat :: ByteAt(blocks', ip, k) == ByteAt(blocks', files'[i], k))
  {
    var ip := files'[i].(size := size);
    var files2 := files'[i := ip];
    SizeIrrelevant(blocks', files'[i], size);
    hide FileBlock, ByteAt, Indirect;
    forall j | j in files2 ensures InodeOwned(blocks', files2, owner, j) {
      assert InodeOwned(blocks', files', owner, j);
    }
    forall b | b in owner ensures HasRole(blocks', files2, b, owner[b]) {
      assert HasRole(blocks', files', b, owner[b]);
    }
  }

  lemma WrittenStays(blocks: seq<Block>, ip: Inode, blocks': seq<Block>, ip': Inode, ip2: Inode, off: nat,
                     src: seq<nat>)
    requires Written(blocks, ip, blocks', ip', off, src, |src|)
    requires forall k: nat :: ByteAt(blocks', ip2, k) == ByteAt(blocks', ip', k)
    ensures Written(blocks, ip, blocks', ip2, off, src, |src|)
  {
    hide ByteAt;
  }

  /** All of `src` in place is the splice. */
  lemma WrittenIsSplice(blocks: seq<Block>, ip: Inode, blocks': seq<Block>, ip': Inode, off: nat, src: seq<nat>)
    requires off <= ip.size && Written(blocks, ip, blocks', ip', off, src, |src|)
    requires ip'.size == if |src| > 0 && off + |src| > ip.size then off + |src| else ip.size
    ensures Content(blocks', ip') == Splice(Content(blocks, ip), off, src)
  {
    hide ByteAt;
    var c, r := Content(blocks, ip), Splice(Content(blocks, ip), off, src);
    forall k | 0 <= k < |r| ensures Content(blocks', ip')[k] == r[k] {
      assert r[k] == if off <= k < off + |src| then src[k - off] else c[k];
    }
  }

  /** Exactly the blocks that the size needs are mapped. */
  ghost predicate Dense(blocks: seq<Block>, ip: Inode) { MappedTo(blocks, ip, BlocksFor(ip.size)) }

  lemma DenseAt(blocks: seq<Block>, used: seq<bool>, files: map<nat, Inode>, owner: map<nat, Role>,
                nmeta: nat, i: nat, k: nat)
    requires FsOk(blocks, used, files, owner, nmeta) && i in files && Dense(blocks, files[i]) && k < files[i].size
    ensures k / BSIZE < MAXFILE && FileBlock(blocks, files[i], k / BSIZE) != 0
    ensures FileBlock(blocks, files[i], k / BSIZE) < |blocks|
    ensures |blocks[FileBlock(blocks, files[i], k / BSIZE)]| == BSIZE
  {
    assert k / BSIZE < BlocksFor(files[i].size);
    AddrsOf(blocks, used, files, owner, nmeta, i, k / BSIZE);
  }

  /** The bytes of one block are consecutive bytes of the file. */
  lemma ChunkByte(blocks: seq<Block>, ip: Inode, o: nat, t: nat, b: nat)
    requires o % BSIZE + t < BSIZE && o / BSIZE < MAXFILE && b == FileBlock(blocks, ip, o / BSIZE)
    requires b != 0 && b < |blocks| && |blocks[b]| == BSIZE
    ensures ByteAt(blocks, ip, o + t) == blocks[b][o % BSIZE + t]
  {
    assert (o + t) / BSIZE == o / BSIZE && (o + t) % BSIZE == o % BSIZE + t;
  }

  /** What FsOk says about the block map entry that bmap is about to look at. */
  lemma AddrsOf(blocks: seq<Block>, used: seq<bool>, files: map<nat, Inode>, owner: map<nat, Role>,
                nmeta: nat, i: nat, bn: nat)
    requires FsOk(blocks, used, files, owner, nmeta) && i in files && bn < MAXFILE
    ensures |used| == |blocks| < 0x1_0000_0000 && |files[i].addrs| == NDIRECT + 1
    ensures Indirect(files[i]) == files[i].addrs[NDIRECT]
    ensures var x := files[i].addrs[NDIRECT]; x != 0 ==> x < |blocks| && |blocks[x]| == BSIZE
    ensures bn < NDIRECT ==> FileBlock(blocks, files[i], bn) == files[i].addrs[bn]
    ensures bn >= NDIRECT ==>
              var x := files[i].addrs[NDIRECT];
              FileBlock(blocks, files[i], bn) == if x == 0 then 0 else Word(blocks[x], bn - NDIRECT)
    ensures var b := FileBlock(blocks, files[i], bn);
            b != 0 ==> b < |blocks| && b in owner && owner[b] == DataOf(i, bn)
  {
    assert InodeOwned(blocks, files, owner, i);
    var x := files[i].addrs[NDIRECT];
    assert x != 0 ==> HasRole(blocks, files, x, owner[x]);
    var b := FileBlock(blocks, files[i], bn);
    assert b != 0 ==> HasRole(blocks, files, b, owner[b]);
  }

  lemma NothingMoved(blocks: seq<Block>, files: map<nat, Inode>, owner: map<nat, Role>, i: nat)
    requires i in files
    ensures SameExceptMap(blocks, files, blocks, files, i) && DataKept(blocks, owner, blocks, owner)
    ensures SameMap(blocks, files[i], blocks, files[i])
  {
  }

  lemma ZeroEntry(j: nat)
    requires j < NINDIRECT
    ensures |ZeroBlock()| == BSIZE && Word(ZeroBlock(), j) == 0
  {
  }

  /** A free block that is zeroed disturbs nothing. */
  lemma Zeroed(blocks: seq<Block>, used: seq<bool>, files: map<nat, Inode>, owner: map<nat, Role>,
               nmeta: nat, b: nat)
    requires FsOk(blocks, used, files, owner, nmeta) && b < |used| && !used[b]
    ensures FsOk(blocks[b := ZeroBlock()], used, files, owner, nmeta) && b != 0 && b !in owner
    ensures forall j, bn :: j in files && 0 <= bn < MAXFILE ==>
              FileBlock(blocks[b := ZeroBlock()], files[j], bn) == FileBlock(blocks, files[j], bn)
  {
    assert used[0];
    NotIndirect(blocks, used, files, owner, nmeta, b);
    WriteKeeps(blocks, used, files, owner, nmeta, b, ZeroBlock());
  }

  lemma NewDirect(blocks: seq<Block>, used: seq<bool>, files: map<nat, Inode>, owner: map<nat, Role>,
                  nmeta: nat, i: nat, bn: nat, b: nat)
    requires FsOk(blocks, used, files, owner, nmeta) && i in files && bn < NDIRECT
    requires b < |used| && !used[b] && |files[i].addrs| == NDIRECT + 1 && files[i].addrs[bn] == 0
    ensures var ip := files[i].(addrs := files[i].addrs[bn := b]);
            var blocks', files', owner' := blocks[b := ZeroBlock()], files[i := ip], owner[b := DataOf(i, bn)];
            && b != 0 && b < |blocks| && FsOk(blocks', used[b := true], files', owner', nmeta)
            && OneMore(blocks, files[i], blocks', ip, bn, b) && Indirect(ip) == Indirect(files[i])
            && SameExceptMap(blocks, files, blocks', files', i) && DataKept(blocks, owner, blocks', owner')
            && FileBlock(blocks', ip, bn) == b
  {
    Zeroed(blocks, used, files, owner, nmeta, b);
    AttachDirect(blocks[b := ZeroBlock()], used, files, owner, nmeta, i, bn, b);
    hide FsOk, FileBlock;
  }

  lemma NewIndirect(blocks: seq<Block>, used: seq<bool>, files: map<nat, Inode>, owner: map<nat, Role>,
                    nmeta: nat, i: nat, b: nat)
    requires FsOk(blocks, used, files, owner, nmeta) && i in files
    requires b < |used| && !used[b] && |files[i].addrs| == NDIRECT + 1 && files[i].addrs[NDIRECT] == 0
    ensures var ip := files[i].(addrs := files[i].addrs[NDIRECT := b]);
            var blocks', files', owner' := blocks[b := ZeroBlock()], files[i := ip], owner[b := IndirectOf(i)];
            && b != 0 && b < |blocks| && FsOk(blocks', used[b := true], files', owner', nmeta)
            && SameMap(blocks, files[i], blocks', ip) && Indirect(ip) == b
            && SameExceptMap(blocks, files, blocks', files', i) && DataKept(blocks, owner, blocks', owner')
  {
    Zeroed(blocks, used, files, owner, nmeta, b);
    AttachIndirect(blocks[b := ZeroBlock()], used, files, owner, nmeta, i, b);
    hide FsOk, FileBlock;
  }

  lemma NewEntry(blocks: seq<Block>, used: seq<bool>, files: map<nat, Inode>, owner: map<nat, Role>,
                 nmeta: nat, i: nat, j: nat, b: nat)
    requires FsOk(blocks, used, files, owner, nmeta) && i in files && j < NINDIRECT && b < |used| && !used[b]
    requires var x := Indirect(files[i]); x != 0 && x < |blocks| && |blocks[x]| == BSIZE && Word(blocks[x], j) == 0
    ensures var x := Indirect(files[i]);
            var blocks1 := blocks[b := ZeroBlock()];
            var blocks' := blocks1[x := SetWord(blocks1[x], j, b)];
            var owner' := owner[b := DataOf(i, NDIRECT + j)];
            && b != 0 && b < |blocks| && FsOk(blocks', used[b := true], files, owner', nmeta)
            && OneMore(blocks, files[i], blocks', files[i], NDIRECT + j, b)
            && SameExceptMap(blocks, files, blocks', files, i) && DataKept(blocks, owner, blocks', owner')
            && FileBlock(blocks', files[i], NDIRECT + j) == b && blocks'[b] == ZeroBlock()
  {
    var x := Indirect(files[i]);
    Zeroed(blocks, used, files, owner, nmeta, b);
    NotIndirect(blocks, used, files, owner, nmeta, b);
    AttachEntry(blocks[b := ZeroBlock()], used, files, owner, nmeta, i, j, b);
    assert InodeOwned(blocks, files, owner, i);
    hide FsOk, FileBlock, SetWord;
  }

  /** Attaching an indirect block and then an entry of it. */
  lemma TwoMoves(blocks: seq<Block>, files: map<nat, Inode>, owner: map<nat, Role>,
                 blocks1: seq<Block>, files1: map<nat, Inode>, owner1: map<nat, Role>,
                 blocks2: seq<Block>, owner2: map<nat, Role>, i: nat, bn: nat, b: nat)
    requires files1.Keys == files.Keys && (forall j :: j in files && j != i ==> files1[j] == files[j])
    requires SameExceptMap(blocks, files, blocks1, files1, i) && DataKept(blocks, owner, blocks1, owner1)
    requires SameExceptMap(blocks1, files1, blocks2, files1, i) && DataKept(blocks1, owner1, blocks2, owner2)
    requires i in files && SameMap(blocks, files[i], blocks1, files1[i])
    requires OneMore(blocks1, files1[i], blocks2, files1[i], bn, b)
    ensures SameExceptMap(blocks, files, blocks2, files1, i) && DataKept(blocks, owner, blocks2, owner2)
    ensures OneMore(blocks, files[i], blocks2, files1[i], bn, b)
  {
    hide FileBlock;
  }

  /** Inodes other than `i` keep their block maps; `i` keeps everything but its map. */
  ghost predicate SameExceptMap(blocks: seq<Block>, files: map<nat, Inode>, blocks': seq<Block>,
                                files': map<nat, Inode>, i: nat) {
    && i in files && i in files'
    && files'[i].size == files[i].size && files'[i].typ == files[i].typ && files'[i].nlink == files[i].nlink
    && forall j, bn :: j in files && j != i && 0 <= bn < MAXFILE ==>
         FileBlock(blocks', files[j], bn) == FileBlock(blocks, files[j], bn)
  }

  /** Data blocks keep their place and their bytes. */
  ghost predicate DataKept(blocks: seq<Block>, owner: map<nat, Role>, blocks': seq<Block>, owner': map<nat, Role>) {
    forall b :: b in owner && owner[b].DataOf? ==>
      b in owner' && owner'[b] == owner[b] && (b < |blocks| ==> b < |blocks'| && blocks'[b] == blocks[b])
  }
}
