/**
 * mkfs: the image it writes satisfies the file system invariant.  Blocks are handed out in order from
 * `freeblock`; iappend is bmap and writei in one loop, without a cache and without a bitmap, which is
 * written at the end.
 */
module FsImage {
  import opened Common
  import opened FsSpec
  import opened FsNeed
  import opened FsCode

  /** The bitmap that marks the first `n` of `size` blocks. */
  function Marked(size: nat, n: nat): (r: seq<bool>)
    ensures |r| == size && forall b :: 0 <= b < size ==> r[b] == (b < n)
  {
    seq(size, b requires 0 <= b < size => b < n)
  }

  ghost predicate AllDense(blocks: seq<Block>, files: map<nat, Inode>) {
    forall j :: j in files ==> Dense(blocks, files[j])
  }

  /** Inodes other than `i` are the same and have the same block map. */
  ghost predicate OthersMapped(blocks: seq<Block>, files: map<nat, Inode>, blocks': seq<Block>,
                               files': map<nat, Inode>, i: nat) {
    && files'.Keys == files.Keys
    && (forall j :: j in files && j != i ==> files'[j] == files[j])
    && forall j, bn :: j in files && j != i && 0 <= bn < MAXFILE ==>
         FileBlock(blocks', files[j], bn) == FileBlock(blocks, files[j], bn)
  }

  /** The result of looking up file block `bn` of inode `i`: the block it has, or a new one; nothing else
      about any file changes. */
  ghost predicate Looked(blocks: seq<Block>, files: map<nat, Inode>, owner: map<nat, Role>, blocks': seq<Block>,
                         files': map<nat, Inode>, owner': map<nat, Role>, free: nat, i: nat, bn: nat, r: Option<nat>)
    requires i in files && bn < MAXFILE
  {
    && files'.Keys == files.Keys && |blocks'| == |blocks|
    && (forall j :: j in files' && j != i ==> files'[j] == files[j])
    && SameExceptMap(blocks, files, blocks', files', i) && DataKept(blocks, owner, blocks', owner')
    && (FileBlock(blocks, files[i], bn) != 0 ==>
          r == Some(FileBlock(blocks, files[i], bn)) && blocks' == blocks && files' == files)
    && (r.Some? ==>
          && r.value != 0 && r.value < free && r.value in owner' && owner'[r.value] == DataOf(i, bn)
          && FileBlock(blocks', files'[i], bn) == r.value)
    && (r.Some? && FileBlock(blocks, files[i], bn) == 0 ==>
          && OneMore(blocks, files[i], blocks', files'[i], bn, r.value)
          && (Indirect(files'[i]) != 0 <==> Indirect(files[i]) != 0 || bn >= NDIRECT))
  }

  /** It takes `need` blocks, and fails exactly when fewer are left. */
  predicate Costs(blocks: seq<Block>, free: nat, free': nat, need: nat, r: Option<nat>) {
    && (r.None? <==> free + need > |blocks|) && (r.Some? ==> free' == free + need)
  }

  /** iappend after its first `tot` bytes, which end a block unless they are all; the size is set at the end. */
  ghost predicate Appending(blocks0: seq<Block>, files0: map<nat, Inode>, blocks: seq<Block>, files: map<nat, Inode>,
                            i: nat, off: nat, p: seq<nat>, tot: nat)
    requires i in files0
  {
    && files.Keys == files0.Keys && files[i].size == off && (0 < tot < |p| ==> (off + tot) % BSIZE == 0)
    && Others(blocks0, files0, blocks, files, i) && OthersMapped(blocks0, files0, blocks, files, i)
    && MappedTo(blocks, files[i], Max(BlocksFor(off), BlocksFor(off + tot)))
    && Written(blocks0, files0[i], blocks, files[i], off, p, tot)
  }

  class Image {
    const nmeta: nat
    var blocks: seq<Block>
    var files: map<nat, Inode>
    var freeinode: nat
    var freeblock: nat
    ghost var owner: map<nat, Role>

    ghost predicate Valid()
      reads this
    {
      && nmeta <= freeblock <= |blocks|
      && FsOk(blocks, Marked(|blocks|, freeblock), files, owner, nmeta)
      && (forall b :: freeblock <= b < |blocks| ==> blocks[b] == ZeroBlock())
      && (forall i :: i in files ==> i < freeinode)
    }

    /** An image of zeroes. */
    constructor (meta: nat, size: nat)
      requires 1 <= meta <= size < 0x1_0000_0000
      ensures Valid() && AllDense(blocks, files) && files == map[] && freeblock == nmeta == meta && |blocks| == size
    {
      nmeta := meta;
      blocks := seq(size, _ => ZeroBlock());
      files, owner := map[], map[];
      freeinode, freeblock := 1, meta;
    }

    /** mkfs's ialloc. */
    method Ialloc(typ: nat) returns (inum: nat)
      requires Valid() && AllDense(blocks, files)
      modifies this`files, this`freeinode
      ensures Valid() && AllDense(blocks, files)
      ensures inum == old(freeinode) && files == old(files)[inum := Inode(typ, 1, 0, NoAddrs())]
    {
      inum := freeinode;
      freeinode := freeinode + 1;
      NewInode(blocks, Marked(|blocks|, freeblock), files, owner, nmeta, inum, typ, 1);
      files := files[inum := Inode(typ, 1, 0, NoAddrs())];
    }

    /** freeblock++; None when the image is full. */
    method TakeBlock() returns (r: Option<nat>)
      requires Valid()
      modifies this`freeblock
      ensures r.None? ==> freeblock == old(freeblock) == |blocks|
      ensures r.Some? ==>
                && r.value == old(freeblock) < |blocks| && freeblock == old(freeblock) + 1
                && !Marked(|blocks|, old(freeblock))[r.value]
                && Marked(|blocks|, freeblock) == Marked(|blocks|, old(freeblock))[r.value := true]
                && blocks == blocks[r.value := ZeroBlock()]
    {
      if freeblock == |blocks| {
        return None;
      }
      r := Some(freeblock);
      freeblock := freeblock + 1;
      assert Marked(|blocks|, freeblock) == Marked(|blocks|, old(freeblock))[r.value := true];
      assert blocks == blocks[r.value := ZeroBlock()];
    }

    /** iappend's block lookup among the direct addresses. */
    method MapDirect(i: nat, bn: nat) returns (r: Option<nat>)
      requires Valid() && i in files && bn < NDIRECT
      modifies this`freeblock, this`files, this`owner
      ensures Valid() && Looked(old(blocks), old(files), old(owner), blocks, files, owner, freeblock, i, bn, r)
      ensures Costs(blocks, old(freeblock), freeblock, NeedOne(old(blocks), old(files)[i], bn), r)
    {
      hide FsOk, FileBlock, Indirect, OneMore, SameMap, SameExceptMap, DataKept, Marked;
      ghost var used := Marked(|blocks|, freeblock);
      AddrsOf(blocks, used, files, owner, nmeta, i, bn);
      Below(blocks, used, files, owner, nmeta, i, bn, freeblock);
      NothingMoved(blocks, files, owner, i);
      var ip := files[i];
      if ip.addrs[bn] != 0 {
        return Some(ip.addrs[bn]);
      }
      r := TakeBlock();
      if r.Some? {
        NewDirect(blocks, used, files, owner, nmeta, i, bn, r.value);
        files := files[i := ip.(addrs := ip.addrs[bn := r.value])];
        owner := owner[r.value := DataOf(i, bn)];
      }
    }

    /** iappend's block lookup. */
    method MapBlock(i: nat, bn: nat) returns (r: Option<nat>)
      requires Valid() && i in files && bn < MAXFILE
      modifies this`blocks, this`freeblock, this`files, this`owner
      ensures Valid() && Looked(old(blocks), old(files), old(owner), blocks, files, owner, freeblock, i, bn, r)
      ensures Costs(blocks, old(freeblock), freeblock, NeedOne(old(blocks), old(files)[i], bn), r)
    {
      hide FsOk, FileBlock, Indirect, OneMore, SameMap, SameExceptMap, DataKept, SetWord, Marked;
      if bn < NDIRECT {
        r := MapDirect(i, bn);
        return;
      }
      ghost var used := Marked(|blocks|, freeblock);
      AddrsOf(blocks, used, files, owner, nmeta, i, bn);
      NothingMoved(blocks, files, owner, i);
      var ip := files[i];
      var x := ip.addrs[NDIRECT];
      if x == 0 {
        r := TakeBlock();
        if r.None? {
          return;
        }
        NewIndirect(blocks, used, files, owner, nmeta, i, r.value);
        x := r.value;
        files := files[i := ip.(addrs := ip.addrs[NDIRECT := x])];
        owner := owner[x := IndirectOf(i)];
      }
      ghost var files1, owner1 := files, owner;
      ghost var used1 := Marked(|blocks|, freeblock);
      AddrsOf(blocks, used1, files, owner, nmeta, i, bn);
      Below(blocks, used1, files, owner, nmeta, i, bn, freeblock);
      var addr := Word(blocks[x], bn - NDIRECT);
      if addr != 0 {
        return Some(addr);
      }
      r := TakeBlock();
      if r.None? {
        return;
      }
      ghost var blocks1 := blocks;
      NewEntry(blocks1, used1, files, owner, nmeta, i, bn - NDIRECT, r.value);
      blocks := blocks[x := SetWord(blocks[x], bn - NDIRECT, r.value)];
      owner := owner[r.value := DataOf(i, bn)];
      TwoMoves(old(blocks), old(files), old(owner), blocks1, files1, owner1, blocks, owner, i, bn, r.value);
    }

    /** One turn of iappend's loop. */
    method AppendChunk(i: nat, off: nat, p: seq<nat>, tot: nat,
                       ghost blocks0: seq<Block>, ghost files0: map<nat, Inode>)
      returns (ok: bool)
      requires Valid() && i in files0 && off == files0[i].size && tot < |p| && off + |p| <= MAXFILE * BSIZE
      requires Appending(blocks0, files0, blocks, files, i, off, p, tot)
      modifies this`blocks, this`freeblock, this`files, this`owner
      ensures Valid() && files.Keys == files0.Keys && |blocks| == |old(blocks)|
      ensures Others(blocks0, files0, blocks, files, i)
      ensures ok ==> Appending(blocks0, files0, blocks, files, i, off, p, tot + ChunkLen(off, p, tot))
      ensures var bn := (off + tot) / BSIZE;
              var clear := Clear(Marked(|blocks|, old(freeblock)));
              if ok then
                && clear == Clear(Marked(|blocks|, freeblock)) + NeedOne(old(blocks), old(files)[i], bn)
                && Maps(old(blocks), old(files)[i], blocks, files[i], bn)
              else clear < NeedOne(old(blocks), old(files)[i], bn)
    {
      hide FsOk, FileBlock, Indirect, OneMore, SameExceptMap, DataKept, ByteAt, MappedTo, Others, Written, Patch,
        OthersMapped, Clear, NeedOne, Maps, Marked;
      var o := off + tot;
      ghost var free := freeblock;
      var b := MapBlock(i, o / BSIZE);
      AfterBmap(blocks0, files0, old(blocks), Marked(|blocks|, free), old(files), old(owner), blocks,
                Marked(|blocks|, freeblock), files, owner, nmeta, i, off, p, tot, b);
      ChunkCosts(|blocks|, free, freeblock, old(blocks), old(files)[i], blocks, files[i], o / BSIZE, b);
      if b.None? {
        return false;
      }
      var m := Min(|p| - tot, BSIZE - o % BSIZE);
      ghost var blocks1 := blocks;
      StillMapped(blocks0, files0, old(blocks), old(files), blocks1, Marked(|blocks1|, freeblock), files, owner,
                  nmeta, i, b.value, Patch(blocks1[b.value], o % BSIZE, p[tot..tot + m]));
      blocks := blocks[b.value := Patch(blocks[b.value], o % BSIZE, p[tot..tot + m])];
      AfterCopy(blocks0, files0, blocks1, Marked(|blocks1|, freeblock), files, owner, nmeta, i, off, p, tot, m, b.value,
                blocks);
      MapsStays(old(blocks), old(files)[i], blocks1, blocks, files[i], o / BSIZE);
      return true;
    }

    /** iappend: the bytes go to the end of the file, and no other file changes.  `full` is the case that the image
        has fewer blocks left than the bytes need, for which mkfs has no test. */
    method Iappend(i: nat, p: seq<nat>) returns (full: bool)
      requires Valid() && AllDense(blocks, files) && i in files
      requires files[i].size + |p| <= MAXFILE * BSIZE       // else its assertion fails
      modifies this`blocks, this`freeblock, this`files, this`owner
      ensures Valid() && files.Keys == old(files).Keys && |blocks| == |old(blocks)|
      ensures Others(old(blocks), old(files), blocks, files, i)
      ensures !full ==>
                && AllDense(blocks, files)
                && Content(blocks, files[i]) == Content(old(blocks), old(files)[i]) + p
      ensures full <==>
              old(freeblock) + RangeNeed(old(blocks), old(files)[i], old(files)[i].size, |p|) > |blocks|
    {
      hide FsOk, ByteAt, MappedTo, Others, Written, Splice, Content, OthersMapped, AllDense, Clear, NeedOne, RangeNeed,
        Reach, Balanced, Maps, Marked;
      NoOthers(blocks, files, i);
      NoneMapped(blocks, files, i);
      var off := files[i].size;
      DenseOne(blocks, files, i);
      NothingWritten(blocks, files[i], off, p);
      var tot := 0;
      ghost var used0 := Marked(|blocks|, freeblock);
      BalancedStart(used0, blocks, files[i], off);
      ClearMarked(|blocks|, freeblock);
      while tot < |p|
        invariant tot <= |p| && Valid() && |blocks| == |old(blocks)|
        invariant Appending(old(blocks), old(files), blocks, files, i, off, p, tot)
        invariant Balanced(used0, old(blocks), old(files)[i], off / BSIZE, Marked(|blocks|, freeblock), blocks,
                           files[i], Reach(off, tot))
      {
        ghost var used1, blocks1, ip1 := Marked(|blocks|, freeblock), blocks, files[i];
        var ok := AppendChunk(i, off, p, tot, old(blocks), old(files));
        BalancedChunk(used0, old(blocks), old(files)[i], off, tot, ChunkLen(off, p, tot), |p|, used1, blocks1, ip1,
                      Marked(|blocks|, freeblock), blocks, files[i], ok);
        if !ok {
          return true;
        }
        tot := tot + ChunkLen(off, p, tot);
      }
      ghost var used := Marked(|blocks|, freeblock);
      Enough(used0, old(blocks), old(files)[i], used, blocks, files[i], off, |p|);
      SizeChange(old(blocks), old(files), blocks, used, files, owner, nmeta, i, off + |p|);
      WrittenStays(old(blocks), old(files)[i], blocks, files[i], files[i].(size := off + |p|), off, p);
      StillDense(old(blocks), old(files), blocks, files, i, off + |p|);
      files := files[i := files[i].(size := off + |p|)];
      WrittenIsSplice(old(blocks), old(files)[i], blocks, files[i], off, p);
      SpliceAtEnd(old(blocks), old(files)[i], p);
      return false;
    }

    /** main's last change to the root: its size becomes the next multiple of the block size above it.
        Its blocks are then all mapped if and only if the size was no multiple before. */
    method FixRootSize(i: nat)
      requires Valid() && i in files && Dense(blocks, files[i])
      modifies this`files
      ensures Valid() && Others(blocks, old(files), blocks, files, i)
      ensures files[i].size == (old(files)[i].size / BSIZE + 1) * BSIZE
      ensures Dense(blocks, files[i]) <==> old(files)[i].size % BSIZE != 0
    {
      hide FsOk, FileBlock, Indirect, ByteAt, Others;
      var size := files[i].size;
      var off := (size / BSIZE + 1) * BSIZE;
      NoOthers(blocks, files, i);
      SizeChange(blocks, files, blocks, Marked(|blocks|, freeblock), files, owner, nmeta, i, off);
      RoundedDense(blocks, files[i], off);
      files := files[i := files[i].(size := off)];
    }

    /** balloc: the bitmap marks exactly the metadata blocks and the blocks of files. */
    method Balloc() returns (used: seq<bool>)
      requires Valid()
      ensures FsOk(blocks, used, files, owner, nmeta) && forall b :: 0 <= b < |used| ==> (used[b] <==> b < freeblock)
    {
      used := seq(|blocks|, _ => false);
      for b := 0 to freeblock
        invariant |used| == |blocks| && forall c :: 0 <= c < |used| ==> used[c] == (c < b)
      {
        used := used[b := true];
      }
      assert used == Marked(|blocks|, freeblock);
    }
  }

  lemma {:induction false} ClearMarked(size: nat, n: nat)
    requires n <= size
    ensures Clear(Marked(size, n)) == size - n
    decreases size
  {
    if n == size {
      ClearNone(Marked(size, n));
    } else {
      assert Marked(size, n)[..size - 1] == Marked(size - 1, n);
      ClearMarked(size - 1, n);
    }
  }

  /** The cost of a lookup, in free blocks. */
  lemma ChunkCosts(size: nat, free: nat, free': nat, blocks: seq<Block>, ip: Inode, blocks': seq<Block>, ip': Inode,
                   bn: nat, b: Option<nat>)
    requires bn < MAXFILE && size == |blocks'| && free <= size && free' <= size
    requires Costs(blocks', free, free', NeedOne(blocks, ip, bn), b)
    requires FileBlock(blocks, ip, bn) != 0 ==> blocks' == blocks && ip' == ip
    requires b.Some? ==> b.value != 0 && FileBlock(blocks', ip', bn) == b.value
    requires b.Some? && FileBlock(blocks, ip, bn) == 0 ==>
               && OneMore(blocks, ip, blocks', ip', bn, b.value)
               && (Indirect(ip') != 0 <==> Indirect(ip) != 0 || bn >= NDIRECT)
    ensures if b.Some? then
              && Clear(Marked(size, free)) == Clear(Marked(size, free')) + NeedOne(blocks, ip, bn)
              && Maps(blocks, ip, blocks', ip', bn)
            else Clear(Marked(size, free)) < NeedOne(blocks, ip, bn)
  {
    hide FileBlock, Indirect, OneMore, NeedOne, Clear, Marked;
    ClearMarked(size, free);
    ClearMarked(size, free');
    if b.Some? {
      MapsAfterBmap(blocks, ip, blocks', ip', bn, b.value);
    }
  }

  /** The finished image as a running file system: block ownership starts exactly as mkfs leaves it. */
  method Mount(img: Image) returns (fs: Fs)
    requires img.Valid()
    ensures fresh(fs) && fs.Valid() && fs.blocks == img.blocks && fs.files == img.files && fs.owner == img.owner
    ensures forall b :: 0 <= b < |fs.used| ==> (fs.used[b] <==> b < img.freeblock)
  {
    var used := img.Balloc();
    fs := new Fs(img.nmeta, img.blocks, used, img.files, img.owner);
  }

  /** A root that fills one block exactly is the failing case: the rounding adds a block that is not there. */
  lemma RootOfOneBlock(blocks: seq<Block>, ip: Inode)
    requires ip.size == BSIZE && Dense(blocks, ip)
    ensures !Dense(blocks, ip.(size := (ip.size / BSIZE + 1) * BSIZE))
  {
    SizeIrrelevant(blocks, ip, 2 * BSIZE);
    RoundedDense(blocks, ip, 2 * BSIZE);
  }

  /** And the first entry written into that block is in place below the size, so the inode on disk does not
      come to name the block. */
  lemma RootEntryIsNotRecorded(blocks: seq<Block>, ip: Inode)
    requires ip.size == BSIZE && Dense(blocks, ip)
    ensures var root := ip.(size := (ip.size / BSIZE + 1) * BSIZE);
            BSIZE + 16 <= root.size && !Steady(blocks, root, BSIZE, 16)
  {
    SizeIrrelevant(blocks, ip, 2 * BSIZE);
    hide FileBlock;
    assert Touches(BSIZE, 16, 1) && FileBlock(blocks, ip, 1) == 0;
  }

  /** The blocks an inode uses have been handed out. */
  lemma Below(blocks: seq<Block>, used: seq<bool>, files: map<nat, Inode>, owner: map<nat, Role>, nmeta: nat,
              i: nat, bn: nat, free: nat)
    requires FsOk(blocks, used, files, owner, nmeta) && i in files && bn < MAXFILE && used == Marked(|blocks|, free)
    ensures FileBlock(blocks, files[i], bn) < Max(free, 1) && Indirect(files[i]) < Max(free, 1)
  {
    assert InodeOwned(blocks, files, owner, i);
  }

  lemma DenseOne(blocks: seq<Block>, files: map<nat, Inode>, i: nat)
    requires AllDense(blocks, files) && i in files
    ensures Dense(blocks, files[i])
  {
  }

  lemma NoneMapped(blocks: seq<Block>, files: map<nat, Inode>, i: nat)
    ensures OthersMapped(blocks, files, blocks, files, i)
  {
  }

  lemma StillMapped(blocks: seq<Block>, files: map<nat, Inode>, blocks0: seq<Block>, files0: map<nat, Inode>,
                    blocks1: seq<Block>, used: seq<bool>, files1: map<nat, Inode>, owner: map<nat, Role>, nmeta: nat,
                    i: nat, b: nat, data: Block)
    requires OthersMapped(blocks, files, blocks0, files0, i) && SameExceptMap(blocks0, files0, blocks1, files1, i)
    requires files1.Keys == files0.Keys && forall j :: j in files0 && j != i ==> files1[j] == files0[j]
    requires FsOk(blocks1, used, files1, owner, nmeta) && b != 0 && b < |blocks1| && |data| == BSIZE
    requires b in owner && owner[b].DataOf?
    ensures OthersMapped(blocks, files, blocks1[b := data], files1, i)
  {
    hide FileBlock, FsOk;
    NotIndirect(blocks1, used, files1, owner, nmeta, b);
    WriteKeeps(blocks1, used, files1, owner, nmeta, b, data);
  }

  lemma StillDense(blocks: seq<Block>, files: map<nat, Inode>, blocks': seq<Block>, files': map<nat, Inode>, i: nat,
                   size: nat)
    requires AllDense(blocks, files) && OthersMapped(blocks, files, blocks', files', i) && i in files
    requires MappedTo(blocks', files'[i], BlocksFor(size))
    ensures AllDense(blocks', files'[i := files'[i].(size := size)])
  {
    SizeIrrelevant(blocks', files'[i], size);
    hide FileBlock;
    forall j | j in files && j != i ensures Dense(blocks', files[j]) {
      assert Dense(blocks, files[j]);
    }
  }

  lemma SpliceAtEnd(blocks: seq<Block>, ip: Inode, p: seq<nat>)
    ensures |Content(blocks, ip)| == ip.size && Splice(Content(blocks, ip), ip.size, p) == Content(blocks, ip) + p
  {
  }

  lemma RoundedDense(blocks: seq<Block>, ip: Inode, off: nat)
    requires Dense(blocks, ip) && off == (ip.size / BSIZE + 1) * BSIZE
    requires forall n: nat :: MappedTo(blocks, ip, n) ==> MappedTo(blocks, ip.(size := off), n)
    ensures Dense(blocks, ip.(size := off)) <==> ip.size % BSIZE != 0
  {
    hide FileBlock, Indirect;
    var n, n' := BlocksFor(ip.size), BlocksFor(off);
    assert n' == ip.size / BSIZE + 1;
    assert ip.size % BSIZE != 0 ==> n == n';
    assert ip.size % BSIZE == 0 ==> n == n' - 1;
    assert MappedTo(blocks, ip.(size := off), n);
    OneSize(blocks, ip.(size := off), n, n');
  }

  /** A block map has one length. */
  lemma OneSize(blocks: seq<Block>, ip: Inode, n: nat, n': nat)
    requires MappedTo(blocks, ip, n) && n <= n'
    ensures MappedTo(blocks, ip, n') ==> n == n'
  {
    hide FileBlock, Indirect;
    assert n < MAXFILE ==> FileBlock(blocks, ip, n) == 0;
  }
}
