/** Blocks, the free bitmap and the block map of inodes.

    `blocks` is the disk as file system code sees it through the buffer cache.  The ghost map
    `owner` gives every block of a file its one place: the data block number it holds, or the
    indirect block of an inode. */
module FsSpec {

  const BSIZE: nat := 512
  const NDIRECT: nat := 12
  const NINDIRECT: nat := 128
  const MAXFILE: nat := 140

  type Block = seq<nat>      // bytes

  datatype Inode = Inode(typ: nat, nlink: nat, size: nat, addrs: seq<nat>)

  datatype Role = DataOf(inum: nat, bn: nat) | IndirectOf(inum: nat)

  function ZeroBlock(): (r: Block)
    ensures |r| == BSIZE && forall i :: 0 <= i < BSIZE ==> r[i] == 0
  {
    seq(BSIZE, _ => 0)
  }

  // ---------------------------------------------------------------- words in a block

  /** The j-th 32-bit number of a block, least significant byte first. */
  function Word(b: Block, j: nat): nat
    requires |b| == BSIZE && j < NINDIRECT
  {
    b[4 * j] + 256 * b[4 * j + 1] + 65536 * b[4 * j + 2] + 16777216 * b[4 * j + 3]
  }

  function SetWord(b: Block, j: nat, w: nat): (r: Block)
    requires |b| == BSIZE && j < NINDIRECT && w < 0x1_0000_0000
    ensures |r| == BSIZE
  {
    b[4 * j := w % 256][4 * j + 1 := w / 256 % 256][4 * j + 2 := w / 65536 % 256][4 * j + 3 := w / 16777216]
  }

  lemma WordSet(b: Block, j: nat, w: nat, k: nat)
    requires |b| == BSIZE && j < NINDIRECT && w < 0x1_0000_0000 && k < NINDIRECT
    ensures Word(SetWord(b, j, w), k) == if k == j then w else Word(b, k)
  {
  }

  // ---------------------------------------------------------------- the block map

  predicate DiskOk(blocks: seq<Block>) {
    forall b :: 0 <= b < |blocks| ==> |blocks[b]| == BSIZE
  }

  /** bmap without allocation: the disk block of file block `bn`, or 0. */
  function FileBlock(blocks: seq<Block>, ip: Inode, bn: nat): nat
    requires bn < MAXFILE
  {
    if |ip.addrs| != NDIRECT + 1 then 0
    else if bn < NDIRECT then ip.addrs[bn]
    else
      var x := ip.addrs[NDIRECT];
      if x == 0 || x >= |blocks| || |blocks[x]| != BSIZE then 0 else Word(blocks[x], bn - NDIRECT)
  }

  function Indirect(ip: Inode): nat {
    if |ip.addrs| != NDIRECT + 1 then 0 else ip.addrs[NDIRECT]
  }

  /** Block `b` is where `owner` says. */
  predicate HasRole(blocks: seq<Block>, files: map<nat, Inode>, b: nat, r: Role) {
    r.inum in files &&
    match r
    case DataOf(i, bn) => bn < MAXFILE && FileBlock(blocks, files[i], bn) == b
    case IndirectOf(i) => Indirect(files[i]) == b
  }

  ghost predicate InodeOwned(blocks: seq<Block>, files: map<nat, Inode>, owner: map<nat, Role>, i: nat)
    requires i in files
  {
    var ip := files[i];
    && |ip.addrs| == NDIRECT + 1
    && (Indirect(ip) != 0 ==> Indirect(ip) in owner && owner[Indirect(ip)] == IndirectOf(i))
    && (forall bn :: 0 <= bn < MAXFILE && FileBlock(blocks, ip, bn) != 0 ==>
          FileBlock(blocks, ip, bn) in owner && owner[FileBlock(blocks, ip, bn)] == DataOf(i, bn))
  }

  /** Every block of every file has exactly one place, and the bitmap marks exactly the metadata
      blocks and the blocks of files. */
  ghost predicate FsOk(blocks: seq<Block>, used: seq<bool>, files: map<nat, Inode>,
                       owner: map<nat, Role>, nmeta: nat) {
    && DiskOk(blocks) && |used| == |blocks| && 1 <= nmeta <= |blocks| < 0x1_0000_0000
    && (forall b :: b in owner ==> nmeta <= b < |blocks| && HasRole(blocks, files, b, owner[b]))
    && (forall i :: i in files ==> InodeOwned(blocks, files, owner, i))
    && (forall b :: 0 <= b < |blocks| ==> (used[b] <==> b < nmeta || b in owner))
  }

  // ---------------------------------------------------------------- contents

  /** Byte `k` of a file, when its block is mapped. */
  function ByteAt(blocks: seq<Block>, ip: Inode, k: nat): nat {
    if k / BSIZE >= MAXFILE then 0
    else
      var b := FileBlock(blocks, ip, k / BSIZE);
      if b != 0 && b < |blocks| && |blocks[b]| == BSIZE then blocks[b][k % BSIZE] else 0
  }

  /** The bytes of a file. */
  function Content(blocks: seq<Block>, ip: Inode): (r: seq<nat>)
    ensures |r| == ip.size && forall k :: 0 <= k < ip.size ==> r[k] == ByteAt(blocks, ip, k)
  {
    seq(ip.size, k requires 0 <= k < ip.size => ByteAt(blocks, ip, k))
  }

  /** Exactly the first `n` file blocks are mapped, and the indirect block if it is needed. */
  ghost predicate MappedTo(blocks: seq<Block>, ip: Inode, n: nat) {
    && n <= MAXFILE
    && (forall bn :: 0 <= bn < MAXFILE ==> (FileBlock(blocks, ip, bn) != 0 <==> bn < n))
    && (Indirect(ip) != 0 <==> n > NDIRECT)
  }

  function BlocksFor(size: nat): nat { (size + BSIZE - 1) / BSIZE }

  // ---------------------------------------------------------------- frames

  /** Writing a block that is nobody's indirect block changes no block map. */
  lemma MapsStay(blocks: seq<Block>, files: map<nat, Inode>, b: nat, data: Block)
    requires b < |blocks| && |data| == BSIZE && |blocks[b]| == BSIZE
    requires forall i :: i in files ==> Indirect(files[i]) != b
    ensures forall i, bn :: i in files && 0 <= bn < MAXFILE ==>
              FileBlock(blocks[b := data], files[i], bn) == FileBlock(blocks, files[i], bn)
  {
  }

  /** A write to a block that is nobody's indirect block keeps everything in place. */
  lemma WriteKeeps(blocks: seq<Block>, used: seq<bool>, files: map<nat, Inode>, owner: map<nat, Role>,
                   nmeta: nat, b: nat, data: Block)
    requires FsOk(blocks, used, files, owner, nmeta) && b < |blocks| && |data| == BSIZE
    requires forall i :: i in files ==> Indirect(files[i]) != b
    ensures FsOk(blocks[b := data], used, files, owner, nmeta)
    ensures forall i, bn :: i in files && 0 <= bn < MAXFILE ==>
              FileBlock(blocks[b := data], files[i], bn) == FileBlock(blocks, files[i], bn)
  {
    MapsStay(blocks, files, b, data);
    SameMapsKeep(blocks, used, files, owner, nmeta, blocks[b := data]);
  }

  /** A disk with the same block maps is as well formed. */
  lemma SameMapsKeep(blocks: seq<Block>, used: seq<bool>, files: map<nat, Inode>, owner: map<nat, Role>,
                     nmeta: nat, blocks': seq<Block>)
    requires FsOk(blocks, used, files, owner, nmeta) && DiskOk(blocks') && |blocks'| == |blocks|
    requires forall i, bn :: i in files && 0 <= bn < MAXFILE ==>
               FileBlock(blocks', files[i], bn) == FileBlock(blocks, files[i], bn)
    ensures FsOk(blocks', used, files, owner, nmeta)
  {
    hide FileBlock, Indirect;
    forall i | i in files ensures InodeOwned(blocks', files, owner, i) {
      assert InodeOwned(blocks, files, owner, i);
      assert forall bn :: 0 <= bn < MAXFILE ==> FileBlock(blocks', files[i], bn) == FileBlock(blocks, files[i], bn);
    }
    forall c | c in owner ensures HasRole(blocks', files, c, owner[c]) {
      assert HasRole(blocks, files, c, owner[c]);
    }
  }

  /** Neither a free block nor a data block is anybody's indirect block. */
  lemma NotIndirect(blocks: seq<Block>, used: seq<bool>, files: map<nat, Inode>, owner: map<nat, Role>,
                    nmeta: nat, b: nat)
    requires FsOk(blocks, used, files, owner, nmeta) && b < |blocks| && b != 0
    requires !used[b] || (b in owner && owner[b].DataOf?)
    ensures forall i :: i in files ==> Indirect(files[i]) != b
  {
    forall i | i in files ensures Indirect(files[i]) != b {
      assert InodeOwned(blocks, files, owner, i);
    }
  }

  // ---------------------------------------------------------------- attaching a block

  /** A free, zeroed block becomes direct block `bn` of inode `i`. */
  lemma AttachDirect(blocks: seq<Block>, used: seq<bool>, files: map<nat, Inode>, owner: map<nat, Role>,
                     nmeta: nat, i: nat, bn: nat, b: nat)
    requires FsOk(blocks, used, files, owner, nmeta) && i in files && bn < NDIRECT
    requires b < |blocks| && !used[b] && |files[i].addrs| == NDIRECT + 1 && files[i].addrs[bn] == 0
    ensures var ip := files[i].(addrs := files[i].addrs[bn := b]);
            && b != 0 && FsOk(blocks, used[b := true], files[i := ip], owner[b := DataOf(i, bn)], nmeta)
            && OneMore(blocks, files[i], blocks, ip, bn, b)
  {
    var ip := files[i].(addrs := files[i].addrs[bn := b]);
    var files', owner' := files[i := ip], owner[b := DataOf(i, bn)];
    hide FsOk;
    assert forall k :: 0 <= k < MAXFILE ==>
             FileBlock(blocks, ip, k) == if k == bn then b else FileBlock(blocks, files[i], k);
    assert Indirect(ip) == Indirect(files[i]);
    FreeIsUnowned(blocks, used, files, owner, nmeta, b);
    AttachKeeps(blocks, used, files, owner, nmeta, blocks, files', owner', i, bn, b);
  }

  lemma FreeIsUnowned(blocks: seq<Block>, used: seq<bool>, files: map<nat, Inode>, owner: map<nat, Role>, nmeta: nat,
                      b: nat)
    requires FsOk(blocks, used, files, owner, nmeta) && b < |blocks| && !used[b]
    ensures DiskOk(blocks) && |used| == |blocks| && b !in owner && b != 0
  {
  }

  /** The invariant after file block `bn` of inode `i` was set to the free block `b`. */
  lemma AttachKeeps(blocks: seq<Block>, used: seq<bool>, files: map<nat, Inode>, owner: map<nat, Role>, nmeta: nat,
                    blocks': seq<Block>, files': map<nat, Inode>, owner': map<nat, Role>, i: nat, bn: nat, b: nat)
    requires FsOk(blocks, used, files, owner, nmeta) && DiskOk(blocks') && |blocks'| == |blocks|
    requires i in files && files'.Keys == files.Keys && b < |blocks| && !used[b] && bn < MAXFILE
    requires owner' == owner[b := DataOf(i, bn)] && |files'[i].addrs| == NDIRECT + 1
    requires forall k :: 0 <= k < MAXFILE ==>
               FileBlock(blocks', files'[i], k) == if k == bn then b else FileBlock(blocks, files[i], k)
    requires FileBlock(blocks, files[i], bn) == 0 && Indirect(files'[i]) == Indirect(files[i])
    requires forall j :: j in files && j != i ==> files'[j] == files[j]
    requires forall j, k :: j in files && j != i && 0 <= k < MAXFILE ==>
               FileBlock(blocks', files[j], k) == FileBlock(blocks, files[j], k)
    ensures FsOk(blocks', used[b := true], files', owner', nmeta)
  {
    hide FileBlock, Indirect, InodeOwned;
    AttachOwned(blocks, files, blocks', files', owner, owner', i, bn, b);
    AttachBits(used, owner, b, DataOf(i, bn), nmeta);
    forall c | c in owner' ensures nmeta <= c < |blocks| && HasRole(blocks', files', c, owner'[c]) {
      if c != b { assert HasRole(blocks, files, c, owner[c]); }
    }
  }

  /** From `ip` to `ip'` exactly one file block, `bn`, was added, at `b`. */
  ghost predicate OneMore(blocks: seq<Block>, ip: Inode, blocks': seq<Block>, ip': Inode, bn: nat, b: nat) {
    && (forall k :: 0 <= k < MAXFILE ==>
          FileBlock(blocks', ip', k) == if k == bn then b else FileBlock(blocks, ip, k))
    && ip'.size == ip.size && ip'.typ == ip.typ && ip'.nlink == ip.nlink
  }

  lemma AttachBits(used: seq<bool>, owner: map<nat, Role>, b: nat, r: Role, nmeta: nat)
    requires b < |used| && forall c :: 0 <= c < |used| ==> (used[c] <==> c < nmeta || c in owner)
    ensures var used', owner' := used[b := true], owner[b := r];
            forall c :: 0 <= c < |used'| ==> (used'[c] <==> c < nmeta || c in owner' )
  {
  }

  /** Ownership after file block `bn` of inode `i` was set to `b`. */
  lemma AttachOwned(blocks: seq<Block>, files: map<nat, Inode>, blocks': seq<Block>, files': map<nat, Inode>,
                    owner: map<nat, Role>, owner': map<nat, Role>, i: nat, bn: nat, b: nat)
    requires i in files && files'.Keys == files.Keys && b !in owner && b != 0 && bn < MAXFILE
    requires forall j :: j in files ==> InodeOwned(blocks, files, owner, j)
    requires owner' == owner[b := DataOf(i, bn)] && |files'[i].addrs| == NDIRECT + 1
    requires forall k :: 0 <= k < MAXFILE ==>
               FileBlock(blocks', files'[i], k) == if k == bn then b else FileBlock(blocks, files[i], k)
    requires Indirect(files'[i]) == Indirect(files[i])
    requires forall j :: j in files && j != i ==> files'[j] == files[j]
    requires forall j, k :: j in files && j != i && 0 <= k < MAXFILE ==>
               FileBlock(blocks', files[j], k) == FileBlock(blocks, files[j], k)
    ensures forall j :: j in files' ==> InodeOwned(blocks', files', owner', j)
  {
    hide FileBlock, Indirect;
    forall j | j in files' ensures InodeOwned(blocks', files', owner', j) {
      assert InodeOwned(blocks, files, owner, j);
    }
  }

  /** A free, zeroed block becomes the indirect block of inode `i`; it maps nothing yet. */
  lemma AttachIndirect(blocks: seq<Block>, used: seq<bool>, files: map<nat, Inode>, owner: map<nat, Role>,
                       nmeta: nat, i: nat, b: nat)
    requires FsOk(blocks, used, files, owner, nmeta) && i in files
    requires b < |blocks| && !used[b] && blocks[b] == ZeroBlock() && Indirect(files[i]) == 0
    requires |files[i].addrs| == NDIRECT + 1
    ensures var ip := files[i].(addrs := files[i].addrs[NDIRECT := b]);
            && b != 0 && FsOk(blocks, used[b := true], files[i := ip], owner[b := IndirectOf(i)], nmeta)
            && SameMap(blocks, files[i], blocks, ip) && Indirect(ip) == b
  {
    var ip := files[i].(addrs := files[i].addrs[NDIRECT := b]);
    var files', owner' := files[i := ip], owner[b := IndirectOf(i)];
    assert b !in owner;
    forall k | 0 <= k < MAXFILE ensures FileBlock(blocks, ip, k) == FileBlock(blocks, files[i], k) {
      assert k >= NDIRECT ==> Word(blocks[b], k - NDIRECT) == 0;
    }
    assert Indirect(ip) == b;
    AttachBits(used, owner, b, IndirectOf(i), nmeta);
    hide FileBlock, Indirect;
    forall j | j in files' ensures InodeOwned(blocks, files', owner', j) {
      assert InodeOwned(blocks, files, owner, j);
    }
    forall c | c in owner' ensures nmeta <= c < |blocks| && HasRole(blocks, files', c, owner'[c]) {
      if c != b { assert HasRole(blocks, files, c, owner[c]); }
    }
  }

  ghost predicate SameMap(blocks: seq<Block>, ip: Inode, blocks': seq<Block>, ip': Inode) {
    && (forall k :: 0 <= k < MAXFILE ==> FileBlock(blocks', ip', k) == FileBlock(blocks, ip, k))
    && ip'.size == ip.size && ip'.typ == ip.typ && ip'.nlink == ip.nlink
  }

  /** A free, zeroed block is entered in slot `j` of the indirect block of inode `i`. */
  lemma AttachEntry(blocks: seq<Block>, used: seq<bool>, files: map<nat, Inode>, owner: map<nat, Role>,
                    nmeta: nat, i: nat, j: nat, b: nat)
    requires FsOk(blocks, used, files, owner, nmeta) && i in files && j < NINDIRECT
    requires b < |blocks| && !used[b]
    requires var x := Indirect(files[i]); x != 0 && x < |blocks| && |blocks[x]| == BSIZE && Word(blocks[x], j) == 0
    ensures var x := Indirect(files[i]);
            var blocks' := blocks[x := SetWord(blocks[x], j, b)];
            && b != 0 && x != b
            && FsOk(blocks', used[b := true], files, owner[b := DataOf(i, NDIRECT + j)], nmeta)
            && OneMore(blocks, files[i], blocks', files[i], NDIRECT + j, b)
            && forall k, bn :: k in files && k != i && 0 <= bn < MAXFILE ==>
                 FileBlock(blocks', files[k], bn) == FileBlock(blocks, files[k], bn)
  {
    var x := Indirect(files[i]);
    var blocks' := blocks[x := SetWord(blocks[x], j, b)];
    var owner' := owner[b := DataOf(i, NDIRECT + j)];
    hide FsOk, SetWord;
    FreeIsUnowned(blocks, used, files, owner, nmeta, b);
    IndirectIsOwned(blocks, used, files, owner, nmeta, i);
    forall k | 0 <= k < MAXFILE
      ensures FileBlock(blocks', files[i], k) == if k == NDIRECT + j then b else FileBlock(blocks, files[i], k)
    {
      if k >= NDIRECT { WordSet(blocks[x], j, b, k - NDIRECT); }
    }
    OtherMaps(blocks, files, i, x, SetWord(blocks[x], j, b));
    AttachKeeps(blocks, used, files, owner, nmeta, blocks', files, owner', i, NDIRECT + j, b);
  }

  lemma IndirectIsOwned(blocks: seq<Block>, used: seq<bool>, files: map<nat, Inode>, owner: map<nat, Role>,
                        nmeta: nat, i: nat)
    requires FsOk(blocks, used, files, owner, nmeta) && i in files && Indirect(files[i]) != 0
    ensures var x := Indirect(files[i]);
            && |files[i].addrs| == NDIRECT + 1 && x in owner && x < |used| && used[x]
            && forall k :: k in files && k != i ==> Indirect(files[k]) != x
  {
    hide FileBlock, Indirect;
    assert InodeOwned(blocks, files, owner, i);
    OtherIndirects(blocks, files, owner, i, Indirect(files[i]));
  }

  lemma OtherIndirects(blocks: seq<Block>, files: map<nat, Inode>, owner: map<nat, Role>, i: nat, x: nat)
    requires (forall k :: k in files ==> InodeOwned(blocks, files, owner, k)) && x != 0
    requires x in owner && owner[x] == IndirectOf(i)
    ensures forall k :: k in files && k != i ==> Indirect(files[k]) != x
  {
    forall k | k in files && k != i ensures Indirect(files[k]) != x {
      assert InodeOwned(blocks, files, owner, k);
    }
  }

  lemma OtherMaps(blocks: seq<Block>, files: map<nat, Inode>, i: nat, x: nat, data: Block)
    requires x < |blocks| && |data| == BSIZE && |blocks[x]| == BSIZE
    requires forall k :: k in files && k != i ==> Indirect(files[k]) != x
    ensures forall k, bn :: k in files && k != i && 0 <= bn < MAXFILE ==>
              FileBlock(blocks[x := data], files[k], bn) == FileBlock(blocks, files[k], bn)
  {
  }

  // ---------------------------------------------------------------- detaching a block

  lemma DetachBits(used: seq<bool>, owner: map<nat, Role>, b: nat, nmeta: nat)
    requires b < |used| && b >= nmeta && forall c :: 0 <= c < |used| ==> (used[c] <==> c < nmeta || c in owner)
    ensures var used', owner' := used[b := false], owner - {b};
            forall c :: 0 <= c < |used'| ==> (used'[c] <==> c < nmeta || c in owner')
  {
  }

  /** File block `bn` of inode `i`, held in `b`, is given up. */
  lemma Detach(blocks: seq<Block>, used: seq<bool>, files: map<nat, Inode>, owner: map<nat, Role>, nmeta: nat,
               blocks': seq<Block>, files': map<nat, Inode>, i: nat, bn: nat, b: nat)
    requires FsOk(blocks, used, files, owner, nmeta) && i in files && bn < MAXFILE
    requires b != 0 && FileBlock(blocks, files[i], bn) == b
    requires files'.Keys == files.Keys && |files'[i].addrs| == NDIRECT + 1 && DiskOk(blocks') && |blocks'| == |blocks|
    requires forall k :: 0 <= k < MAXFILE ==>
               FileBlock(blocks', files'[i], k) == if k == bn then 0 else FileBlock(blocks, files[i], k)
    requires Indirect(files'[i]) == Indirect(files[i])
    requires forall j :: j in files && j != i ==> files'[j] == files[j]
    requires forall j, k :: j in files && j != i && 0 <= k < MAXFILE ==>
               FileBlock(blocks', files[j], k) == FileBlock(blocks, files[j], k)
    ensures b in owner && b < |used| && used[b] && owner[b] == DataOf(i, bn)
    ensures FsOk(blocks', used[b := false], files', owner - {b}, nmeta)
  {
    hide FileBlock, Indirect;
    assert InodeOwned(blocks, files, owner, i);
    assert HasRole(blocks, files, b, owner[b]);
    DetachBits(used, owner, b, nmeta);
    var owner' := owner - {b};
    forall j | j in files' ensures InodeOwned(blocks', files', owner', j) {
      assert InodeOwned(blocks, files, owner, j);
    }
    forall c | c in owner' ensures nmeta <= c < |blocks'| && HasRole(blocks', files', c, owner'[c]) {
      assert HasRole(blocks, files, c, owner[c]);
    }
  }

  lemma DetachDirect(blocks: seq<Block>, used: seq<bool>, files: map<nat, Inode>, owner: map<nat, Role>,
                     nmeta: nat, i: nat, bn: nat)
    requires FsOk(blocks, used, files, owner, nmeta) && i in files && bn < NDIRECT
    requires |files[i].addrs| == NDIRECT + 1 && files[i].addrs[bn] != 0
    ensures var b := files[i].addrs[bn];
            var ip := files[i].(addrs := files[i].addrs[bn := 0]);
            && b in owner && b < |used| && used[b] && owner[b].DataOf? && owner[b].inum == i
            && FsOk(blocks, used[b := false], files[i := ip], owner - {b}, nmeta)
  {
    var b := files[i].addrs[bn];
    var ip := files[i].(addrs := files[i].addrs[bn := 0]);
    assert forall k :: 0 <= k < MAXFILE ==>
             FileBlock(blocks, ip, k) == if k == bn then 0 else FileBlock(blocks, files[i], k);
    Detach(blocks, used, files, owner, nmeta, blocks, files[i := ip], i, bn, b);
  }

  /** One entry of the indirect block is given up and cleared. */
  lemma DetachEntry(blocks: seq<Block>, used: seq<bool>, files: map<nat, Inode>, owner: map<nat, Role>,
                    nmeta: nat, i: nat, j: nat)
    requires FsOk(blocks, used, files, owner, nmeta) && i in files && j < NINDIRECT
    requires var x := Indirect(files[i]); x != 0 && x < |blocks| && |blocks[x]| == BSIZE
    ensures var x := Indirect(files[i]);
            var b := Word(blocks[x], j);
            var blocks' := blocks[x := SetWord(blocks[x], j, 0)];
            && (b != 0 ==>
                  && b in owner && b < |used| && used[b] && owner[b] == DataOf(i, NDIRECT + j)
                  && FsOk(blocks', used[b := false], files, owner - {b}, nmeta))
            && (b == 0 ==> FsOk(blocks', used, files, owner, nmeta))
  {
    var x := Indirect(files[i]);
    var b := Word(blocks[x], j);
    var blocks' := blocks[x := SetWord(blocks[x], j, 0)];
    assert InodeOwned(blocks, files, owner, i);
    forall k | 0 <= k < MAXFILE
      ensures FileBlock(blocks', files[i], k) == if k == NDIRECT + j then 0 else FileBlock(blocks, files[i], k)
    {
      if k >= NDIRECT { WordSet(blocks[x], j, 0, k - NDIRECT); }
    }
    OtherIndirects(blocks, files, owner, i, x);
    OtherMaps(blocks, files, i, x, SetWord(blocks[x], j, 0));
    if b != 0 {
      Detach(blocks, used, files, owner, nmeta, blocks', files, i, NDIRECT + j, b);
    } else {
      assert FileBlock(blocks, files[i], NDIRECT + j) == 0;
      forall k, bn | k in files && 0 <= bn < MAXFILE
        ensures FileBlock(blocks', files[k], bn) == FileBlock(blocks, files[k], bn) {}
      SameMapsKeep(blocks, used, files, owner, nmeta, blocks');
    }
  }

  /** An indirect block that maps nothing is given up; its contents no longer matter. */
  lemma DetachIndirect(blocks: seq<Block>, used: seq<bool>, files: map<nat, Inode>, owner: map<nat, Role>,
                       nmeta: nat, i: nat, data: Block)
    requires FsOk(blocks, used, files, owner, nmeta) && i in files && |data| == BSIZE
    requires |files[i].addrs| == NDIRECT + 1 && Indirect(files[i]) != 0
    requires forall k :: NDIRECT <= k < MAXFILE ==> FileBlock(blocks, files[i], k) == 0
    ensures var x := Indirect(files[i]);
            var ip := files[i].(addrs := files[i].addrs[NDIRECT := 0]);
            && x in owner && x < |used| && used[x] && owner[x] == IndirectOf(i)
            && x < |blocks| && FsOk(blocks[x := data], used[x := false], files[i := ip], owner - {x}, nmeta)
  {
    var x := Indirect(files[i]);
    var ip := files[i].(addrs := files[i].addrs[NDIRECT := 0]);
    var files', owner' := files[i := ip], owner - {x};
    assert InodeOwned(blocks, files, owner, i);
    assert HasRole(blocks, files, x, owner[x]);
    assert forall k :: 0 <= k < MAXFILE ==> FileBlock(blocks, ip, k) == FileBlock(blocks, files[i], k);
    DetachBits(used, owner, x, nmeta);
    OtherIndirects(blocks, files, owner, i, x);
    DetachIndirectOwned(blocks, files, owner, i, x, files', owner');
    assert FsOk(blocks, used[x := false], files', owner', nmeta);
    WriteKeeps(blocks, used[x := false], files', owner', nmeta, x, data);
  }

  lemma DetachIndirectOwned(blocks: seq<Block>, files: map<nat, Inode>, owner: map<nat, Role>, i: nat, x: nat,
                            files': map<nat, Inode>, owner': map<nat, Role>)
    requires i in files && x == Indirect(files[i]) && x != 0 && x in owner && owner[x] == IndirectOf(i)
    requires owner' == owner - {x} && i in files' && files' == files[i := files'[i]] && |files'[i].addrs| == NDIRECT + 1
    requires Indirect(files'[i]) == 0
    requires forall k :: 0 <= k < MAXFILE ==> FileBlock(blocks, files'[i], k) == FileBlock(blocks, files[i], k)
    requires forall k :: k in files && k != i ==> Indirect(files[k]) != x
    requires forall j :: j in files ==> InodeOwned(blocks, files, owner, j)
    requires forall c :: c in owner ==> HasRole(blocks, files, c, owner[c])
    ensures forall j :: j in files' ==> InodeOwned(blocks, files', owner', j)
    ensures forall c :: c in owner' ==> HasRole(blocks, files', c, owner'[c])
  {
    hide FileBlock, Indirect;
    forall j | j in files' ensures InodeOwned(blocks, files', owner', j) {
      assert InodeOwned(blocks, files, owner, j);
    }
    forall c | c in owner' ensures HasRole(blocks, files', c, owner'[c]) {
      assert HasRole(blocks, files, c, owner[c]);
    }
  }
}
