/**
 * The break of a process: what growproc makes of its signed argument, given whether the pages it asks for
 * can be had.  The size is an unsigned number and the sum with the argument wraps around.
 */
module Break {
  import opened Common

  const KERNBASE: nat := 0x8000_0000
  const INT: int := 0x8000_0000          // one more than the largest 32-bit signed number

  /** growproc's answer, the size it records, and how much of the process is mapped afterwards. */
  datatype Outcome = Outcome(ok: bool, sz: nat, mapped: nat)

  /** A 32-bit unsigned number read as a signed one. */
  function Signed(w: nat): int
    requires w < UINT
  {
    if w < INT then w else w - UINT
  }

  function Grow(sz: nat, n: int, room: bool): (r: Outcome)
    requires sz < KERNBASE && -INT <= n < INT
    ensures r.sz < KERNBASE && r.mapped <= r.sz
  {
    var newsz := (sz + n) % UINT;
    if n > 0 then
      if newsz < KERNBASE && room then Outcome(true, newsz, newsz) else Outcome(false, sz, sz)
    else if n < 0 then
      if newsz >= sz then Outcome(sz != 0, sz, sz)
      else Outcome(newsz != 0, if newsz != 0 then newsz else sz, newsz)
    else Outcome(true, sz, sz)
  }

  /** A successful call moves the break by exactly its argument if and only if it does not ask for less
      than nothing: otherwise the break stays where it is. */
  lemma MovesIff(sz: nat, n: int, room: bool)
    requires sz < KERNBASE && -INT <= n < INT && Grow(sz, n, room).ok
    ensures Grow(sz, n, room).sz == sz + n <==> sz + n > 0 || n == 0
    ensures sz + n < 0 ==> Grow(sz, n, room).sz == sz
  {
  }

  /** What is recorded is what is mapped if and only if the call does not take the size to exactly 0. */
  lemma MappedIff(sz: nat, n: int, room: bool)
    requires sz < KERNBASE && -INT <= n < INT
    ensures Grow(sz, n, room).mapped == Grow(sz, n, room).sz <==> n >= 0 || sz + n != 0
  {
  }

  /** The failing input: asked to give back everything, growproc fails, the pages are gone and the size is
      as it was. */
  lemma GivesUpEverything(sz: nat, room: bool)
    requires 0 < sz < KERNBASE
    ensures Grow(sz, 0 - sz, room) == Outcome(false, sz, 0)
  {
  }
}
