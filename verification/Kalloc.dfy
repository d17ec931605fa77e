/**
 * The free list of physical pages as it lies in memory: each free page begins with the address of the
 * next one, and nothing else remembers the list.
 */
module Kalloc {
  import opened Common

  /** What a page begins with: the fill of kfree, a link to another free page, or its user's data. */
  datatype Word = Fill | Next(page: Option<nat>) | Data(n: nat)

  function Entry(q: seq<nat>, i: nat): Option<nat> { if i < |q| then Some(q[i]) else None }

  ghost predicate LinkAt(pages: map<nat, Word>, q: seq<nat>, i: nat)
    requires i < |q|
  {
    q[i] in pages && pages[q[i]] == Next(Entry(q, i + 1))
  }

  /** Following the links from `head` gives `q` and then ends. */
  ghost predicate Threaded(pages: map<nat, Word>, head: Option<nat>, q: seq<nat>) {
    head == Entry(q, 0) && forall i :: 0 <= i < |q| ==> LinkAt(pages, q, i)
  }

  lemma ThreadedTail(pages: map<nat, Word>, q: seq<nat>)
    requires q != [] && Threaded(pages, Some(q[0]), q)
    ensures q[0] in pages && pages[q[0]] == Next(Entry(q[1..], 0)) && Threaded(pages, Entry(q[1..], 0), q[1..])
  {
    assert LinkAt(pages, q, 0);
    forall i | 0 <= i < |q| - 1 ensures LinkAt(pages, q[1..], i) {
      assert LinkAt(pages, q, i + 1);
    }
  }

  /** The links determine the list. */
  lemma {:induction false} OneList(pages: map<nat, Word>, head: Option<nat>, q: seq<nat>, q': seq<nat>)
    requires Threaded(pages, head, q) && Threaded(pages, head, q')
    ensures q == q'
    decreases |q|
  {
    if q != [] && q' != [] {
      ThreadedTail(pages, q);
      ThreadedTail(pages, q');
      OneList(pages, Entry(q[1..], 0), q[1..], q'[1..]);
      assert q == [q[0]] + q[1..] && q' == [q'[0]] + q'[1..];
    }
  }

  lemma {:induction false} ThreadedFrom(pages: map<nat, Word>, head: Option<nat>, q: seq<nat>, k: nat)
    requires Threaded(pages, head, q) && k <= |q|
    ensures Threaded(pages, Entry(q, k), q[k..])
    decreases k
  {
    if k > 0 {
      ThreadedFrom(pages, head, q, k - 1);
      ThreadedTail(pages, q[k - 1..]);
      assert q[k - 1..][1..] == q[k..];
    } else {
      assert q[0..] == q;
    }
  }

  /** A list that ends has no page twice. */
  lemma ThreadedDistinct(pages: map<nat, Word>, head: Option<nat>, q: seq<nat>, i: nat, j: nat)
    requires Threaded(pages, head, q) && i < j < |q|
    ensures q[i] != q[j]
  {
    ThreadedFrom(pages, head, q, i);
    ThreadedFrom(pages, head, q, j);
    if q[i] == q[j] {
      OneList(pages, Some(q[i]), q[i..], q[j..]);
      assert false;
    }
  }

  /** A link back into the list makes it endless. */
  lemma Endless(pages: map<nat, Word>, q: seq<nat>, k: nat, z: seq<nat>)
    requires k < |q| && forall i :: 0 <= i < k ==> LinkAt(pages, q, i)
    requires q[k] in pages && pages[q[k]] == Next(Some(q[0]))
    ensures !Threaded(pages, Some(q[0]), z)
  {
    if Threaded(pages, Some(q[0]), z) {
      Follow(pages, q, k, z, k);
      ThreadedTail(pages, z[k..]);
      assert z[k..][1..] == z[k + 1..];
      OneList(pages, Some(q[0]), z, z[k + 1..]);
      assert false;
    }
  }

  lemma {:induction false} Follow(pages: map<nat, Word>, q: seq<nat>, k: nat, z: seq<nat>, j: nat)
    requires k < |q| && j <= k && Threaded(pages, Entry(q, 0), z)
    requires forall i :: 0 <= i < k ==> LinkAt(pages, q, i)
    ensures j < |z| && z[j] == q[j] && Threaded(pages, Some(q[j]), z[j..])
    decreases j
  {
    if j > 0 {
      Follow(pages, q, k, z, j - 1);
      ThreadedTail(pages, z[j - 1..]);
      assert z[j - 1..][1..] == z[j..] && LinkAt(pages, q, j - 1);
    } else {
      assert z[0..] == z;
    }
  }

  class Kmem {
    var pages: map<nat, Word>
    var freelist: Option<nat>
    ghost var free: seq<nat>

    ghost predicate Valid()
      reads this
    {
      Threaded(pages, freelist, free)
    }

    /** kinit: the physical pages, none of them free yet. */
    constructor (pages: map<nat, Word>)
      ensures Valid() && free == [] && this.pages == pages
    {
      this.pages, freelist, free := pages, None, [];
    }

    /** kfree: the page is in front of the list; but the links are a list afterwards if and only if it was
        not free already. */
    method Kfree(f: nat)
      requires Valid() && f in pages       // else panic
      modifies this
      ensures freelist == Some(f) && pages.Keys == old(pages).Keys
      ensures forall g :: g in pages && g != f ==> pages[g] == old(pages)[g]
      ensures f !in old(free) ==> Valid() && free == [f] + old(free)
      ensures (exists q :: Threaded(pages, freelist, q)) <==> f !in old(free)
    {
      pages := pages[f := Fill];
      pages := pages[f := Next(freelist)];
      freelist := Some(f);
      if f in free {
        ghost var k :| 0 <= k < |free| && free[k] == f;
        forall q ensures !Threaded(pages, freelist, q) {
          Knot(old(pages), old(freelist), free, k, pages, q);
        }
      } else {
        Pushed(old(pages), old(freelist), free, f);
        assert pages == old(pages)[f := Next(old(freelist))];
        free := [f] + free;
      }
    }

    /** kalloc: a page that was free and is free no longer, or none exactly when the list is empty. */
    method Kalloc() returns (r: Option<nat>)
      requires Valid()
      modifies this`freelist, this`free
      ensures Valid() && (r.None? <==> old(free) == [])
      ensures r.Some? ==> r.value in old(free) && r.value !in free && old(free) == [r.value] + free
    {
      r := freelist;
      if r.Some? {
        ThreadedTail(pages, free);
        forall i | 0 < i < |free| ensures free[i] != free[0] {
          ThreadedDistinct(pages, freelist, free, 0, i);
        }
        freelist := pages[r.value].page;
        free := free[1..];
      }
    }

    /** Whoever has a page may write what they like to it. */
    method Store(f: nat, n: nat)
      requires Valid() && f in pages && f !in free
      modifies this`pages
      ensures Valid() && pages == old(pages)[f := Data(n)]
    {
      var pages' := pages[f := Data(n)];
      forall i | 0 <= i < |free| ensures LinkAt(pages', free, i) {
        assert LinkAt(pages, free, i);
      }
      pages := pages';
    }
  }

  lemma Pushed(pages: map<nat, Word>, head: Option<nat>, q: seq<nat>, f: nat)
    requires Threaded(pages, head, q) && f !in q
    ensures Threaded(pages[f := Next(head)], Some(f), [f] + q)
  {
    var q', pages' := [f] + q, pages[f := Next(head)];
    forall i | 0 <= i < |q'| ensures LinkAt(pages', q', i) {
      assert i > 0 ==> LinkAt(pages, q, i - 1);
    }
  }

  /** The links after a page of the list was put in front of it. */
  lemma Knot(pages: map<nat, Word>, head: Option<nat>, q: seq<nat>, k: nat, pages': map<nat, Word>, z: seq<nat>)
    requires Threaded(pages, head, q) && k < |q| && pages' == pages[q[k] := Next(head)]
    ensures !Threaded(pages', Some(q[k]), z)
  {
    forall i | 0 <= i < k ensures LinkAt(pages', q, i) {
      assert LinkAt(pages, q, i);
      ThreadedDistinct(pages, head, q, i, k);
    }
    if Threaded(pages', Some(q[k]), z) {
      ThreadedTail(pages', z);
      Endless(pages', q, k, z[1..]);
      assert false;
    }
  }
}
