/** What several parts share. */
module Common {
  /** A value that may be missing: a null pointer, a scan that finds nothing, or a panic. */
  datatype Option<T> = None | Some(value: T)

  /** One more than the largest 32-bit unsigned number. */
  const UINT: nat := 0x1_0000_0000

  function Min(a: nat, b: nat): nat { if a < b then a else b }

  function Max(a: nat, b: nat): nat { if a < b then b else a }

  function Less(n: nat): nat { if n == 0 then 0 else n - 1 }
}
