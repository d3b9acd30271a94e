/** Item keys and their total order (btrfs_comp_cpu_keys). */
module Keys {
  import opened Words

  datatype Key = Key(objectid: nat, kind: nat, offset: nat)

  /** -1, 0 or 1, deciding on objectid, then type, then offset. */
  function Compare(a: Key, b: Key): int {
    if a.objectid > b.objectid then 1
    else if a.objectid < b.objectid then -1
    else if a.kind > b.kind then 1
    else if a.kind < b.kind then -1
    else if a.offset > b.offset then 1
    else if a.offset < b.offset then -1
    else 0
  }

  predicate Less(a: Key, b: Key) {
    Compare(a, b) < 0
  }

  /** Compare is a strict total order, with 0 meaning equality. */
  lemma TotalOrder(a: Key, b: Key, c: Key)
    ensures Compare(a, b) == 0 <==> a == b
    ensures Compare(a, b) == -Compare(b, a)
    ensures Less(a, b) && Less(b, c) ==> Less(a, c)
  {
  }

  /** Keys are ordered by objectid first, then by type, and by offset last. */
  lemma OrderIs(a: Key, b: Key)
    ensures Less(a, b) <==> || a.objectid < b.objectid
                            || (a.objectid == b.objectid && a.kind < b.kind)
                            || (a.objectid == b.objectid && a.kind == b.kind && a.offset < b.offset)
  {
  }

  /** Keys that fit their 64, 8 and 64 bits are ordered as the number that these bits make
      when the objectid comes first and the offset last. */
  lemma OrderIsNumber(a: Key, b: Key)
    requires a.kind < 0x100 && b.kind < 0x100 && a.offset < U64 && b.offset < U64
    ensures Less(a, b) <==>
            (a.objectid * 0x100 + a.kind) * U64 + a.offset < (b.objectid * 0x100 + b.kind) * U64 + b.offset
  {
    var x, y := a.objectid * 0x100 + a.kind, b.objectid * 0x100 + b.kind;
    if x < y {
      Steps(x, y, a.offset);
    } else if y < x {
      Steps(y, x, b.offset);
    }
  }

  lemma Steps(x: nat, y: nat, offset: nat)
    requires x < y && offset < U64
    ensures x * U64 + offset < y * U64
  {
    assert (x + 1) * U64 <= y * U64;
  }
}
