/** Composite keys of the server's tables: an inclusive byte range covers exactly one owner's keys. */
module KeyRanges {
  import opened Canon

  /** Byte strings in the order of the database. */
  predicate AtMost(a: Bytes, b: Bytes) {
    a == [] || (b != [] && (a[0] < b[0] || (a[0] == b[0] && AtMost(a[1..], b[1..]))))
  }

  function Fill(b: Byte, n: nat): (s: Bytes)
    ensures |s| == n
  {
    if n == 0 then [] else [b] + Fill(b, n - 1)
  }

  lemma {:induction false} FillBounds(key: Bytes)
    ensures AtMost(Fill(0, |key|), key) && AtMost(key, Fill(255, |key|))
  {
    if key != [] {
      FillBounds(key[1..]);
      assert Fill(0, |key|)[1..] == Fill(0, |key| - 1) && Fill(255, |key|)[1..] == Fill(255, |key| - 1);
    }
  }

  /** A key lies between the smallest and the largest extension of a prefix exactly when it has that prefix. */
  lemma {:induction false} RangeExact(prefix: Bytes, key: Bytes, n: nat)
    requires |key| == |prefix| + n
    ensures AtMost(prefix + Fill(0, n), key) && AtMost(key, prefix + Fill(255, n)) <==> prefix <= key
  {
    var (lo, hi) := (prefix + Fill(0, n), prefix + Fill(255, n));
    if prefix == [] {
      assert lo == Fill(0, n) && hi == Fill(255, n);
      FillBounds(key);
    } else {
      RangeExact(prefix[1..], key[1..], n);
      assert lo[1..] == prefix[1..] + Fill(0, n) && hi[1..] == prefix[1..] + Fill(255, n);
      assert prefix <= key <==> prefix[0] == key[0] && prefix[1..] <= key[1..];
    }
  }

  function StagingKey(push: Salt, id: Hash): Bytes {
    push + id
  }

  function KeyslotKey(device: Hash, gen: U32): Bytes {
    device + LE(gen, 4)
  }

  /** `staging_range` covers exactly one push's staged objects, and their keys are distinct. */
  lemma StagingRangeExact(push: Salt, other: Salt, id: Hash)
    ensures var key := StagingKey(other, id);
            AtMost(push + Fill(0, 32), key) && AtMost(key, push + Fill(255, 32)) <==> other == push
    ensures forall id': Hash :: StagingKey(push, id) == StagingKey(other, id') ==> push == other && id == id'
  {
    var key := StagingKey(other, id);
    RangeExact(push, key, 32);
    assert key[..16] == other;
    forall id': Hash | StagingKey(push, id) == StagingKey(other, id') ensures push == other && id == id' {
      assert StagingKey(push, id)[..16] == push && StagingKey(other, id')[..16] == other;
      assert StagingKey(push, id)[16..] == id && StagingKey(other, id')[16..] == id';
    }
  }

  /** `keyslot_range` covers exactly one device's keyslots across generations, and their keys are distinct. */
  lemma KeyslotRangeExact(device: Hash, other: Hash, gen: U32)
    ensures var key := KeyslotKey(other, gen);
            AtMost(device + Fill(0, 4), key) && AtMost(key, device + Fill(255, 4)) <==> other == device
    ensures forall gen': U32 :: KeyslotKey(device, gen) == KeyslotKey(other, gen') ==> device == other && gen == gen'
  {
    var key := KeyslotKey(other, gen);
    RangeExact(device, key, 4);
    assert key[..32] == other;
    forall gen': U32 | KeyslotKey(device, gen) == KeyslotKey(other, gen') ensures device == other && gen == gen' {
      assert KeyslotKey(device, gen)[..32] == device && KeyslotKey(other, gen')[..32] == other;
      assert KeyslotKey(device, gen)[32..] == LE(gen, 4) && KeyslotKey(other, gen')[32..] == LE(gen', 4);
      Widths();
      FromLEOfLE(gen, 4);
      FromLEOfLE(gen', 4);
    }
  }
}
