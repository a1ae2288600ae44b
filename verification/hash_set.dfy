/** The open-addressing set of tensors (ggml_hash_* in CGGML/include/ggml-impl.h) that graphs, planner and scheduler
    keep their per-tensor data in. */
module HashSets {
  import opened Arithmetic
  import opened Wrappers

  /** Slot number d of the probe sequence that starts at h. */
  function Probe(h: nat, d: nat, size: nat): (i: nat)
    requires size > 0
    ensures i < size
  {
    (h + d) % size
  }

  /** How many steps from h lead to slot i. */
  function Distance(h: nat, i: nat, size: nat): (d: nat)
    requires h < size && i < size
    ensures d < size && Probe(h, d, size) == i
  {
    if i >= h then WrapNone(i, size); i - h else WrapOnce(i, size); i + size - h
  }

  lemma WrapNone(i: nat, size: nat)
    requires i < size
    ensures i % size == i
  {
  }

  lemma WrapOnce(i: nat, size: nat)
    requires i < size
    ensures (i + size) % size == i
  {
    QuotientUnique(i + size, size, 1);
    assert i + size == size * ((i + size) / size) + (i + size) % size;
  }

  lemma NextProbe(h: nat, d: nat, size: nat)
    requires h < size && d < size
    ensures (Probe(h, d, size) + 1) % size == Probe(h, d + 1, size)
    ensures Probe(h, d + 1, size) == h <==> d + 1 == size
  {
    ProbeIs(h, d, size);
    ProbeIs(h, d + 1, size);
    var i := Probe(h, d, size);
    if i + 1 < size { WrapNone(i + 1, size); } else { WrapOnce(0, size); }
  }

  lemma ProbeIs(h: nat, d: nat, size: nat)
    requires h < size && d <= size
    ensures Probe(h, d, size) == if h + d < size then h + d else h + d - size
  {
    if h + d < size {
      WrapNone(h + d, size);
    } else {
      WrapOnce(h + d - size, size);
    }
  }

  lemma ProbesApart(h: nat, d: nat, e: nat, size: nat)
    requires h < size && d < size && e < size && Probe(h, d, size) == Probe(h, e, size)
    ensures d == e
  {
    ProbeIs(h, d, size);
    ProbeIs(h, e, size);
  }

  /** The first d probes from home slot h are used. */
  ghost predicate Reached(used: seq<bool>, h: nat, d: nat)
    requires |used| > 0
  {
    forall e: nat :: e < d ==> used[Probe(h, e, |used|)]
  }

  /** No key is stored twice, and every key can be reached from its home slot over used slots only. */
  ghost predicate Sound(keys: seq<nat>, used: seq<bool>, hash: nat -> nat)
    requires |keys| == |used| > 0
  {
    && (forall i, j :: 0 <= i < j < |keys| && used[i] && used[j] ==> keys[i] != keys[j])
    && forall i :: 0 <= i < |keys| && used[i] ==>
      Reached(used, hash(keys[i]) % |keys|, Distance(hash(keys[i]) % |keys|, i, |keys|))
  }

  ghost function Stored(keys: seq<nat>, used: seq<bool>): set<nat>
    requires |keys| == |used|
  {
    set i | 0 <= i < |keys| && used[i] :: keys[i]
  }

  /** The first d probes from h have been looked at: all used, none holds the key. */
  ghost predicate Missed(keys: seq<nat>, used: seq<bool>, h: nat, key: nat, d: nat)
    requires |keys| == |used| > 0
  {
    forall e: nat :: e < d ==> used[Probe(h, e, |keys|)] && keys[Probe(h, e, |keys|)] != key
  }

  /** A probe sequence that meets a free slot, or comes round, without meeting the key: the key is not in the set. */
  lemma Absent(keys: seq<nat>, used: seq<bool>, hash: nat -> nat, key: nat, d: nat)
    requires |keys| == |used| > 0 && Sound(keys, used, hash) && Missed(keys, used, hash(key) % |keys|, key, d)
             && d <= |keys|
    requires d < |keys| ==> !used[Probe(hash(key) % |keys|, d, |keys|)]
    ensures key !in Stored(keys, used)
  {
    forall i | 0 <= i < |keys| && used[i] ensures keys[i] != key {
      var e := Distance(hash(keys[i]) % |keys|, i, |keys|);
      assert Reached(used, hash(keys[i]) % |keys|, e);
    }
  }

  lemma AllUsed(keys: seq<nat>, used: seq<bool>, h: nat, key: nat)
    requires |keys| == |used| > 0 && h < |keys| && Missed(keys, used, h, key, |keys|)
    ensures forall i :: 0 <= i < |keys| ==> used[i]
  {
    forall i | 0 <= i < |keys| ensures used[i] {
      var d := Distance(h, i, |keys|);
    }
  }

  /** Storing a key in the free slot its probe sequence ends at. */
  lemma PutKeeps(keys: seq<nat>, used: seq<bool>, hash: nat -> nat, key: nat, i: nat, d: nat)
    requires |keys| == |used| > 0 && Sound(keys, used, hash) && d < |keys| && i == Probe(hash(key) % |keys|, d, |keys|)
    requires Missed(keys, used, hash(key) % |keys|, key, d) && !used[i] && key !in Stored(keys, used)
    ensures Sound(keys[i := key], used[i := true], hash) && Stored(keys[i := key], used[i := true])
            == Stored(keys, used) + {key}
  {
    var keys', used' := keys[i := key], used[i := true];
    forall k | 0 <= k < |keys| && used[k] ensures keys[k] != key { assert keys[k] in Stored(keys, used); }
    ProbesApart(hash(key) % |keys|, d, Distance(hash(key) % |keys|, i, |keys|), |keys|);
    StoredAfterPut(keys, used, key, i);
  }

  lemma StoredAfterPut(keys: seq<nat>, used: seq<bool>, key: nat, i: nat)
    requires |keys| == |used| && i < |keys| && !used[i]
    ensures Stored(keys[i := key], used[i := true]) == Stored(keys, used) + {key}
  {
    var keys', used' := keys[i := key], used[i := true];
    forall x | x in Stored(keys, used) + {key} ensures x in Stored(keys', used') {
      if x in Stored(keys, used) {
        var k :| 0 <= k < |keys| && used[k] && keys[k] == x;
        assert used'[k] && keys'[k] == x;
      } else {
        assert used'[i] && keys'[i] == x;
      }
    }
  }

  class HashSet {
    const size: nat
    const hash: nat -> nat
    const keys: array<nat>
    const used: array<bool>

    ghost predicate Valid()
      reads keys, used
    {
      && size > 0 && keys.Length == size && used.Length == size
      && Sound(keys[..], used[..], hash)
    }

    ghost function Contents(): set<nat>
      requires keys.Length == used.Length
      reads keys, used
    {
      Stored(keys[..], used[..])
    }

    constructor (size: nat, hash: nat -> nat)
      requires size > 0
      ensures Valid() && fresh(keys) && fresh(used) && Contents() == {} && this.size == size && this.hash == hash
    {
      this.size, this.hash := size, hash;
      keys, used := new nat[size], new bool[size](_ => false);
    }

    /** ggml_hash_find: the slot of the key, or the free slot where it would go, or none when the table is full. */
    method Find(key: nat) returns (r: Option<nat>)
      requires Valid()
      ensures r.Some? ==> r.value < size
      ensures key in Contents() ==> r.Some? && used[r.value] && keys[r.value] == key
      ensures key !in Contents() ==> if r.Some? then !used[r.value] else forall i :: 0 <= i < size ==> used[i]
    {
      var h := hash(key) % size;
      ghost var d: nat := 0;
      var i := h;
      ProbeIs(h, 0, size);
      while used[i] && keys[i] != key
        invariant d < size && i == Probe(h, d, size) && Missed(keys[..], used[..], h, key, d)
        decreases size - d
      {
        NextProbe(h, d, size);
        i := (i + 1) % size;
        d := d + 1;
        if i == h {
          Absent(keys[..], used[..], hash, key, size);
          AllUsed(keys[..], used[..], h, key);
          return None;
        }
      }
      if !used[i] { Absent(keys[..], used[..], hash, key, d); }
      r := Some(i);
    }

    /** ggml_hash_contains */
    method Contains(key: nat) returns (yes: bool)
      requires Valid()
      ensures yes <==> key in Contents()
    {
      var i := Find(key);
      yes := i.Some? && used[i.value];
    }

    /** ggml_hash_find_or_insert: the key's slot; none is the abort on a full table. Keys never move. */
    method FindOrInsert(key: nat) returns (r: Option<nat>, existed: bool)
      requires Valid()
      modifies keys, used
      ensures Valid() && (r.None? <==> key !in old(Contents()) && forall i :: 0 <= i < size ==> old(used[i]))
      ensures r.Some? ==> r.value < size && used[r.value] && keys[r.value] == key
                          && Contents() == old(Contents()) + {key}
      ensures r.None? ==> Contents() == old(Contents())
      ensures existed <==> key in old(Contents())
      ensures forall i :: 0 <= i < size && old(used[i]) ==> used[i] && keys[i] == old(keys[i])
    {
      var h := hash(key) % size;
      ghost var d: nat := 0;
      var i := h;
      ProbeIs(h, 0, size);
      while true
        invariant d < size && i == Probe(h, d, size) && Missed(keys[..], used[..], h, key, d)
        invariant Valid() && keys[..] == old(keys[..]) && used[..] == old(used[..]) && Contents() == old(Contents())
        decreases size - d
      {
        if !used[i] {
          Absent(keys[..], used[..], hash, key, d);
          Put(key, i, d);
          return Some(i), false;
        }
        if keys[i] == key {
          return Some(i), true;
        }
        NextProbe(h, d, size);
        i := (i + 1) % size;
        d := d + 1;
        if i == h {
          Absent(keys[..], used[..], hash, key, size);
          AllUsed(keys[..], used[..], h, key);
          return None, false;
        }
      }
    }

    method Put(key: nat, i: nat, ghost d: nat)
      requires Valid() && d < size && i == Probe(hash(key) % size, d, size) && !used[i] && key !in Contents()
      requires Missed(keys[..], used[..], hash(key) % size, key, d)
      modifies keys, used
      ensures Valid() && used[i] && keys[i] == key && Contents() == old(Contents()) + {key}
      ensures forall k :: 0 <= k < size && k != i ==> used[k] == old(used[k]) && keys[k] == old(keys[k])
    {
      PutKeeps(keys[..], used[..], hash, key, i, d);
      ghost var keys', used' := keys[..][i := key], used[..][i := true];
      used[i] := true;
      keys[i] := key;
      assert keys[..] == keys' && used[..] == used';
    }
  }
}
