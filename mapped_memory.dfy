/** The bytes this core itself stores into mapped memory: the backward-update
    counts, written as one whole structure into a writable region. */
module MappedMemory {
  import opened Vp9Types
  import opened Effects

  /** Mapped memory as a partial map from effective address to byte. */
  type Memory = map<nat, Byte>

  /** Writing `data` into the region that starts at `base`, byte by byte. */
  function Store(mem: Memory, base: nat, data: seq<Byte>): (r: Memory)
    ensures forall a :: base <= a < base + |data| ==> a in r && r[a] == data[a - base]
    ensures forall a :: a in mem && !(base <= a < base + |data|) ==> a in r && r[a] == mem[a]
    ensures forall a :: a in r ==> a in mem || base <= a < base + |data|
    decreases |data|
  {
    if data == [] then mem
    else Store(mem[base := data[0]], base + 1, data[1..])
  }

  /** The bytes of the region of length `len` at `base`, when all are mapped. */
  function Load(mem: Memory, base: nat, len: nat): (r: Option<seq<Byte>>)
    ensures r.Some? <==> forall a :: base <= a < base + len ==> a in mem
    ensures r.Some? ==> |r.value| == len && forall a :: base <= a < base + len ==> r.value[a - base] == mem[a]
    decreases len
  {
    if len == 0 then Some([])
    else if base !in mem then None
    else
      match Load(mem, base + 1, len - 1)
      case None => None
      case Some(rest) => Some([mem[base]] + rest)
  }

  /** Reading a region back after storing into it yields exactly what was
      stored, whatever the region held before: the store is a whole
      overwrite, not a merge. */
  lemma LoadAfterStore(mem: Memory, base: nat, data: seq<Byte>)
    ensures Load(Store(mem, base, data), base, |data|) == Some(data)
  {
    var m := Store(mem, base, data);
    var r := Load(m, base, |data|);
    assert r.Some?;
    forall i | 0 <= i < |data|
      ensures r.value[i] == data[i]
    {
      assert r.value[base + i - base] == m[base + i];
    }
    assert r.value == data;
  }

  /** The memory after the stores of a trace, with `extend` the widening of
      a register offset into an effective address. */
  function ApplyStores(mem: Memory, extend: U32 -> nat, trace: seq<Event>): Memory
    decreases |trace|
  {
    if trace == [] then mem
    else ApplyStores(StoreOf(mem, extend, trace[0]), extend, trace[1..])
  }

  /** The memory after one event: only a backward-updates store writes. */
  function StoreOf(mem: Memory, extend: U32 -> nat, e: Event): Memory {
    match e
    case StoreBackwardUpdates(offset, image) => Store(mem, extend(offset), image)
    case _ => mem
  }

  lemma {:induction false} ApplyStoresConcat(mem: Memory, extend: U32 -> nat, a: seq<Event>, b: seq<Event>)
    ensures ApplyStores(mem, extend, a + b) == ApplyStores(ApplyStores(mem, extend, a), extend, b)
    decreases |a|
  {
    if a == [] {
      assert a + b == b;
    } else {
      assert (a + b)[0] == a[0];
      assert (a + b)[1..] == a[1..] + b;
      ApplyStoresConcat(StoreOf(mem, extend, a[0]), extend, a[1..], b);
    }
  }

  /** A trace without stores leaves memory as it was. */
  lemma {:induction false} ApplyStoresWithoutStores(mem: Memory, extend: U32 -> nat, trace: seq<Event>)
    requires Filter(trace, StoreKind) == []
    ensures ApplyStores(mem, extend, trace) == mem
    decreases |trace|
  {
    if trace != [] {
      assert Filter(trace, StoreKind) == Keep(trace[0], StoreKind) + Filter(trace[1..], StoreKind);
      ApplyStoresWithoutStores(mem, extend, trace[1..]);
    }
  }

  /** Of six phases, when only the fifth holds stores, the memory after all
      six is the memory after the fifth. */
  lemma ApplyStoresOfPhases(mem: Memory, extend: U32 -> nat, a: seq<Event>, b: seq<Event>, c: seq<Event>,
                            d: seq<Event>, e: seq<Event>, f: seq<Event>)
    requires Filter(a, StoreKind) == [] && Filter(b, StoreKind) == [] && Filter(c, StoreKind) == []
    requires Filter(d, StoreKind) == [] && Filter(f, StoreKind) == []
    ensures ApplyStores(mem, extend, a + b + c + d + e + f) == ApplyStores(mem, extend, e)
  {
    FilterNoneConcat(a, b, StoreKind);
    FilterNoneConcat(a + b, c, StoreKind);
    FilterNoneConcat(a + b + c, d, StoreKind);
    ApplyStoresConcat(mem, extend, a + b + c + d + e, f);
    ApplyStoresConcat(mem, extend, a + b + c + d, e);
    ApplyStoresWithoutStores(mem, extend, a + b + c + d);
    ApplyStoresWithoutStores(ApplyStores(mem, extend, e), extend, f);
  }
}
