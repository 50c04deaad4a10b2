/** The growable buffer behind every HTTP body: `growbuf_write_cb` of src/utils.c. */
module GrowBuf {
  import opened Bytes

  const INITIAL_CAP: nat := 8192
  const SIZE_LIMIT: nat := 0x8000_0000_0000_0000

  // ---- Sizes only ----

  /** Length, capacity, and the bytes all reallocations so far may have had to move. */
  datatype Growth = Growth(len: nat, cap: nat, moved: nat)

  function Doubled(cap: nat, needed: nat): (c: nat)
    requires cap > 0
    ensures c >= needed && c >= cap
    ensures c == cap || c < 2 * needed
    decreases needed - cap
  {
    if cap >= needed then cap else Doubled(2 * cap, needed)
  }

  function NewCap(cap: nat, needed: nat): nat {
    Doubled(if cap > 0 then 2 * cap else INITIAL_CAP, needed)
  }

  /** One callback with n bytes; `ok` says whether realloc succeeds if it is called. */
  function Grown(g: Growth, n: nat, ok: bool): Growth {
    var needed := g.len + n + 1;
    if needed <= g.cap then g.(len := g.len + n)
    else if !ok then g
    else Growth(g.len + n, NewCap(g.cap, needed), g.moved + g.cap)
  }

  /** 8192 times a power of two. */
  predicate IsCapacity(c: nat) { c == INITIAL_CAP || (c > INITIAL_CAP && c % 2 == 0 && IsCapacity(c / 2)) }

  predicate GrowthOk(g: Growth) {
    && (g.cap == 0 ==> g.len == 0 && g.moved == 0)
    && (g.cap > 0 ==> g.len < g.cap && IsCapacity(g.cap) && g.moved <= g.cap - INITIAL_CAP)
    && (g.cap > INITIAL_CAP ==> g.cap < 2 * (g.len + 1))
  }

  lemma {:induction false} DoubledIsCapacity(cap: nat, needed: nat)
    requires IsCapacity(cap)
    ensures IsCapacity(Doubled(cap, needed))
    decreases needed - cap
  {
    if cap < needed {
      DoubledIsCapacity(2 * cap, needed);
    }
  }

  lemma {:induction false} GrownKeepsOk(g: Growth, n: nat, ok: bool)
    requires GrowthOk(g)
    ensures GrowthOk(Grown(g, n, ok))
  {
    hide Doubled;
    var start := if g.cap > 0 then 2 * g.cap else INITIAL_CAP;
    assert IsCapacity(start);
    DoubledIsCapacity(start, g.len + n + 1);
    hide IsCapacity;
  }

  /** One callback of a download: how many bytes arrive, and whether memory is available. */
  datatype Arrival = Arrival(n: nat, ok: bool)

  function GrownBy(g: Growth, arrivals: seq<Arrival>): Growth
    decreases |arrivals|
  {
    if arrivals == [] then g else GrownBy(Grown(g, arrivals[0].n, arrivals[0].ok), arrivals[1..])
  }

  /** After every run of callbacks the capacity is tight and all copying together cost less than it. */
  lemma {:induction false} EveryRunIsAmortised(g: Growth, arrivals: seq<Arrival>)
    requires GrowthOk(g)
    ensures var h := GrownBy(g, arrivals);
            && GrowthOk(h)
            && (h.cap > INITIAL_CAP ==> h.cap < 2 * (h.len + 1))
            && h.moved <= 2 * h.len
    decreases |arrivals|
  {
    if arrivals != [] {
      GrownKeepsOk(g, arrivals[0].n, arrivals[0].ok);
      EveryRunIsAmortised(Grown(g, arrivals[0].n, arrivals[0].ok), arrivals[1..]);
    }
  }

  /** The doubling loop stays inside `size_t` while the buffer stays under 2^63 bytes. */
  lemma {:induction false} NewCapFits(g: Growth, n: nat)
    requires GrowthOk(g) && g.len + n + 1 <= SIZE_LIMIT && g.len + n + 1 > g.cap
    ensures NewCap(g.cap, g.len + n + 1) < 2 * SIZE_LIMIT
  {
  }

  // ---- The buffer itself ----

  class Buffer {
    var data: array?<Byte>
    var len: nat
    var cap: nat
    ghost var moved: nat

    ghost function Sizes(): Growth
      reads this
    {
      Growth(len, cap, moved)
    }

    ghost predicate Valid()
      reads this, data
    {
      && GrowthOk(Sizes())
      && (data == null <==> cap == 0)
      && (data != null ==> data.Length == cap && data[len] == 0)
    }

    ghost function Contents(): seq<Byte>
      reads this, data
      requires Valid()
    {
      if data == null then [] else data[..len]
    }

    constructor ()
      ensures Valid() && Contents() == [] && Sizes() == Growth(0, 0, 0)
    {
      data, len, cap, moved := null, 0, 0, 0;
    }

    /** `growbuf_write_cb` on the `size * nmemb` bytes of `chunk`. */
    method Write(chunk: seq<Byte>, ok: bool) returns (consumed: nat)
      requires Valid() && len + |chunk| + 1 <= SIZE_LIMIT
      modifies this, data
      ensures Valid() && Sizes() == Grown(old(Sizes()), |chunk|, ok)
      ensures consumed == if old(len + |chunk| + 1 <= cap) || ok then |chunk| else 0
      ensures if old(len + |chunk| + 1 <= cap) || ok
              then Contents() == old(Contents()) + chunk
              else Contents() == old(Contents()) && data == old(data)
      ensures data == old(data) || fresh(data)
    {
      hide IsCapacity, Doubled;
      var needed := len + |chunk| + 1;
      GrownKeepsOk(Sizes(), |chunk|, ok);
      if needed > cap {
        if !ok {
          return 0;
        }
        Realloc(needed);
      }
      Append(chunk);
      return |chunk|;
    }

    /** The `memcpy` to the end of the buffer and the terminator after it. */
    method Append(chunk: seq<Byte>)
      requires data != null && len + |chunk| < data.Length
      modifies this`len, data
      ensures len == old(len) + |chunk|
      ensures data[..len] == old(data[..len]) + chunk
      ensures data[len] == 0
    {
      forall i | 0 <= i < |chunk| {
        data[len + i] := chunk[i];
      }
      len := len + |chunk|;
      data[len] := 0;
    }

    /** The doubling loop and the `realloc` that keeps the old bytes. */
    method Realloc(needed: nat)
      requires data == null <==> cap == 0
      requires if data == null then len == 0 else data.Length == cap && len <= cap
      requires needed > cap && len < needed
      modifies this
      ensures data != null && fresh(data) && data.Length == cap == NewCap(old(cap), needed)
      ensures len == old(len) && moved == old(moved) + old(cap)
      ensures data[..len] == if old(data) == null then [] else old(data[..len])
    {
      var newCap := if cap > 0 then cap * 2 else INITIAL_CAP;
      ghost var start := newCap;
      while newCap < needed
        invariant newCap > 0 && Doubled(newCap, needed) == Doubled(start, needed)
        decreases needed - newCap
      {
        newCap := newCap * 2;
      }
      var tmp := new Byte[newCap](_ => 0);
      if data != null {
        forall i | 0 <= i < data.Length {
          tmp[i] := data[i];
        }
      }
      moved := moved + cap;
      data, cap := tmp, newCap;
    }
  }
}
