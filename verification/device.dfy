/** The simulated hardware and the commits the task checks apply to it. */
module Device {
  import opened Wrappers

  /** One RAM slot: its text and, for the address-keyed store, its normalised `0x…` address. */
  datatype RamEntry = RamEntry(text: string, address: Option<string>)

  /** A stored file record (the creation date and id are left out). */
  datatype StoredFile = StoredFile(name: string, size: nat)

  /**
   * The device: power flag, fan speed in RPM, screen text, RAM, stored files,
   * and the processor display — an activity level in the lenient curriculum,
   * an operation name and pulse counter in the strict one.
   */
  datatype Device = Device(
    powered: bool,
    fanSpeed: nat,
    screenText: string,
    ram: seq<RamEntry>,
    files: seq<StoredFile>,
    cpuLevel: nat,
    cpuOp: string,
    cpuPulse: nat)

  /** The device at session start: everything off and empty, the processor idle. */
  const Initial := Device(false, 0, "", [], [], 0, "IDLE", 0)

  /** Capacity of the recent-history RAM log. */
  const RamLogCapacity: nat := 5

  /** The newest `n` elements of `xs`, or all of them when there are fewer. */
  function Newest<T>(xs: seq<T>, n: nat): seq<T> {
    if |xs| <= n then xs else xs[|xs| - n..]
  }

  /**
   * Appends to the recent-history log, `[...prev.slice(-4), entry]`. The
   * result is the newest five entries of the log extended with the new one;
   * below capacity nothing is lost, at capacity the oldest entry goes.
   */
  function LogRam(log: seq<RamEntry>, e: RamEntry): (r: seq<RamEntry>)
    ensures r == Newest(log + [e], RamLogCapacity)
    ensures |r| <= RamLogCapacity && r[|r| - 1] == e
    ensures |log| < RamLogCapacity ==> r == log + [e]
    ensures |log| == RamLogCapacity ==> r == log[1..] + [e]
  {
    log[if |log| > 4 then |log| - 4 else 0..] + [e]
  }

  /** The entries not stored at `addr`, in their original order: `prev.filter(item => item.address !== addr)`. */
  function Without(ram: seq<RamEntry>, addr: string): (r: seq<RamEntry>)
    ensures |r| <= |ram|
    ensures forall e :: e in r <==> e in ram && e.address != Some(addr)
    decreases |ram|
  {
    if ram == [] then []
    else
      var rest := Without(ram[1..], addr);
      if ram[0].address == Some(addr) then rest else [ram[0]] + rest
  }

  /**
   * The address-keyed store: drops whatever was at `addr` and appends the new
   * entry. Afterwards the only entry at `addr` is the last one, and every other
   * entry is an entry of the old RAM at a different address.
   */
  function StoreAt(ram: seq<RamEntry>, text: string, addr: string): (r: seq<RamEntry>)
    ensures |r| > 0 && r[|r| - 1] == RamEntry(text, Some(addr))
    ensures forall i :: 0 <= i < |r| - 1 ==> r[i].address != Some(addr)
    ensures forall e :: e in r[..|r| - 1] <==> e in ram && e.address != Some(addr)
  {
    var kept := Without(ram, addr);
    assert (kept + [RamEntry(text, Some(addr))])[..|kept|] == kept;
    kept + [RamEntry(text, Some(addr))]
  }

  /** No two entries share an address. */
  predicate DistinctAddresses(ram: seq<RamEntry>) {
    forall i, j :: 0 <= i < j < |ram| && ram[i].address.Some? ==> ram[i].address != ram[j].address
  }

  /** Number of entries at `addr`. */
  function CountAt(ram: seq<RamEntry>, addr: string): nat
    decreases |ram|
  {
    if ram == [] then 0
    else (if ram[0].address == Some(addr) then 1 else 0) + CountAt(ram[1..], addr)
  }

  lemma {:induction false} WithoutSize(ram: seq<RamEntry>, addr: string)
    ensures |Without(ram, addr)| == |ram| - CountAt(ram, addr)
    decreases |ram|
  {
    if ram != [] {
      WithoutSize(ram[1..], addr);
    }
  }

  lemma {:induction false} CountAtMostOne(ram: seq<RamEntry>, addr: string)
    requires DistinctAddresses(ram)
    ensures CountAt(ram, addr) <= 1
    ensures CountAt(ram, addr) == 1 <==> exists i :: 0 <= i < |ram| && ram[i].address == Some(addr)
    decreases |ram|
  {
    if ram != [] {
      assert DistinctAddresses(ram[1..]) by {
        forall i, j | 0 <= i < j < |ram| - 1 && ram[1..][i].address.Some?
          ensures ram[1..][i].address != ram[1..][j].address
        {
          assert ram[1..][i] == ram[i + 1] && ram[1..][j] == ram[j + 1];
        }
      }
      CountAtMostOne(ram[1..], addr);
      if ram[0].address == Some(addr) {
        assert CountAt(ram[1..], addr) == 0;
      }
      if i :| 0 <= i < |ram| && ram[i].address == Some(addr) {
        if i > 0 {
          assert ram[1..][i - 1].address == Some(addr);
        }
      }
    }
  }

  /**
   * Re-storing an address that is already in use replaces its entry and keeps
   * the RAM size; storing a new address grows it by one.
   */
  lemma StoreAtSize(ram: seq<RamEntry>, text: string, addr: string)
    requires DistinctAddresses(ram)
    ensures (exists i :: 0 <= i < |ram| && ram[i].address == Some(addr)) ==> |StoreAt(ram, text, addr)| == |ram|
    ensures (forall i :: 0 <= i < |ram| ==> ram[i].address != Some(addr)) ==> |StoreAt(ram, text, addr)| == |ram| + 1
  {
    WithoutSize(ram, addr);
    CountAtMostOne(ram, addr);
  }

  /** Addresses stay distinct under the address-keyed store. */
  lemma StoreAtKeepsDistinct(ram: seq<RamEntry>, text: string, addr: string)
    requires DistinctAddresses(ram)
    ensures DistinctAddresses(StoreAt(ram, text, addr))
  {
    WithoutKeepsDistinct(ram, addr);
    var r := StoreAt(ram, text, addr);
    assert r[..|r| - 1] == Without(ram, addr);
  }

  /**
   * Two stores at an address that was free: the first adds an entry, the
   * second replaces it, and one entry at the address remains, holding the
   * second text.
   */
  lemma StoreTwice(ram: seq<RamEntry>, t1: string, t2: string, addr: string)
    requires DistinctAddresses(ram) && forall i :: 0 <= i < |ram| ==> ram[i].address != Some(addr)
    ensures var r1 := StoreAt(ram, t1, addr);
      var r2 := StoreAt(r1, t2, addr);
      && |r1| == |ram| + 1 && |r2| == |r1|
      && r2[|r2| - 1] == RamEntry(t2, Some(addr))
      && CountAt(r2, addr) == 1
  {
    var r1 := StoreAt(ram, t1, addr);
    var r2 := StoreAt(r1, t2, addr);
    StoreAtSize(ram, t1, addr);
    StoreAtKeepsDistinct(ram, t1, addr);
    StoreAtSize(r1, t2, addr);
    StoreAtKeepsDistinct(r1, t2, addr);
    CountAtMostOne(r2, addr);
  }

  lemma {:induction false} WithoutKeepsDistinct(ram: seq<RamEntry>, addr: string)
    requires DistinctAddresses(ram)
    ensures DistinctAddresses(Without(ram, addr))
    decreases |ram|
  {
    if ram != [] {
      var rest := Without(ram[1..], addr);
      assert DistinctAddresses(ram[1..]) by {
        forall i, j | 0 <= i < j < |ram| - 1 && ram[1..][i].address.Some?
          ensures ram[1..][i].address != ram[1..][j].address
        {
          assert ram[1..][i] == ram[i + 1] && ram[1..][j] == ram[j + 1];
        }
      }
      WithoutKeepsDistinct(ram[1..], addr);
      if ram[0].address != Some(addr) {
        var w := [ram[0]] + rest;
        forall j | 0 < j < |w| && ram[0].address.Some?
          ensures ram[0].address != w[j].address
        {
          assert w[j] == rest[j - 1] && rest[j - 1] in ram[1..];
          var k :| 0 <= k < |ram[1..]| && ram[1..][k] == w[j];
          assert ram[k + 1] == w[j];
        }
      }
    }
  }

  /** `a` is `b` with some elements left out, the others in their order. */
  predicate IsSubsequence<T(==)>(a: seq<T>, b: seq<T>)
    decreases |b|
  {
    if a == [] then true
    else if b == [] then false
    else if a[0] == b[0] then IsSubsequence(a[1..], b[1..])
    else IsSubsequence(a, b[1..])
  }

  /** The entries the address-keyed store keeps stay in their relative order. */
  lemma {:induction false} WithoutKeepsOrder(ram: seq<RamEntry>, addr: string)
    ensures IsSubsequence(Without(ram, addr), ram)
    decreases |ram|
  {
    if ram != [] {
      var rest := Without(ram[1..], addr);
      WithoutKeepsOrder(ram[1..], addr);
      if ram[0].address != Some(addr) {
        assert ([ram[0]] + rest)[1..] == rest;
      } else if rest != [] {
        assert rest[0] in rest;
      }
    }
  }

  /** Storing the same text at the same address twice is the same as storing it once. */
  lemma StoreAtIdempotent(ram: seq<RamEntry>, text: string, addr: string)
    ensures StoreAt(StoreAt(ram, text, addr), text, addr) == StoreAt(ram, text, addr)
  {
    var kept := Without(ram, addr);
    var e := RamEntry(text, Some(addr));
    WithoutAppend(kept, [e], addr);
    WithoutNothingAt(kept, addr);
    assert Without([e], addr) == [];
  }

  lemma {:induction false} WithoutAppend(x: seq<RamEntry>, y: seq<RamEntry>, addr: string)
    ensures Without(x + y, addr) == Without(x, addr) + Without(y, addr)
    decreases |x|
  {
    if x != [] {
      assert (x + y)[1..] == x[1..] + y;
      WithoutAppend(x[1..], y, addr);
    } else {
      assert x + y == y;
    }
  }

  lemma {:induction false} WithoutNothingAt(ram: seq<RamEntry>, addr: string)
    requires forall e :: e in ram ==> e.address != Some(addr)
    ensures Without(ram, addr) == ram
    decreases |ram|
  {
    if ram != [] {
      WithoutNothingAt(ram[1..], addr);
    }
  }

  /** Appending a file of size `n` to files all of size `n` keeps every size `n`. */
  lemma AppendSameSize(files: seq<StoredFile>, f: StoredFile, n: nat)
    requires f.size == n && forall i :: 0 <= i < |files| ==> files[i].size == n
    ensures forall i :: 0 <= i < |files + [f]| ==> (files + [f])[i].size == n
  {
  }
}
