/**
 * The seven task checks of both curricula. A check looks at the trimmed
 * command, decides acceptance, and commits its effect on the device together
 * with the callbacks it schedules.
 */
module Tasks {
  import opened Wrappers
  import opened Text
  import opened Pattern
  import opened Commands
  import opened Config
  import opened Device
  import opened Animation

  /** Outcome of a check: accepted or not, the device afterwards, and the callbacks it scheduled. */
  datatype CheckResult = CheckResult(ok: bool, device: Device, scheduled: seq<Timed>)

  /** Nothing happened: rejected, device as it was, nothing scheduled. */
  function Rejected(d: Device): CheckResult {
    CheckResult(false, d, [])
  }

  /** Task 1: any command containing `battery.powerOn` switches the power on. */
  function PowerCheck(c: string, d: Device): (r: CheckResult)
    ensures r.ok <==> exists i: nat :: OccursAt(c, "battery.powerOn", i)
    ensures r.ok ==> r.device == d.(powered := true)
    ensures !r.ok ==> r.device == d
    ensures r.scheduled == []
  {
    if Includes(c, "battery.powerOn") then CheckResult(true, d.(powered := true), []) else Rejected(d)
  }

  /** The speeds the fan task accepts: any in the lenient curriculum, 3000 to 3050 RPM in the strict one. */
  predicate SpeedAccepted(v: Variant, n: nat) {
    v == Lenient || 3000 <= n <= 3050
  }

  /** Task 2: `fan.start(speed=N)` with an accepted `N` sets the fan speed to `N`. */
  function FanCheck(v: Variant, c: string, d: Device): (r: CheckResult)
    ensures r.ok <==> exists ds :: ShapeFound(c, FanPattern, [ds]) && AllDigits(ds) && SpeedAccepted(v, DigitsValue(ds))
    ensures r.ok ==> (exists ds :: ShapeFound(c, FanPattern, [ds]) && AllDigits(ds)
                        && r.device == d.(fanSpeed := DigitsValue(ds)))
    ensures r.ok ==> SpeedAccepted(v, r.device.fanSpeed)
    ensures !r.ok ==> r.device == d
    ensures r.scheduled == []
  {
    match FanSpeed(c)
    case Some(n) =>
      if SpeedAccepted(v, n) then CheckResult(true, d.(fanSpeed := n), []) else Rejected(d)
    case None => Rejected(d)
  }

  /** Task 3: passes once a name has been submitted; it commits nothing. */
  function NameCheck(userName: string, d: Device): (r: CheckResult)
    ensures r.ok <==> userName != ""
    ensures r.device == d && r.scheduled == []
  {
    CheckResult(|userName| > 0, d, [])
  }

  /** The address a strict memory store files its entry under: `0x` and the upper-cased hex digits. */
  function Address(hex: string): (a: string)
    ensures |a| == |hex| + 2 && a[..2] == "0x"
    ensures forall i :: 0 <= i < |hex| ==> a[i + 2] == UpperChar(hex[i])
    ensures (forall i :: 0 <= i < |hex| ==> IsHexDigit(hex[i])) ==>
      forall i :: 2 <= i < |a| ==> IsDigit(a[i]) || 'A' <= a[i] <= 'F'
  {
    UpperHexDigits(hex);
    var a := "0x" + Upper(hex);
    assert forall i :: 2 <= i < |a| ==> a[i] == Upper(hex)[i - 2];
    a
  }

  /** Upper-cased hex digits are decimal digits or the capitals `A` to `F`. */
  lemma UpperHexDigits(hex: string)
    ensures (forall i :: 0 <= i < |hex| ==> IsHexDigit(hex[i])) ==>
      forall i :: 0 <= i < |hex| ==> IsDigit(Upper(hex)[i]) || 'A' <= Upper(hex)[i] <= 'F'
  {
  }

  /**
   * Task 4. Lenient: `ram.store("T")` logs `T` in the five-entry history.
   * Strict: `ram.store("T", 0xH)` files `T` under the normalised address of `H`,
   * replacing whatever was stored there.
   */
  function RamCheck(v: Variant, c: string, d: Device): (r: CheckResult)
    ensures v == Lenient ==>
      && (r.ok <==> exists t :: ShapeFound(c, RamLogPattern, [t]))
      && (r.ok ==> (exists t :: ShapeFound(c, RamLogPattern, [t])
                      && r.device == d.(ram := LogRam(d.ram, RamEntry(t, None)))))
    ensures v == Strict ==>
      && (r.ok <==> exists t, h :: ShapeFound(c, RamAtPattern, [t, h]))
      && (r.ok ==> (exists t, h :: ShapeFound(c, RamAtPattern, [t, h])
                      && r.device == d.(ram := StoreAt(d.ram, t, Address(h)))))
    ensures !r.ok ==> r.device == d
    ensures r.scheduled == []
  {
    match v
    case Lenient =>
      (match RamLogText(c)
       case Some(t) => CheckResult(true, d.(ram := LogRam(d.ram, RamEntry(t, None))), [])
       case None => Rejected(d))
    case Strict =>
      (match RamAtArgs(c)
       case Some(a) =>
         assert ShapeFound(c, RamAtPattern, [a.text, a.hex]);
         CheckResult(true, d.(ram := StoreAt(d.ram, a.text, Address(a.hex))), [])
       case None => Rejected(d))
  }

  /** The operations the strict processor task accepts, after upper-casing. */
  const AllowedOps: seq<string> := ["ADD", "SUB", "MUL", "DIV"]

  /**
   * `triggerCpuCycles`: the operation is shown at once (`ADD` when it is
   * empty) and the pulse schedule is registered. Only the shown operation
   * changes now; the schedule shows pulse 1 to `max(total, 1)`, clearing each,
   * and then puts the operation back to IDLE.
   */
  function TriggerCpuCycles(total: nat, op: string, d: Device): (r: (Device, seq<Timed>))
    ensures r.0 == d.(cpuOp := r.0.cpuOp) && r.0.cpuOp != ""
    ensures op != "" ==> r.0.cpuOp == op
    ensures |r.1| >= 3 && Chronological(r.1) && PulsesThenIdle(r.1)
    ensures CountsPulses(r.1, if total == 0 then 1 else total)
  {
    CpuCyclesEffects(total);
    (d.(cpuOp := if op == "" then "ADD" else op), CpuCycles(total))
  }

  /**
   * Task 5. Lenient: any command containing `cpu.execute` drives the activity
   * to 100 and schedules its decay. Strict: `cpu.execute("OP", cycles=N)` with
   * an allowed operation (in any letter case) and `N > 0` shows the
   * upper-cased operation and schedules `N` pulses.
   */
  function CpuCheck(v: Variant, c: string, d: Device): (r: CheckResult)
    ensures v == Lenient ==>
      && (r.ok <==> exists i: nat :: OccursAt(c, "cpu.execute", i))
      && (r.ok ==> r.device == d.(cpuLevel := 100) && r.scheduled == CpuDecay)
    ensures v == Strict ==>
      && (r.ok <==> exists op, ds :: ShapeFound(c, CpuPattern, [op, ds]) && AllDigits(ds)
                      && Upper(op) in AllowedOps && DigitsValue(ds) > 0)
      && (r.ok ==> (exists op, ds :: ShapeFound(c, CpuPattern, [op, ds]) && AllDigits(ds)
                      && Upper(op) in AllowedOps && DigitsValue(ds) > 0
                      && r.device == d.(cpuOp := Upper(op)) && r.scheduled == CpuCycles(DigitsValue(ds))))
    ensures !r.ok ==> r.device == d && r.scheduled == []
  {
    match v
    case Lenient =>
      if Includes(c, "cpu.execute") then CheckResult(true, d.(cpuLevel := 100), CpuDecay) else Rejected(d)
    case Strict =>
      (match CpuArgs(c)
       case Some(a) =>
         var op := Upper(a.op);
         if op in AllowedOps && a.cycles > 0 then
           var (d', evs) := TriggerCpuCycles(a.cycles, op, d);
           CheckResult(true, d', evs)
         else Rejected(d)
       case None => Rejected(d))
  }

  /** The exact size, in bytes, of a 2048 x 2048 texture at 32 bits per pixel. */
  const TextureBytes: nat := 16777216

  /** The sizes the storage task accepts: any in the lenient curriculum, exactly the texture size in the strict one. */
  predicate SizeAccepted(v: Variant, n: nat) {
    v == Lenient || n == TextureBytes
  }

  /** A position on the board the bits travel across. */
  datatype Spot = Spot(x: int, y: int)

  /** Where each page draws the processor: grid cell (2, 2) in the lenient page, (20, 25) in the strict one. */
  function CpuAt(v: Variant): Spot {
    match v
    case Lenient => Spot(2, 2)
    case Strict => Spot(20, 25)
  }

  /** Where each page draws the storage: grid cell (8, 2) in the lenient page, (80, 25) in the strict one. */
  function StorageAt(v: Variant): Spot {
    match v
    case Lenient => Spot(8, 2)
    case Strict => Spot(80, 25)
  }

  /**
   * The bits a storage write launches: eight in the lenient page, ten in the
   * strict one, the `i`-th after `100 i` ms, all on the path from the
   * processor to the storage.
   */
  function WriteBurst(v: Variant): (r: seq<Timed>)
    ensures |r| == BitBurstSize(v)
    ensures forall i :: 0 <= i < |r| ==>
      r[i] == Timed(i * 100, SpawnBit(CpuAt(v).x, CpuAt(v).y, StorageAt(v).x, StorageAt(v).y))
    ensures Chronological(r)
  {
    BitBurst(BitBurstSize(v), CpuAt(v).x, CpuAt(v).y, StorageAt(v).x, StorageAt(v).y)
  }

  /** Task 6: `storage.write("NAME", N)` with an accepted size appends one file record and launches the bits. */
  function StorageCheck(v: Variant, c: string, d: Device): (r: CheckResult)
    ensures r.ok <==> (exists name, ds :: ShapeFound(c, WritePattern, [name, ds]) && AllDigits(ds)
                         && SizeAccepted(v, DigitsValue(ds)))
    ensures r.ok ==> (exists name, ds :: ShapeFound(c, WritePattern, [name, ds]) && AllDigits(ds)
                        && r.device == d.(files := d.files + [StoredFile(name, DigitsValue(ds))]))
    ensures r.ok ==> exists f :: r.device == d.(files := d.files + [f]) && SizeAccepted(v, f.size)
    ensures r.ok ==> |r.scheduled| == BitBurstSize(v) && r.scheduled == WriteBurst(v)
    ensures !r.ok ==> r.device == d && r.scheduled == []
  {
    match StorageArgs(c)
    case Some(a) =>
      if SizeAccepted(v, a.size) then
        CheckResult(true, d.(files := d.files + [StoredFile(a.name, a.size)]), WriteBurst(v))
      else Rejected(d)
    case None => Rejected(d)
  }

  /** The pixel throughput of 1920 x 1080 at 120 Hz, as the strict display task expects it written. */
  const Throughput: string := "248832000"

  /**
   * Task 7: `screen.display("T")` shows `T`. The strict curriculum accepts it
   * only when `T` contains the expected throughput, but shows `T` either way.
   */
  function DisplayCheck(v: Variant, c: string, d: Device): (r: CheckResult)
    ensures r.ok <==> (exists t :: ShapeFound(c, DisplayPattern, [t])
                         && (v == Strict ==> exists i: nat :: OccursAt(t, Throughput, i)))
    ensures forall t :: ShapeFound(c, DisplayPattern, [t]) ==> r.device == d.(screenText := t)
    ensures (forall t :: !ShapeFound(c, DisplayPattern, [t])) ==> r.device == d
    ensures r.scheduled == []
  {
    match DisplayText(c)
    case Some(t) =>
      var d' := d.(screenText := t);
      (match v
       case Lenient => CheckResult(true, d', [])
       case Strict => CheckResult(Includes(t, Throughput), d', []))
    case None => Rejected(d)
  }

  /** The check of the task at index `task`, on the trimmed command `c`. */
  function Check(v: Variant, task: nat, c: string, userName: string, d: Device): (r: CheckResult)
    requires task < TaskCount
  {
    match task
    case 0 => PowerCheck(c, d)
    case 1 => FanCheck(v, c, d)
    case 2 => NameCheck(userName, d)
    case 3 => RamCheck(v, c, d)
    case 4 => CpuCheck(v, c, d)
    case 5 => StorageCheck(v, c, d)
    case 6 => DisplayCheck(v, c, d)
  }

  /**
   * On canonical fan commands the strict task accepts exactly the speeds 3000
   * to 3050, the lenient one every speed; the speed set is the value of the
   * digits, leading zeros allowed.
   */
  lemma FanBand(v: Variant, ds: string, d: Device)
    requires |ds| > 0 && AllDigits(ds)
    ensures FanCheck(v, FanCommand(ds), d).ok <==> (v == Lenient || 3000 <= DigitsValue(ds) <= 3050)
    ensures FanCheck(v, FanCommand(ds), d).ok ==> FanCheck(v, FanCommand(ds), d).device == d.(fanSpeed := DigitsValue(ds))
  {
    FanRoundTrip(ds);
  }

  /** On canonical storage commands the strict task accepts exactly the texture size, and appends exactly one record. */
  lemma StorageSize(v: Variant, name: string, ds: string, d: Device)
    requires |name| > 0 && '"' !in name && |ds| > 0 && AllDigits(ds)
    ensures StorageCheck(v, WriteCommand(name, ds), d).ok <==> (v == Lenient || DigitsValue(ds) == TextureBytes)
    ensures StorageCheck(v, WriteCommand(name, ds), d).ok ==>
      StorageCheck(v, WriteCommand(name, ds), d).device == d.(files := d.files + [StoredFile(name, DigitsValue(ds))])
  {
    StorageRoundTrip(name, ds);
  }

  /**
   * On canonical display commands the strict task accepts exactly the texts
   * containing the throughput, and shows the text whether or not it accepts.
   */
  lemma DisplayThroughput(v: Variant, t: string, d: Device)
    requires |t| > 0 && '"' !in t
    ensures DisplayCheck(v, DisplayCommand(t), d).ok <==> (v == Lenient || exists i: nat :: OccursAt(t, Throughput, i))
    ensures DisplayCheck(v, DisplayCommand(t), d).device == d.(screenText := t)
  {
    DisplayRoundTrip(t);
  }

  /**
   * On canonical processor commands the strict task accepts exactly an
   * allowed operation in any letter case with at least one cycle, shows it
   * upper-cased and schedules that many pulses.
   */
  lemma CpuOperation(op: string, ds: string, d: Device)
    requires |op| > 0 && '"' !in op && |ds| > 0 && AllDigits(ds)
    ensures CpuCheck(Strict, CpuCommand(op, ds), d).ok <==> (Upper(op) in AllowedOps && DigitsValue(ds) > 0)
    ensures CpuCheck(Strict, CpuCommand(op, ds), d).ok ==>
      && CpuCheck(Strict, CpuCommand(op, ds), d).device == d.(cpuOp := Upper(op))
      && CpuCheck(Strict, CpuCommand(op, ds), d).scheduled == CpuCycles(DigitsValue(ds))
  {
    CpuRoundTrip(op, ds);
  }

  /* Worked examples of the strict acceptance sets, on commands as a learner would type them. */

  /** The lower end of the strict fan band is accepted. */
  lemma FanExample3000(d: Device)
    ensures FanCheck(Strict, "fan.start(speed=3000)", d).ok
  {
    NumeralValue("3000", 3000);
    assert FanCommand("3000") == "fan.start(speed=3000)";
    FanBand(Strict, "3000", d);
  }

  /** The upper end of the strict fan band is accepted. */
  lemma FanExample3050(d: Device)
    ensures FanCheck(Strict, "fan.start(speed=3050)", d).ok
  {
    NumeralValue("3050", 3050);
    assert FanCommand("3050") == "fan.start(speed=3050)";
    FanBand(Strict, "3050", d);
  }

  /** One RPM below the strict fan band is rejected. */
  lemma FanExample2999(d: Device)
    ensures !FanCheck(Strict, "fan.start(speed=2999)", d).ok
  {
    NumeralValue("2999", 2999);
    assert FanCommand("2999") == "fan.start(speed=2999)";
    FanBand(Strict, "2999", d);
  }

  /** One RPM above the strict fan band is rejected. */
  lemma FanExample3051(d: Device)
    ensures !FanCheck(Strict, "fan.start(speed=3051)", d).ok
  {
    NumeralValue("3051", 3051);
    assert FanCommand("3051") == "fan.start(speed=3051)";
    FanBand(Strict, "3051", d);
  }

  /** The exact texture size is accepted. */
  lemma StorageExample16777216(d: Device)
    ensures StorageCheck(Strict, "storage.write(\"tex.png\",16777216)", d).ok
  {
    SizeValues();
    assert WriteCommand("tex.png", "16777216") == "storage.write(\"tex.png\",16777216)";
    StorageSize(Strict, "tex.png", "16777216", d);
  }

  /** One byte less is rejected. */
  lemma StorageExample16777215(d: Device)
    ensures !StorageCheck(Strict, "storage.write(\"tex.png\",16777215)", d).ok
  {
    SizeValues();
    assert WriteCommand("tex.png", "16777215") == "storage.write(\"tex.png\",16777215)";
    StorageSize(Strict, "tex.png", "16777215", d);
  }

  /** The four-digit halves of the sizes the storage examples type. */
  lemma SizeHalves()
    ensures AllDigits("1677") && DigitsValue("1677") == 1677
    ensures AllDigits("7215") && DigitsValue("7215") == 7215
    ensures AllDigits("7216") && DigitsValue("7216") == 7216
  {
    NumeralValue("1677", 1677);
    NumeralValue("7215", 7215);
    NumeralValue("7216", 7216);
  }

  /** The sizes the storage examples type, read as `parseInt` reads them. */
  lemma SizeValues()
    ensures AllDigits("16777215") && DigitsValue("16777215") == TextureBytes - 1
    ensures AllDigits("16777216") && DigitsValue("16777216") == TextureBytes
  {
    SizeHalves();
    DigitsValueAppend("1677", "7215");
    DigitsValueAppend("1677", "7216");
    assert "1677" + "7215" == "16777215" && "1677" + "7216" == "16777216";
    assert Pow10(4) == 10000;
  }

  /** A display text containing the throughput is accepted. */
  lemma DisplayExampleAccepted(d: Device)
    ensures DisplayCheck(Strict, "screen.display(\"248832000 px/s\")", d).ok
  {
    assert DisplayCommand("248832000 px/s") == "screen.display(\"248832000 px/s\")";
    ThroughputAtStart();
    DisplayThroughput(Strict, "248832000 px/s", d);
  }

  lemma ThroughputAtStart()
    ensures OccursAt("248832000 px/s", Throughput, 0)
  {
    assert "248832000 px/s"[..|Throughput|] == Throughput;
  }

  /** A display text without the throughput is rejected, but it is on the screen all the same. */
  lemma DisplayExampleRejected(d: Device)
    ensures !DisplayCheck(Strict, "screen.display(\"248832\")", d).ok
    ensures DisplayCheck(Strict, "screen.display(\"248832\")", d).device.screenText == "248832"
  {
    assert DisplayCommand("248832") == "screen.display(\"248832\")";
    DisplayThroughput(Strict, "248832", d);
  }

  /** A lower-case operation is accepted and shown upper-cased. */
  lemma CpuExampleLowerCase(d: Device)
    ensures CpuCheck(Strict, "cpu.execute(\"mul\",cycles=3)", d).ok
    ensures CpuCheck(Strict, "cpu.execute(\"mul\",cycles=3)", d).device.cpuOp == "MUL"
  {
    NumeralValue("3", 3);
    assert CpuCommand("mul", "3") == "cpu.execute(\"mul\",cycles=3)";
    assert Upper("mul") == "MUL";
    CpuOperation("mul", "3", d);
  }

  lemma UnknownOp()
    ensures Upper("MOD") !in AllowedOps
  {
    assert Upper("MOD") == "MOD";
    assert "MOD"[0] == 'M';
  }

  /** An operation outside the four is rejected. */
  lemma CpuExampleUnknownOp(d: Device)
    ensures !CpuCheck(Strict, "cpu.execute(\"MOD\",cycles=3)", d).ok
  {
    NumeralValue("3", 3);
    assert CpuCommand("MOD", "3") == "cpu.execute(\"MOD\",cycles=3)";
    UnknownOp();
    CpuOperation("MOD", "3", d);
  }

  /** Zero cycles are rejected. */
  lemma CpuExampleNoCycles(d: Device)
    ensures !CpuCheck(Strict, "cpu.execute(\"ADD\",cycles=0)", d).ok
  {
    NumeralValue("0", 0);
    assert CpuCommand("ADD", "0") == "cpu.execute(\"ADD\",cycles=0)";
    CpuOperation("ADD", "0", d);
  }

  /** Two hexadecimal digits that are the same up to letter case. */
  predicate SameHexDigit(a: char, b: char) {
    || a == b
    || ('a' <= a <= 'f' && b as int == a as int - 32)
    || ('A' <= a <= 'F' && b as int == a as int + 32)
  }

  lemma SameHexUpper(a: char, b: char)
    requires IsHexDigit(a) && IsHexDigit(b)
    ensures UpperChar(a) == UpperChar(b) <==> SameHexDigit(a, b)
  {
  }

  /**
   * Two strings of hex digits name the same memory address exactly when they
   * have the same length and differ at most in the letter case of each digit.
   */
  lemma AddressIgnoresCase(h1: string, h2: string)
    requires forall i :: 0 <= i < |h1| ==> IsHexDigit(h1[i])
    requires forall i :: 0 <= i < |h2| ==> IsHexDigit(h2[i])
    ensures Address(h1) == Address(h2) <==> |h1| == |h2| && forall i :: 0 <= i < |h1| ==> SameHexDigit(h1[i], h2[i])
  {
    var a1, a2 := Address(h1), Address(h2);
    if a1 == a2 {
      forall i | 0 <= i < |h1| ensures SameHexDigit(h1[i], h2[i]) {
        assert a1[i + 2] == a2[i + 2];
        SameHexUpper(h1[i], h2[i]);
      }
    }
    if |h1| == |h2| && forall i :: 0 <= i < |h1| ==> SameHexDigit(h1[i], h2[i]) {
      forall i | 0 <= i < |a1| ensures a1[i] == a2[i] {
        if i >= 2 {
          SameHexUpper(h1[i - 2], h2[i - 2]);
        } else {
          assert a1[..2] == a2[..2];
        }
      }
      assert a1 == a2;
    }
  }

  /**
   * An operation name upper-cases to one of the four allowed operations
   * exactly when it spells one of them letter by letter, each letter in
   * either case.
   */
  lemma AllowedOpSpelling(op: string)
    ensures Upper(op) in AllowedOps <==>
      exists w :: w in AllowedOps && |op| == |w| && forall i :: 0 <= i < |op| ==> CaseFormOf(op[i], w[i])
  {
    forall w | w in AllowedOps
      ensures Upper(op) == w <==> |op| == |w| && forall i :: 0 <= i < |op| ==> CaseFormOf(op[i], w[i])
    {
      assert AllUpperLetters(w);
      UpperToWord(op, w);
    }
  }

  /** On canonical address-keyed store commands the strict task always accepts, and files the text under the normalised address. */
  lemma RamStoreCanonical(t: string, h: string, d: Device)
    requires |t| > 0 && '"' !in t
    requires |h| > 0 && forall i :: 0 <= i < |h| ==> IsHexDigit(h[i])
    ensures RamCheck(Strict, RamAtCommand(t, h), d) == CheckResult(true, d.(ram := StoreAt(d.ram, t, Address(h))), [])
  {
    RamAtRoundTrip(t, h);
  }

  /** Storing under `A1` or `a1` stores at the address `0xA1`. */
  lemma StoreA1(t: string, h: string, d: Device)
    requires |t| > 0 && '"' !in t && (h == "A1" || h == "a1")
    ensures RamCheck(Strict, RamAtCommand(t, h), d) == CheckResult(true, d.(ram := StoreAt(d.ram, t, "0xA1")), [])
  {
    AddressA1(h);
    RamStoreCanonical(t, h, d);
  }

  lemma AddressA1(h: string)
    requires h == "A1" || h == "a1"
    ensures |h| > 0 && (forall i :: 0 <= i < |h| ==> IsHexDigit(h[i])) && Address(h) == "0xA1"
  {
    assert Address(h)[2] == 'A';
  }

  /**
   * Storing under `0xa1` after `0xA1` replaces the first entry: the memory
   * grows by one entry for the two commands, holds one entry for the
   * address, and that entry has the second text.
   */
  lemma RestoreSameAddress(t1: string, t2: string, d: Device)
    requires |t1| > 0 && '"' !in t1 && |t2| > 0 && '"' !in t2
    requires DistinctAddresses(d.ram) && forall i :: 0 <= i < |d.ram| ==> d.ram[i].address != Some("0xA1")
    ensures var d1 := RamCheck(Strict, RamAtCommand(t1, "A1"), d).device;
      var d2 := RamCheck(Strict, RamAtCommand(t2, "a1"), d1).device;
      && |d1.ram| == |d.ram| + 1
      && |d2.ram| == |d1.ram|
      && d2.ram[|d2.ram| - 1] == RamEntry(t2, Some("0xA1"))
      && CountAt(d2.ram, "0xA1") == 1
  {
    StoreA1(t1, "A1", d);
    StoreA1(t2, "a1", d.(ram := StoreAt(d.ram, t1, "0xA1")));
    StoreTwice(d.ram, t1, t2, "0xA1");
  }
}
