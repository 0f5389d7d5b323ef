/**
 * The command shapes of the seven tasks, as the regular expressions of both
 * variants spell them, and the typed parameters `String.prototype.match`
 * and `parseInt` extract from them.
 */
module Commands {
  import opened Wrappers
  import opened Text
  import opened Pattern

  /** `\s*` */
  const Ws := Many(Space)

  /** `fan\.start\(\s*speed\s*=\s*(\d+)\s*\)` */
  const FanPattern: seq<Tok> :=
    [Lit("fan.start("), Ws, Lit("speed"), Ws, Lit("="), Ws, Group(Digit), Ws, Lit(")")]

  /** The pattern is separated, so its greedy match is the one JavaScript finds. */
  lemma FanPatternShape()
    ensures Separated(FanPattern) && GroupClasses(FanPattern) == [Digit]
  {
    var q9: seq<Tok> := [];
    var q8 := [Lit(")")] + q9;
    ShapedLit(")", q9, []);
    var q7 := [Ws] + q8;
    ShapedMany(Space, q8, [], Starts({')'}, {}));
    var q6 := [Group(Digit)] + q7;
    ShapedGroup(Digit, q7, [], Starts({')'}, {Space}));
    var q5 := [Ws] + q6;
    ShapedMany(Space, q6, [Digit], Starts({}, {Digit}));
    var q4 := [Lit("=")] + q5;
    ShapedLit("=", q5, [Digit]);
    var q3 := [Ws] + q4;
    ShapedMany(Space, q4, [Digit], Starts({'='}, {}));
    var q2 := [Lit("speed")] + q3;
    ShapedLit("speed", q3, [Digit]);
    var q1 := [Ws] + q2;
    ShapedMany(Space, q2, [Digit], Starts({'s'}, {}));
    var q0 := [Lit("fan.start(")] + q1;
    ShapedLit("fan.start(", q1, [Digit]);
    FanPatternCons();
    SeparatedByFirstSetsSound(q0);
  }

  /** `ram\.store\(\s*"([^"]+)"\s*\)` */
  const RamLogPattern: seq<Tok> :=
    [Lit("ram.store("), Ws, Lit("\""), Group(NonQuote), Lit("\""), Ws, Lit(")")]

  /** The pattern is separated, so its greedy match is the one JavaScript finds. */
  lemma RamLogPatternShape()
    ensures Separated(RamLogPattern) && GroupClasses(RamLogPattern) == [NonQuote]
  {
    var q7: seq<Tok> := [];
    var q6 := [Lit(")")] + q7;
    ShapedLit(")", q7, []);
    var q5 := [Ws] + q6;
    ShapedMany(Space, q6, [], Starts({')'}, {}));
    var q4 := [Lit("\"")] + q5;
    ShapedLit("\"", q5, []);
    var q3 := [Group(NonQuote)] + q4;
    ShapedGroup(NonQuote, q4, [], Starts({'"'}, {}));
    var q2 := [Lit("\"")] + q3;
    ShapedLit("\"", q3, [NonQuote]);
    var q1 := [Ws] + q2;
    ShapedMany(Space, q2, [NonQuote], Starts({'"'}, {}));
    var q0 := [Lit("ram.store(")] + q1;
    ShapedLit("ram.store(", q1, [NonQuote]);
    RamLogPatternCons();
    SeparatedByFirstSetsSound(q0);
  }

  /** `ram\.store\(\s*"([^"]+)"\s*,\s*0x([0-9A-Fa-f]+)\s*\)` */
  const RamAtPattern: seq<Tok> :=
    [Lit("ram.store("), Ws, Lit("\""), Group(NonQuote), Lit("\""), Ws, Lit(","), Ws, Lit("0x"), Group(HexDigit), Ws, Lit(")")]

  /** The separation check on the pattern from token 6 on. */
  lemma RamAtPatternTail()
    ensures Shaped([Lit(",")] + ([Ws] + ([Lit("0x")] + ([Group(HexDigit)] + ([Ws] + ([Lit(")")] + []))))), [HexDigit], Starts({','}, {}))
  {
    var q12: seq<Tok> := [];
    var q11 := [Lit(")")] + q12;
    ShapedLit(")", q12, []);
    var q10 := [Ws] + q11;
    ShapedMany(Space, q11, [], Starts({')'}, {}));
    var q9 := [Group(HexDigit)] + q10;
    ShapedGroup(HexDigit, q10, [], Starts({')'}, {Space}));
    var q8 := [Lit("0x")] + q9;
    ShapedLit("0x", q9, [HexDigit]);
    var q7 := [Ws] + q8;
    ShapedMany(Space, q8, [HexDigit], Starts({'0'}, {}));
    var q6 := [Lit(",")] + q7;
    ShapedLit(",", q7, [HexDigit]);
  }

  /** The pattern is separated, so its greedy match is the one JavaScript finds. */
  lemma RamAtPatternShape()
    ensures Separated(RamAtPattern) && GroupClasses(RamAtPattern) == [NonQuote, HexDigit]
  {
    var q6 := [Lit(",")] + ([Ws] + ([Lit("0x")] + ([Group(HexDigit)] + ([Ws] + ([Lit(")")] + [])))));
    RamAtPatternTail();
    var q5 := [Ws] + q6;
    ShapedMany(Space, q6, [HexDigit], Starts({','}, {}));
    var q4 := [Lit("\"")] + q5;
    ShapedLit("\"", q5, [HexDigit]);
    var q3 := [Group(NonQuote)] + q4;
    ShapedGroup(NonQuote, q4, [HexDigit], Starts({'"'}, {}));
    var q2 := [Lit("\"")] + q3;
    ShapedLit("\"", q3, [NonQuote, HexDigit]);
    var q1 := [Ws] + q2;
    ShapedMany(Space, q2, [NonQuote, HexDigit], Starts({'"'}, {}));
    var q0 := [Lit("ram.store(")] + q1;
    ShapedLit("ram.store(", q1, [NonQuote, HexDigit]);
    RamAtPatternCons();
    SeparatedByFirstSetsSound(q0);
  }

  /** `cpu\.execute\(\s*"([^"]+)"\s*,\s*cycles\s*=\s*(\d+)\s*\)` */
  const CpuPattern: seq<Tok> :=
    [Lit("cpu.execute("), Ws, Lit("\""), Group(NonQuote), Lit("\""), Ws, Lit(","), Ws, Lit("cycles"), Ws, Lit("="), Ws, Group(Digit), Ws, Lit(")")]

  /** The separation check on the pattern from token 7 on. */
  lemma CpuPatternTail()
    ensures Shaped([Ws] + ([Lit("cycles")] + ([Ws] + ([Lit("=")] + ([Ws] + ([Group(Digit)] + ([Ws] + ([Lit(")")] + []))))))), [Digit], Starts({'c'}, {Space}))
  {
    var q15: seq<Tok> := [];
    var q14 := [Lit(")")] + q15;
    ShapedLit(")", q15, []);
    var q13 := [Ws] + q14;
    ShapedMany(Space, q14, [], Starts({')'}, {}));
    var q12 := [Group(Digit)] + q13;
    ShapedGroup(Digit, q13, [], Starts({')'}, {Space}));
    var q11 := [Ws] + q12;
    ShapedMany(Space, q12, [Digit], Starts({}, {Digit}));
    var q10 := [Lit("=")] + q11;
    ShapedLit("=", q11, [Digit]);
    var q9 := [Ws] + q10;
    ShapedMany(Space, q10, [Digit], Starts({'='}, {}));
    var q8 := [Lit("cycles")] + q9;
    ShapedLit("cycles", q9, [Digit]);
    var q7 := [Ws] + q8;
    ShapedMany(Space, q8, [Digit], Starts({'c'}, {}));
  }

  /** The pattern is separated, so its greedy match is the one JavaScript finds. */
  lemma CpuPatternShape()
    ensures Separated(CpuPattern) && GroupClasses(CpuPattern) == [NonQuote, Digit]
  {
    var q7 := [Ws] + ([Lit("cycles")] + ([Ws] + ([Lit("=")] + ([Ws] + ([Group(Digit)] + ([Ws] + ([Lit(")")] + [])))))));
    CpuPatternTail();
    var q6 := [Lit(",")] + q7;
    ShapedLit(",", q7, [Digit]);
    var q5 := [Ws] + q6;
    ShapedMany(Space, q6, [Digit], Starts({','}, {}));
    var q4 := [Lit("\"")] + q5;
    ShapedLit("\"", q5, [Digit]);
    var q3 := [Group(NonQuote)] + q4;
    ShapedGroup(NonQuote, q4, [Digit], Starts({'"'}, {}));
    var q2 := [Lit("\"")] + q3;
    ShapedLit("\"", q3, [NonQuote, Digit]);
    var q1 := [Ws] + q2;
    ShapedMany(Space, q2, [NonQuote, Digit], Starts({'"'}, {}));
    var q0 := [Lit("cpu.execute(")] + q1;
    ShapedLit("cpu.execute(", q1, [NonQuote, Digit]);
    CpuPatternCons();
    SeparatedByFirstSetsSound(q0);
  }

  /** `storage\.write\(\s*"([^"]+)"\s*,\s*(\d+)\s*\)` */
  const WritePattern: seq<Tok> :=
    [Lit("storage.write("), Ws, Lit("\""), Group(NonQuote), Lit("\""), Ws, Lit(","), Ws, Group(Digit), Ws, Lit(")")]

  /** The separation check on the pattern from token 5 on. */
  lemma WritePatternTail()
    ensures Shaped([Ws] + ([Lit(",")] + ([Ws] + ([Group(Digit)] + ([Ws] + ([Lit(")")] + []))))), [Digit], Starts({','}, {Space}))
  {
    var q11: seq<Tok> := [];
    var q10 := [Lit(")")] + q11;
    ShapedLit(")", q11, []);
    var q9 := [Ws] + q10;
    ShapedMany(Space, q10, [], Starts({')'}, {}));
    var q8 := [Group(Digit)] + q9;
    ShapedGroup(Digit, q9, [], Starts({')'}, {Space}));
    var q7 := [Ws] + q8;
    ShapedMany(Space, q8, [Digit], Starts({}, {Digit}));
    var q6 := [Lit(",")] + q7;
    ShapedLit(",", q7, [Digit]);
    var q5 := [Ws] + q6;
    ShapedMany(Space, q6, [Digit], Starts({','}, {}));
  }

  /** The pattern is separated, so its greedy match is the one JavaScript finds. */
  lemma WritePatternShape()
    ensures Separated(WritePattern) && GroupClasses(WritePattern) == [NonQuote, Digit]
  {
    var q5 := [Ws] + ([Lit(",")] + ([Ws] + ([Group(Digit)] + ([Ws] + ([Lit(")")] + [])))));
    WritePatternTail();
    var q4 := [Lit("\"")] + q5;
    ShapedLit("\"", q5, [Digit]);
    var q3 := [Group(NonQuote)] + q4;
    ShapedGroup(NonQuote, q4, [Digit], Starts({'"'}, {}));
    var q2 := [Lit("\"")] + q3;
    ShapedLit("\"", q3, [NonQuote, Digit]);
    var q1 := [Ws] + q2;
    ShapedMany(Space, q2, [NonQuote, Digit], Starts({'"'}, {}));
    var q0 := [Lit("storage.write(")] + q1;
    ShapedLit("storage.write(", q1, [NonQuote, Digit]);
    WritePatternCons();
    SeparatedByFirstSetsSound(q0);
  }

  /** `screen\.display\(\s*"([^"]+)"\s*\)` */
  const DisplayPattern: seq<Tok> :=
    [Lit("screen.display("), Ws, Lit("\""), Group(NonQuote), Lit("\""), Ws, Lit(")")]

  /** The pattern is separated, so its greedy match is the one JavaScript finds. */
  lemma DisplayPatternShape()
    ensures Separated(DisplayPattern) && GroupClasses(DisplayPattern) == [NonQuote]
  {
    var q7: seq<Tok> := [];
    var q6 := [Lit(")")] + q7;
    ShapedLit(")", q7, []);
    var q5 := [Ws] + q6;
    ShapedMany(Space, q6, [], Starts({')'}, {}));
    var q4 := [Lit("\"")] + q5;
    ShapedLit("\"", q5, []);
    var q3 := [Group(NonQuote)] + q4;
    ShapedGroup(NonQuote, q4, [], Starts({'"'}, {}));
    var q2 := [Lit("\"")] + q3;
    ShapedLit("\"", q3, [NonQuote]);
    var q1 := [Ws] + q2;
    ShapedMany(Space, q2, [NonQuote], Starts({'"'}, {}));
    var q0 := [Lit("screen.display(")] + q1;
    ShapedLit("screen.display(", q1, [NonQuote]);
    DisplayPatternCons();
    SeparatedByFirstSetsSound(q0);
  }

  /** The speed of `fan.start(speed=N)`: the decimal value of the captured digits. */
  function FanSpeed(c: string): (r: Option<nat>)
    ensures forall n :: r == Some(n) <==>
      exists ds :: ShapeFound(c, FanPattern, [ds]) && AllDigits(ds) && DigitsValue(ds) == n
  {
    FanPatternShape();
    match Captures(c, FanPattern)
    case Some(caps) =>
      assert caps == [caps[0]] && AllDigits(caps[0]);
      Some(DigitsValue(caps[0]))
    case None => None
  }

  /** The text of `ram.store("T")` in the log-style memory command (no address). */
  function RamLogText(c: string): (r: Option<string>)
    ensures forall t :: r == Some(t) <==> ShapeFound(c, RamLogPattern, [t])
    ensures r.Some? ==> |r.value| > 0 && '"' !in r.value
  {
    RamLogPatternShape();
    match Captures(c, RamLogPattern)
    case Some(caps) =>
      assert caps == [caps[0]];
      Some(caps[0])
    case None => None
  }

  /** Arguments of `ram.store("T", 0xH)`: the text and the hexadecimal digits after `0x`. */
  datatype StoreArgs = StoreArgs(text: string, hex: string)

  function RamAtArgs(c: string): (r: Option<StoreArgs>)
    ensures forall a :: r == Some(a) <==> ShapeFound(c, RamAtPattern, [a.text, a.hex])
    ensures r.Some? ==> |r.value.text| > 0 && '"' !in r.value.text
    ensures r.Some? ==> |r.value.hex| > 0 && forall i :: 0 <= i < |r.value.hex| ==> IsHexDigit(r.value.hex[i])
  {
    RamAtPatternShape();
    match Captures(c, RamAtPattern)
    case Some(caps) =>
      assert caps == [caps[0], caps[1]];
      Some(StoreArgs(caps[0], caps[1]))
    case None => None
  }

  /** Arguments of `cpu.execute("OP", cycles=N)`. */
  datatype ExecArgs = ExecArgs(op: string, cycles: nat)

  function CpuArgs(c: string): (r: Option<ExecArgs>)
    ensures forall a :: r == Some(a) <==>
      exists ds :: ShapeFound(c, CpuPattern, [a.op, ds]) && AllDigits(ds) && DigitsValue(ds) == a.cycles
    ensures r.Some? ==> |r.value.op| > 0 && '"' !in r.value.op
  {
    CpuPatternShape();
    match Captures(c, CpuPattern)
    case Some(caps) =>
      assert caps == [caps[0], caps[1]] && AllDigits(caps[1]);
      Some(ExecArgs(caps[0], DigitsValue(caps[1])))
    case None => None
  }

  /** Arguments of `storage.write("NAME", N)`. */
  datatype WriteArgs = WriteArgs(name: string, size: nat)

  function StorageArgs(c: string): (r: Option<WriteArgs>)
    ensures forall a :: r == Some(a) <==>
      exists ds :: ShapeFound(c, WritePattern, [a.name, ds]) && AllDigits(ds) && DigitsValue(ds) == a.size
    ensures r.Some? ==> |r.value.name| > 0 && '"' !in r.value.name
  {
    WritePatternShape();
    match Captures(c, WritePattern)
    case Some(caps) =>
      assert caps == [caps[0], caps[1]] && AllDigits(caps[1]);
      Some(WriteArgs(caps[0], DigitsValue(caps[1])))
    case None => None
  }

  /** The text of `screen.display("T")`. */
  function DisplayText(c: string): (r: Option<string>)
    ensures forall t :: r == Some(t) <==> ShapeFound(c, DisplayPattern, [t])
    ensures r.Some? ==> |r.value| > 0 && '"' !in r.value
  {
    DisplayPatternShape();
    match Captures(c, DisplayPattern)
    case Some(caps) =>
      assert caps == [caps[0]];
      Some(caps[0])
    case None => None
  }

  /*
   * Canonical command texts, written without optional whitespace. Each is the
   * rendering of its pattern, and each is read back as the parameters it was
   * written with.
   */

  /** `fan.start(speed=N)` with the digits `ds`, written without optional whitespace. */
  function FanCommand(ds: string): string {
    "fan.start(speed=" + ds + ")"
  }

  lemma FanPatternCons()
    ensures FanPattern == [Lit("fan.start(")] + ([Ws] + ([Lit("speed")] + ([Ws] + ([Lit("=")] + ([Ws] + ([Group(Digit)] + ([Ws] + ([Lit(")")] + []))))))))
  {
  }

  lemma FanRenderChain(ds: string)
    ensures Render([Lit("fan.start(")] + ([Ws] + ([Lit("speed")] + ([Ws] + ([Lit("=")] + ([Ws] + ([Group(Digit)] + ([Ws] + ([Lit(")")] + [])))))))), [ds]) == "fan.start(" + ("speed" + ("=" + (ds + ")")))
  {
    var q9: seq<Tok> := [];
    var r9 := Render(q9, []);
    assert r9 == "";
    var q8 := [Lit(")")] + q9;
    RenderLit(")", q9, []);
    var r8 := Render(q8, []);
    var q7 := [Ws] + q8;
    RenderMany(Space, q8, []);
    var r7 := Render(q7, []);
    var q6 := [Group(Digit)] + q7;
    RenderGroup(Digit, q7, ds, []);
    assert [ds] + [] == [ds];
    var r6 := Render(q6, [ds]);
    var q5 := [Ws] + q6;
    RenderMany(Space, q6, [ds]);
    var r5 := Render(q5, [ds]);
    var q4 := [Lit("=")] + q5;
    RenderLit("=", q5, [ds]);
    var r4 := Render(q4, [ds]);
    var q3 := [Ws] + q4;
    RenderMany(Space, q4, [ds]);
    var r3 := Render(q3, [ds]);
    var q2 := [Lit("speed")] + q3;
    RenderLit("speed", q3, [ds]);
    var r2 := Render(q2, [ds]);
    var q1 := [Ws] + q2;
    RenderMany(Space, q2, [ds]);
    var r1 := Render(q1, [ds]);
    var q0 := [Lit("fan.start(")] + q1;
    RenderLit("fan.start(", q1, [ds]);
    var r0 := Render(q0, [ds]);
  }

  lemma FanCommandText(ds: string)
    ensures "fan.start(" + ("speed" + ("=" + (ds + ")"))) == FanCommand(ds)
  {
  }

  lemma FanCommandRenders(ds: string)
    ensures Render(FanPattern, [ds]) == FanCommand(ds)
  {
    FanPatternCons();
    FanRenderChain(ds);
    FanCommandText(ds);
  }

  /** `ram.store("T")`, written without optional whitespace. */
  function RamLogCommand(t: string): string {
    "ram.store(\"" + t + "\")"
  }

  lemma RamLogPatternCons()
    ensures RamLogPattern == [Lit("ram.store(")] + ([Ws] + ([Lit("\"")] + ([Group(NonQuote)] + ([Lit("\"")] + ([Ws] + ([Lit(")")] + []))))))
  {
  }

  /** The canonical text of a one-argument quoted command `prefix"T")`, built token by token. */
  lemma QuotedRenderChain(prefix: string, t: string)
    ensures Render([Lit(prefix)] + ([Ws] + ([Lit("\"")] + ([Group(NonQuote)] + ([Lit("\"")] + ([Ws] + ([Lit(")")] + [])))))), [t]) == prefix + ("\"" + (t + ("\"" + ")")))
  {
    var q7: seq<Tok> := [];
    var r7 := Render(q7, []);
    assert r7 == "";
    var q6 := [Lit(")")] + q7;
    RenderLit(")", q7, []);
    var r6 := Render(q6, []);
    var q5 := [Ws] + q6;
    RenderMany(Space, q6, []);
    var r5 := Render(q5, []);
    var q4 := [Lit("\"")] + q5;
    RenderLit("\"", q5, []);
    var r4 := Render(q4, []);
    var q3 := [Group(NonQuote)] + q4;
    RenderGroup(NonQuote, q4, t, []);
    assert [t] + [] == [t];
    var r3 := Render(q3, [t]);
    var q2 := [Lit("\"")] + q3;
    RenderLit("\"", q3, [t]);
    var r2 := Render(q2, [t]);
    var q1 := [Ws] + q2;
    RenderMany(Space, q2, [t]);
    var r1 := Render(q1, [t]);
    var q0 := [Lit(prefix)] + q1;
    RenderLit(prefix, q1, [t]);
    var r0 := Render(q0, [t]);
  }

  lemma RamLogCommandText(t: string)
    ensures "ram.store(" + ("\"" + (t + ("\"" + ")"))) == RamLogCommand(t)
  {
  }

  lemma RamLogCommandRenders(t: string)
    ensures Render(RamLogPattern, [t]) == RamLogCommand(t)
  {
    RamLogPatternCons();
    QuotedRenderChain("ram.store(", t);
    RamLogCommandText(t);
  }

  /** `ram.store("T", 0xH)`, written without optional whitespace. */
  function RamAtCommand(t: string, h: string): string {
    "ram.store(\"" + t + "\",0x" + h + ")"
  }

  lemma RamAtPatternCons()
    ensures RamAtPattern == [Lit("ram.store(")] + ([Ws] + ([Lit("\"")] + ([Group(NonQuote)] + ([Lit("\"")] + ([Ws] + ([Lit(",")] + ([Ws] + ([Lit("0x")] + ([Group(HexDigit)] + ([Ws] + ([Lit(")")] + [])))))))))))
  {
  }

  lemma RamAtRenderChain(t: string, h: string)
    ensures Render([Lit("ram.store(")] + ([Ws] + ([Lit("\"")] + ([Group(NonQuote)] + ([Lit("\"")] + ([Ws] + ([Lit(",")] + ([Ws] + ([Lit("0x")] + ([Group(HexDigit)] + ([Ws] + ([Lit(")")] + []))))))))))), [t, h]) == "ram.store(" + ("\"" + (t + ("\"" + ("," + ("0x" + (h + ")"))))))
  {
    var q12: seq<Tok> := [];
    var r12 := Render(q12, []);
    assert r12 == "";
    var q11 := [Lit(")")] + q12;
    RenderLit(")", q12, []);
    var r11 := Render(q11, []);
    var q10 := [Ws] + q11;
    RenderMany(Space, q11, []);
    var r10 := Render(q10, []);
    var q9 := [Group(HexDigit)] + q10;
    RenderGroup(HexDigit, q10, h, []);
    assert [h] + [] == [h];
    var r9 := Render(q9, [h]);
    var q8 := [Lit("0x")] + q9;
    RenderLit("0x", q9, [h]);
    var r8 := Render(q8, [h]);
    var q7 := [Ws] + q8;
    RenderMany(Space, q8, [h]);
    var r7 := Render(q7, [h]);
    var q6 := [Lit(",")] + q7;
    RenderLit(",", q7, [h]);
    var r6 := Render(q6, [h]);
    var q5 := [Ws] + q6;
    RenderMany(Space, q6, [h]);
    var r5 := Render(q5, [h]);
    var q4 := [Lit("\"")] + q5;
    RenderLit("\"", q5, [h]);
    var r4 := Render(q4, [h]);
    var q3 := [Group(NonQuote)] + q4;
    RenderGroup(NonQuote, q4, t, [h]);
    assert [t] + [h] == [t, h];
    var r3 := Render(q3, [t, h]);
    var q2 := [Lit("\"")] + q3;
    RenderLit("\"", q3, [t, h]);
    var r2 := Render(q2, [t, h]);
    var q1 := [Ws] + q2;
    RenderMany(Space, q2, [t, h]);
    var r1 := Render(q1, [t, h]);
    var q0 := [Lit("ram.store(")] + q1;
    RenderLit("ram.store(", q1, [t, h]);
    var r0 := Render(q0, [t, h]);
  }

  lemma RamAtCommandText(t: string, h: string)
    ensures "ram.store(" + ("\"" + (t + ("\"" + ("," + ("0x" + (h + ")")))))) == RamAtCommand(t, h)
  {
  }

  lemma RamAtCommandRenders(t: string, h: string)
    ensures Render(RamAtPattern, [t, h]) == RamAtCommand(t, h)
  {
    RamAtPatternCons();
    RamAtRenderChain(t, h);
    RamAtCommandText(t, h);
  }

  /** `cpu.execute("OP", cycles=N)` with the digits `ds`, written without optional whitespace. */
  function CpuCommand(op: string, ds: string): string {
    "cpu.execute(\"" + op + "\",cycles=" + ds + ")"
  }

  lemma CpuPatternCons()
    ensures CpuPattern == [Lit("cpu.execute(")] + ([Ws] + ([Lit("\"")] + ([Group(NonQuote)] + ([Lit("\"")] + ([Ws] + ([Lit(",")] + ([Ws] + ([Lit("cycles")] + ([Ws] + ([Lit("=")] + ([Ws] + ([Group(Digit)] + ([Ws] + ([Lit(")")] + []))))))))))))))
  {
  }

  lemma CpuRenderChain(op: string, ds: string)
    ensures Render([Lit("cpu.execute(")] + ([Ws] + ([Lit("\"")] + ([Group(NonQuote)] + ([Lit("\"")] + ([Ws] + ([Lit(",")] + ([Ws] + ([Lit("cycles")] + ([Ws] + ([Lit("=")] + ([Ws] + ([Group(Digit)] + ([Ws] + ([Lit(")")] + [])))))))))))))), [op, ds]) == "cpu.execute(" + ("\"" + (op + ("\"" + ("," + ("cycles" + ("=" + (ds + ")")))))))
  {
    var q15: seq<Tok> := [];
    var r15 := Render(q15, []);
    assert r15 == "";
    var q14 := [Lit(")")] + q15;
    RenderLit(")", q15, []);
    var r14 := Render(q14, []);
    var q13 := [Ws] + q14;
    RenderMany(Space, q14, []);
    var r13 := Render(q13, []);
    var q12 := [Group(Digit)] + q13;
    RenderGroup(Digit, q13, ds, []);
    assert [ds] + [] == [ds];
    var r12 := Render(q12, [ds]);
    var q11 := [Ws] + q12;
    RenderMany(Space, q12, [ds]);
    var r11 := Render(q11, [ds]);
    var q10 := [Lit("=")] + q11;
    RenderLit("=", q11, [ds]);
    var r10 := Render(q10, [ds]);
    var q9 := [Ws] + q10;
    RenderMany(Space, q10, [ds]);
    var r9 := Render(q9, [ds]);
    var q8 := [Lit("cycles")] + q9;
    RenderLit("cycles", q9, [ds]);
    var r8 := Render(q8, [ds]);
    var q7 := [Ws] + q8;
    RenderMany(Space, q8, [ds]);
    var r7 := Render(q7, [ds]);
    var q6 := [Lit(",")] + q7;
    RenderLit(",", q7, [ds]);
    var r6 := Render(q6, [ds]);
    var q5 := [Ws] + q6;
    RenderMany(Space, q6, [ds]);
    var r5 := Render(q5, [ds]);
    var q4 := [Lit("\"")] + q5;
    RenderLit("\"", q5, [ds]);
    var r4 := Render(q4, [ds]);
    var q3 := [Group(NonQuote)] + q4;
    RenderGroup(NonQuote, q4, op, [ds]);
    assert [op] + [ds] == [op, ds];
    var r3 := Render(q3, [op, ds]);
    var q2 := [Lit("\"")] + q3;
    RenderLit("\"", q3, [op, ds]);
    var r2 := Render(q2, [op, ds]);
    var q1 := [Ws] + q2;
    RenderMany(Space, q2, [op, ds]);
    var r1 := Render(q1, [op, ds]);
    var q0 := [Lit("cpu.execute(")] + q1;
    RenderLit("cpu.execute(", q1, [op, ds]);
    var r0 := Render(q0, [op, ds]);
  }

  lemma CpuCommandText(op: string, ds: string)
    ensures "cpu.execute(" + ("\"" + (op + ("\"" + ("," + ("cycles" + ("=" + (ds + ")"))))))) == CpuCommand(op, ds)
  {
  }

  lemma CpuCommandRenders(op: string, ds: string)
    ensures Render(CpuPattern, [op, ds]) == CpuCommand(op, ds)
  {
    CpuPatternCons();
    CpuRenderChain(op, ds);
    CpuCommandText(op, ds);
  }

  /** `storage.write("NAME", N)` with the digits `ds`, written without optional whitespace. */
  function WriteCommand(name: string, ds: string): string {
    "storage.write(\"" + name + "\"," + ds + ")"
  }

  lemma WritePatternCons()
    ensures WritePattern == [Lit("storage.write(")] + ([Ws] + ([Lit("\"")] + ([Group(NonQuote)] + ([Lit("\"")] + ([Ws] + ([Lit(",")] + ([Ws] + ([Group(Digit)] + ([Ws] + ([Lit(")")] + []))))))))))
  {
  }

  lemma WriteRenderChain(name: string, ds: string)
    ensures Render([Lit("storage.write(")] + ([Ws] + ([Lit("\"")] + ([Group(NonQuote)] + ([Lit("\"")] + ([Ws] + ([Lit(",")] + ([Ws] + ([Group(Digit)] + ([Ws] + ([Lit(")")] + [])))))))))), [name, ds]) == "storage.write(" + ("\"" + (name + ("\"" + ("," + (ds + ")")))))
  {
    var q11: seq<Tok> := [];
    var r11 := Render(q11, []);
    assert r11 == "";
    var q10 := [Lit(")")] + q11;
    RenderLit(")", q11, []);
    var r10 := Render(q10, []);
    var q9 := [Ws] + q10;
    RenderMany(Space, q10, []);
    var r9 := Render(q9, []);
    var q8 := [Group(Digit)] + q9;
    RenderGroup(Digit, q9, ds, []);
    assert [ds] + [] == [ds];
    var r8 := Render(q8, [ds]);
    var q7 := [Ws] + q8;
    RenderMany(Space, q8, [ds]);
    var r7 := Render(q7, [ds]);
    var q6 := [Lit(",")] + q7;
    RenderLit(",", q7, [ds]);
    var r6 := Render(q6, [ds]);
    var q5 := [Ws] + q6;
    RenderMany(Space, q6, [ds]);
    var r5 := Render(q5, [ds]);
    var q4 := [Lit("\"")] + q5;
    RenderLit("\"", q5, [ds]);
    var r4 := Render(q4, [ds]);
    var q3 := [Group(NonQuote)] + q4;
    RenderGroup(NonQuote, q4, name, [ds]);
    assert [name] + [ds] == [name, ds];
    var r3 := Render(q3, [name, ds]);
    var q2 := [Lit("\"")] + q3;
    RenderLit("\"", q3, [name, ds]);
    var r2 := Render(q2, [name, ds]);
    var q1 := [Ws] + q2;
    RenderMany(Space, q2, [name, ds]);
    var r1 := Render(q1, [name, ds]);
    var q0 := [Lit("storage.write(")] + q1;
    RenderLit("storage.write(", q1, [name, ds]);
    var r0 := Render(q0, [name, ds]);
  }

  lemma WriteCommandText(name: string, ds: string)
    ensures "storage.write(" + ("\"" + (name + ("\"" + ("," + (ds + ")"))))) == WriteCommand(name, ds)
  {
  }

  lemma WriteCommandRenders(name: string, ds: string)
    ensures Render(WritePattern, [name, ds]) == WriteCommand(name, ds)
  {
    WritePatternCons();
    WriteRenderChain(name, ds);
    WriteCommandText(name, ds);
  }

  /** `screen.display("T")`, written without optional whitespace. */
  function DisplayCommand(t: string): string {
    "screen.display(\"" + t + "\")"
  }

  lemma DisplayPatternCons()
    ensures DisplayPattern == [Lit("screen.display(")] + ([Ws] + ([Lit("\"")] + ([Group(NonQuote)] + ([Lit("\"")] + ([Ws] + ([Lit(")")] + []))))))
  {
  }

  lemma DisplayCommandText(t: string)
    ensures "screen.display(" + ("\"" + (t + ("\"" + ")"))) == DisplayCommand(t)
  {
  }

  lemma DisplayCommandRenders(t: string)
    ensures Render(DisplayPattern, [t]) == DisplayCommand(t)
  {
    DisplayPatternCons();
    QuotedRenderChain("screen.display(", t);
    DisplayCommandText(t);
  }

  /** One non-empty capture inside its group's class fits a one-group pattern. */
  lemma FitsOne(p: seq<Tok>, a: string, ka: CharClass)
    requires GroupClasses(p) == [ka] && |a| > 0
    requires forall m :: 0 <= m < |a| ==> InClass(a[m], ka)
    ensures CapsFit(p, [a])
  {
  }

  /** Two non-empty captures, each inside its group's class, fit a two-group pattern. */
  lemma FitsTwo(p: seq<Tok>, a: string, b: string, ka: CharClass, kb: CharClass)
    requires GroupClasses(p) == [ka, kb] && |a| > 0 && |b| > 0
    requires forall m :: 0 <= m < |a| ==> InClass(a[m], ka)
    requires forall m :: 0 <= m < |b| ==> InClass(b[m], kb)
    ensures CapsFit(p, [a, b])
  {
  }

  /**
   * The canonical fan command with the digits `ds` is read back as their
   * value; in particular the numeral of `n` is read back as `n`.
   */
  lemma FanRoundTrip(ds: string)
    requires |ds| > 0 && AllDigits(ds)
    ensures FanSpeed(FanCommand(ds)) == Some(DigitsValue(ds))
  {
    FanCommandRenders(ds);
    FanPatternShape();
    FitsOne(FanPattern, ds, Digit);
    RenderCaptures(FanPattern, [ds]);
  }

  /** The canonical log-style memory command is read back as its text, for any text the group admits. */
  lemma RamLogRoundTrip(t: string)
    requires |t| > 0 && '"' !in t
    ensures RamLogText(RamLogCommand(t)) == Some(t)
  {
    RamLogCommandRenders(t);
    RamLogPatternShape();
    FitsOne(RamLogPattern, t, NonQuote);
    RenderCaptures(RamLogPattern, [t]);
  }

  /** The canonical address-keyed memory command is read back as its text and hex digits. */
  lemma RamAtRoundTrip(t: string, h: string)
    requires |t| > 0 && '"' !in t
    requires |h| > 0 && forall i :: 0 <= i < |h| ==> IsHexDigit(h[i])
    ensures RamAtArgs(RamAtCommand(t, h)) == Some(StoreArgs(t, h))
  {
    RamAtCommandRenders(t, h);
    RamAtPatternShape();
    FitsTwo(RamAtPattern, t, h, NonQuote, HexDigit);
    RenderCaptures(RamAtPattern, [t, h]);
  }

  /** The canonical processor command is read back as its operation and the value of its cycle digits. */
  lemma CpuRoundTrip(op: string, ds: string)
    requires |op| > 0 && '"' !in op
    requires |ds| > 0 && AllDigits(ds)
    ensures CpuArgs(CpuCommand(op, ds)) == Some(ExecArgs(op, DigitsValue(ds)))
  {
    CpuCommandRenders(op, ds);
    CpuPatternShape();
    FitsTwo(CpuPattern, op, ds, NonQuote, Digit);
    RenderCaptures(CpuPattern, [op, ds]);
    CpuArgsOfCaptures(CpuCommand(op, ds), op, ds);
  }

  lemma CpuArgsOfCaptures(c: string, op: string, ds: string)
    requires Separated(CpuPattern) && Captures(c, CpuPattern) == Some([op, ds]) && AllDigits(ds)
    ensures CpuArgs(c) == Some(ExecArgs(op, DigitsValue(ds)))
  {
  }

  /** The canonical storage command is read back as its file name and the value of its size digits. */
  lemma StorageRoundTrip(name: string, ds: string)
    requires |name| > 0 && '"' !in name
    requires |ds| > 0 && AllDigits(ds)
    ensures StorageArgs(WriteCommand(name, ds)) == Some(WriteArgs(name, DigitsValue(ds)))
  {
    WriteCommandRenders(name, ds);
    WritePatternShape();
    FitsTwo(WritePattern, name, ds, NonQuote, Digit);
    RenderCaptures(WritePattern, [name, ds]);
    StorageArgsOfCaptures(WriteCommand(name, ds), name, ds);
  }

  lemma StorageArgsOfCaptures(c: string, name: string, ds: string)
    requires Separated(WritePattern) && Captures(c, WritePattern) == Some([name, ds]) && AllDigits(ds)
    ensures StorageArgs(c) == Some(WriteArgs(name, DigitsValue(ds)))
  {
  }

  /** The canonical display command is read back as its text. */
  lemma DisplayRoundTrip(t: string)
    requires |t| > 0 && '"' !in t
    ensures DisplayText(DisplayCommand(t)) == Some(t)
  {
    DisplayCommandRenders(t);
    DisplayPatternShape();
    FitsOne(DisplayPattern, t, NonQuote);
    RenderCaptures(DisplayPattern, [t]);
  }
}
