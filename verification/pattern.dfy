/**
 * The regular expressions the task checks use are all of one shape: literal
 * tokens, `\s*`, and captured runs `(\d+)`, `([0-9A-Fa-f]+)`, `([^"]+)`, with no
 * anchors. This module matches such a pattern by greedy scanning, relates the
 * result to the backtracking semantics of a JavaScript regular expression, and
 * implements the leftmost search that `String.prototype.match` performs.
 */
module Pattern {
  import opened Wrappers
  import opened Text

  datatype CharClass = Space | Digit | HexDigit | NonQuote

  predicate InClass(c: char, k: CharClass) {
    match k
    case Space => IsWs(c)
    case Digit => IsDigit(c)
    case HexDigit => IsHexDigit(c)
    case NonQuote => c != '"'
  }

  /** One token: a literal, an uncaptured `k*`, or a captured `(k+)`. */
  datatype Tok = Lit(text: string) | Many(k: CharClass) | Group(k: CharClass)

  /** A match at some start: where it ends and the text of each capture group, in order. */
  datatype Match = Match(end: nat, caps: seq<string>)

  /** A match found by the leftmost search: where it starts, and the match. */
  datatype Found = Found(start: nat, m: Match)

  ghost predicate AllIn(s: string, i: nat, j: nat, k: CharClass)
    requires i <= j <= |s|
  {
    forall n :: i <= n < j ==> InClass(s[n], k)
  }

  /** The classes of the capture groups of `p`, in order. */
  function GroupClasses(p: seq<Tok>): seq<CharClass>
    decreases |p|
  {
    if p == [] then []
    else if p[0].Group? then [p[0].k] + GroupClasses(p[1..])
    else GroupClasses(p[1..])
  }

  /** Captured strings fitting the groups of `p`: one non-empty string per group, inside its class. */
  ghost predicate CapsFit(p: seq<Tok>, caps: seq<string>) {
    var g := GroupClasses(p);
    && |caps| == |g|
    && forall n :: 0 <= n < |caps| ==> |caps[n]| > 0 && forall m :: 0 <= m < |caps[n]| ==> InClass(caps[n][m], g[n])
  }

  /** End of the longest run of class `k` starting at `i`. */
  function Scan(s: string, i: nat, k: CharClass): (j: nat)
    requires i <= |s|
    ensures i <= j <= |s|
    ensures forall n :: i <= n < j ==> InClass(s[n], k)
    ensures j == |s| || !InClass(s[j], k)
    decreases |s| - i
  {
    if i < |s| && InClass(s[i], k) then Scan(s, i + 1, k) else i
  }

  /**
   * Greedy match of `p` at position `i` of `s`: each `k*` and `(k+)` takes the
   * longest run available.
   */
  function MatchAt(s: string, i: nat, p: seq<Tok>): (r: Option<Match>)
    requires i <= |s|
    ensures r.Some? ==> i <= r.value.end <= |s| && CapsFit(p, r.value.caps)
    decreases |p|
  {
    if p == [] then Some(Match(i, []))
    else match p[0]
      case Lit(t) =>
        if i + |t| <= |s| && s[i..i + |t|] == t then MatchAt(s, i + |t|, p[1..]) else None
      case Many(k) =>
        MatchAt(s, Scan(s, i, k), p[1..])
      case Group(k) =>
        var j := Scan(s, i, k);
        if j == i then None
        else match MatchAt(s, j, p[1..])
          case None => None
          case Some(m) =>
            var caps := [s[i..j]] + m.caps;
            assert caps[1..] == m.caps;
            Some(Match(m.end, caps))
  }

  /**
   * The backtracking semantics of the pattern: `m` is one of the ways `p`
   * can match at `i`, with `k*` and `(k+)` free to take any run length.
   */
  ghost predicate Matches(s: string, i: nat, p: seq<Tok>, m: Match)
    decreases |p|
  {
    && i <= |s|
    && if p == [] then m == Match(i, [])
       else match p[0]
         case Lit(t) =>
           i + |t| <= |s| && s[i..i + |t|] == t && Matches(s, i + |t|, p[1..], m)
         case Many(k) =>
           exists j: nat :: i <= j <= |s| && AllIn(s, i, j, k) && Matches(s, j, p[1..], m)
         case Group(k) =>
           && |m.caps| > 0
           && exists j: nat :: i < j <= |s| && AllIn(s, i, j, k) && m.caps[0] == s[i..j]
                             && Matches(s, j, p[1..], Match(m.end, m.caps[1..]))
  }

  /** `p` can match the empty string. */
  predicate Nullable(p: seq<Tok>)
    decreases |p|
  {
    p == [] ||
    match p[0]
    case Lit(t) => t == [] && Nullable(p[1..])
    case Many(_) => Nullable(p[1..])
    case Group(_) => false
  }

  /** `c` can be the first character of a match of `p`. */
  ghost predicate CanStart(p: seq<Tok>, c: char)
    decreases |p|
  {
    p != [] &&
    match p[0]
    case Lit(t) => if t == [] then CanStart(p[1..], c) else c == t[0]
    case Many(k) => InClass(c, k) || CanStart(p[1..], c)
    case Group(k) => InClass(c, k)
  }

  /**
   * Every run is followed by something that must start outside the run's
   * class. For such a pattern, the run lengths of a match are forced.
   */
  ghost predicate Separated(p: seq<Tok>)
    decreases |p|
  {
    p == [] ||
    ((match p[0]
      case Lit(_) => true
      case Many(k) => !Nullable(p[1..]) && forall c :: InClass(c, k) ==> !CanStart(p[1..], c)
      case Group(k) => !Nullable(p[1..]) && forall c :: InClass(c, k) ==> !CanStart(p[1..], c))
     && Separated(p[1..]))
  }

  /** The greedy match is one of the backtracking matches. */
  lemma {:induction false} MatchAtSound(s: string, i: nat, p: seq<Tok>)
    requires i <= |s| && MatchAt(s, i, p).Some?
    ensures Matches(s, i, p, MatchAt(s, i, p).value)
    decreases |p|
  {
    var m := MatchAt(s, i, p).value;
    if p != [] {
      match p[0]
      case Lit(t) =>
        MatchAtSound(s, i + |t|, p[1..]);
      case Many(k) =>
        var j := Scan(s, i, k);
        MatchAtSound(s, j, p[1..]);
        assert AllIn(s, i, j, k);
      case Group(k) =>
        var j := Scan(s, i, k);
        MatchAtSound(s, j, p[1..]);
        assert AllIn(s, i, j, k);
        assert Match(m.end, m.caps[1..]) == MatchAt(s, j, p[1..]).value;
    }
  }

  /** A match of a pattern that cannot match the empty string starts with a character it can start with. */
  lemma {:induction false} FirstChar(s: string, i: nat, p: seq<Tok>, m: Match)
    requires Matches(s, i, p, m) && !Nullable(p)
    ensures i < |s| && CanStart(p, s[i])
    decreases |p|
  {
    match p[0]
    case Lit(t) =>
      if t == [] {
        FirstChar(s, i, p[1..], m);
      }
    case Many(k) =>
      var j: nat :| i <= j <= |s| && AllIn(s, i, j, k) && Matches(s, j, p[1..], m);
      if j == i {
        FirstChar(s, i, p[1..], m);
      }
    case Group(k) =>
  }

  /** In a separated pattern, a run of class `k` matched from `i` must be the longest one. */
  lemma RunIsLongest(s: string, i: nat, j: nat, k: CharClass, rest: seq<Tok>, m: Match)
    requires i <= j <= |s| && AllIn(s, i, j, k) && Matches(s, j, rest, m)
    requires !Nullable(rest) && forall c :: InClass(c, k) ==> !CanStart(rest, c)
    ensures j == Scan(s, i, k)
  {
    if j < Scan(s, i, k) {
      FirstChar(s, j, rest, m);
    }
  }

  /** For a separated pattern, every backtracking match is the greedy one, so there is at most one. */
  lemma {:induction false} MatchesIsGreedy(s: string, i: nat, p: seq<Tok>, m: Match)
    requires Separated(p) && Matches(s, i, p, m)
    ensures MatchAt(s, i, p) == Some(m)
    decreases |p|, 1
  {
    if p != [] {
      match p[0]
      case Lit(t) =>
        LitIsGreedy(s, i, p, m);
      case Many(k) =>
        ManyIsGreedy(s, i, p, m);
      case Group(k) =>
        GroupIsGreedy(s, i, p, m);
    }
  }

  lemma {:induction false} LitIsGreedy(s: string, i: nat, p: seq<Tok>, m: Match)
    requires p != [] && p[0].Lit? && Separated(p) && Matches(s, i, p, m)
    ensures MatchAt(s, i, p) == Some(m)
    decreases |p|, 0
  {
    var t := p[0].text;
    MatchesLit(s, i, p, m);
    SeparatedTail(p);
    MatchesIsGreedy(s, i + |t|, p[1..], m);
    LitStep(s, i, p);
  }

  lemma MatchesLit(s: string, i: nat, p: seq<Tok>, m: Match)
    requires p != [] && p[0].Lit? && Matches(s, i, p, m)
    ensures i + |p[0].text| <= |s| && s[i..i + |p[0].text|] == p[0].text && Matches(s, i + |p[0].text|, p[1..], m)
  {
  }

  lemma SeparatedTail(p: seq<Tok>)
    requires p != [] && Separated(p)
    ensures Separated(p[1..])
  {
  }

  /** Greedy matching steps over a literal that is present. */
  lemma LitStep(s: string, i: nat, p: seq<Tok>)
    requires p != [] && p[0].Lit? && i + |p[0].text| <= |s| && s[i..i + |p[0].text|] == p[0].text
    ensures MatchAt(s, i, p) == MatchAt(s, i + |p[0].text|, p[1..])
  {
  }

  /** Greedy matching takes a non-empty run into a group and prepends it to the captures of the rest. */
  lemma GroupStep(s: string, i: nat, j: nat, p: seq<Tok>, e: nat, caps: seq<string>)
    requires p != [] && p[0].Group? && i < j <= |s| && Scan(s, i, p[0].k) == j
    requires caps != [] && s[i..j] == caps[0] && MatchAt(s, j, p[1..]) == Some(Match(e, caps[1..]))
    ensures MatchAt(s, i, p) == Some(Match(e, caps))
  {
    assert [caps[0]] + caps[1..] == caps;
  }

  lemma {:induction false} ManyIsGreedy(s: string, i: nat, p: seq<Tok>, m: Match)
    requires p != [] && p[0].Many? && Separated(p) && Matches(s, i, p, m)
    ensures MatchAt(s, i, p) == Some(m)
    decreases |p|, 0
  {
    var k := p[0].k;
    var j: nat :| i <= j <= |s| && AllIn(s, i, j, k) && Matches(s, j, p[1..], m);
    RunIsLongest(s, i, j, k, p[1..], m);
    MatchesIsGreedy(s, j, p[1..], m);
  }

  lemma {:induction false} GroupIsGreedy(s: string, i: nat, p: seq<Tok>, m: Match)
    requires p != [] && p[0].Group? && Separated(p) && Matches(s, i, p, m)
    ensures MatchAt(s, i, p) == Some(m)
    decreases |p|, 0
  {
    var k := p[0].k;
    var tail := Match(m.end, m.caps[1..]);
    var j: nat :| i < j <= |s| && AllIn(s, i, j, k) && m.caps[0] == s[i..j] && Matches(s, j, p[1..], tail);
    RunIsLongest(s, i, j, k, p[1..], tail);
    MatchesIsGreedy(s, j, p[1..], tail);
    assert [s[i..j]] + m.caps[1..] == m.caps;
  }

  /** The match a separated pattern makes at a position does not depend on the order alternatives are tried in. */
  lemma MatchUnique(s: string, i: nat, p: seq<Tok>, m1: Match, m2: Match)
    requires Separated(p) && Matches(s, i, p, m1) && Matches(s, i, p, m2)
    ensures m1 == m2
  {
    MatchesIsGreedy(s, i, p, m1);
    MatchesIsGreedy(s, i, p, m2);
  }

  /**
   * Leftmost search from `from`, as `String.prototype.match` without the `g`
   * flag: the first start position (up to and including `|s|`) where the
   * pattern matches.
   */
  function Search(s: string, from: nat, p: seq<Tok>): (r: Option<Found>)
    requires from <= |s|
    ensures r.Some? ==> from <= r.value.start <= |s| && MatchAt(s, r.value.start, p) == Some(r.value.m)
    ensures r.Some? ==> forall q :: from <= q < r.value.start ==> MatchAt(s, q, p).None?
    ensures r.None? ==> forall q :: from <= q <= |s| ==> MatchAt(s, q, p).None?
    decreases |s| - from
  {
    match MatchAt(s, from, p)
    case Some(m) => Some(Found(from, m))
    case None => if from == |s| then None else Search(s, from + 1, p)
  }

  /**
   * What JavaScript's `s.match(p)` returns: a match at the leftmost start
   * position where `p` matches at all.
   */
  ghost predicate JsMatch(s: string, p: seq<Tok>, f: Found) {
    && Matches(s, f.start, p, f.m)
    && forall q: nat, m: Match :: q < f.start ==> !Matches(s, q, p, m)
  }

  /** For a separated pattern, the leftmost greedy search finds exactly what JavaScript finds, and fails exactly when JavaScript does. */
  lemma SearchIsJsMatch(s: string, p: seq<Tok>)
    requires Separated(p)
    ensures forall f :: Search(s, 0, p) == Some(f) <==> JsMatch(s, p, f)
    ensures Search(s, 0, p).None? <==> forall q: nat, m: Match :: !Matches(s, q, p, m)
  {
    var r := Search(s, 0, p);
    forall q: nat, m: Match | Matches(s, q, p, m)
      ensures r.Some? && r.value.start <= q
    {
      MatchesIsGreedy(s, q, p, m);
    }
    if r.Some? {
      MatchAtSound(s, r.value.start, p);
      assert Matches(s, r.value.start, p, r.value.m);
      forall f | JsMatch(s, p, f) ensures f == r.value {
        MatchesIsGreedy(s, f.start, p, f.m);
      }
    }
  }

  /** JavaScript's `s.match(p)` succeeds with capture groups `caps`. */
  ghost predicate ShapeFound(s: string, p: seq<Tok>, caps: seq<string>) {
    exists f :: JsMatch(s, p, f) && f.m.caps == caps
  }

  /**
   * The capture groups of `s.match(p)`, or None when it returns null. Each
   * capture is a non-empty string inside its group's class.
   */
  function Captures(s: string, p: seq<Tok>): (r: Option<seq<string>>)
    requires Separated(p)
    ensures r.Some? ==> CapsFit(p, r.value)
    ensures forall caps :: r == Some(caps) <==> ShapeFound(s, p, caps)
    ensures r.None? <==> forall q: nat, m: Match :: !Matches(s, q, p, m)
  {
    SearchIsJsMatch(s, p);
    match Search(s, 0, p)
    case Some(f) => Some(f.m.caps)
    case None => None
  }

  /**
   * The canonical text of a pattern: each literal as written, each `k*`
   * empty, each group replaced by its capture.
   */
  function Render(p: seq<Tok>, caps: seq<string>): string
    decreases |p|
  {
    if p == [] then ""
    else match p[0]
      case Lit(t) => t + Render(p[1..], caps)
      case Many(_) => Render(p[1..], caps)
      case Group(_) =>
        if caps == [] then Render(p[1..], caps) else caps[0] + Render(p[1..], caps[1..])
  }

  /** Rendering a literal token writes the literal, then renders the rest. */
  lemma RenderLit(t: string, rest: seq<Tok>, caps: seq<string>)
    ensures Render([Lit(t)] + rest, caps) == t + Render(rest, caps)
  {
    assert ([Lit(t)] + rest)[1..] == rest;
  }

  /** Rendering an uncaptured run writes nothing for it. */
  lemma RenderMany(k: CharClass, rest: seq<Tok>, caps: seq<string>)
    ensures Render([Many(k)] + rest, caps) == Render(rest, caps)
  {
    assert ([Many(k)] + rest)[1..] == rest;
  }

  /** Rendering a group writes its capture, then renders the rest with the remaining captures. */
  lemma RenderGroup(k: CharClass, rest: seq<Tok>, c: string, caps: seq<string>)
    ensures Render([Group(k)] + rest, [c] + caps) == c + Render(rest, caps)
  {
    assert ([Group(k)] + rest)[1..] == rest;
    assert ([c] + caps)[1..] == caps;
  }

  /** The canonical text of a pattern that cannot match the empty string starts with a character it can start with. */
  lemma {:induction false} RenderStarts(p: seq<Tok>, caps: seq<string>)
    requires !Nullable(p) && CapsFit(p, caps)
    ensures |Render(p, caps)| > 0 && CanStart(p, Render(p, caps)[0])
    decreases |p|
  {
    match p[0]
    case Lit(t) =>
      if t == [] {
        RenderStarts(p[1..], caps);
      }
    case Many(k) =>
      RenderStarts(p[1..], caps);
    case Group(k) =>
      assert caps[0][0] == Render(p, caps)[0];
  }

  /** A run that stops where the class stops is the one `Scan` finds. */
  lemma ScanStops(s: string, i: nat, j: nat, k: CharClass)
    requires i <= j <= |s| && (forall n :: i <= n < j ==> InClass(s[n], k))
    requires j == |s| || !InClass(s[j], k)
    ensures Scan(s, i, k) == j
  {
  }

  /** A suffix that is a concatenation splits into its two parts. */
  lemma SplitSuffix(s: string, i: nat, a: string, b: string)
    requires i <= |s| && s[i..] == a + b
    ensures i + |a| <= |s| && s[i..i + |a|] == a && s[i + |a|..] == b
  {
    assert s[i..][..|a|] == a;
    assert s[i..][|a|..] == b;
  }

  /** Greedy matching of a separated pattern reads back the captures its canonical text was written with. */
  lemma {:induction false} MatchRender(s: string, i: nat, p: seq<Tok>, caps: seq<string>)
    requires Separated(p) && CapsFit(p, caps)
    requires i <= |s| && s[i..] == Render(p, caps)
    ensures MatchAt(s, i, p) == Some(Match(|s|, caps))
    decreases |p|, 1
  {
    if p != [] {
      SeparatedTail(p);
      match p[0]
      case Lit(t) =>
        assert Render(p, caps) == t + Render(p[1..], caps);
        SplitSuffix(s, i, t, Render(p[1..], caps));
        assert GroupClasses(p) == GroupClasses(p[1..]);
        MatchRenderLit(s, i, p, caps);
      case Many(k) =>
        assert Render(p, caps) == Render(p[1..], caps);
        assert GroupClasses(p) == GroupClasses(p[1..]);
        MatchRenderMany(s, i, p, caps);
      case Group(k) =>
        assert Render(p, caps) == caps[0] + Render(p[1..], caps[1..]);
        SplitSuffix(s, i, caps[0], Render(p[1..], caps[1..]));
        assert CapsFit(p[1..], caps[1..]);
        MatchRenderGroup(s, i, p, caps);
    }
  }

  lemma {:induction false} MatchRenderLit(s: string, i: nat, p: seq<Tok>, caps: seq<string>)
    requires p != [] && p[0].Lit? && Separated(p[1..]) && CapsFit(p[1..], caps)
    requires i + |p[0].text| <= |s| && s[i..i + |p[0].text|] == p[0].text
    requires s[i + |p[0].text|..] == Render(p[1..], caps)
    ensures MatchAt(s, i, p) == Some(Match(|s|, caps))
    decreases |p|, 0
  {
    MatchRender(s, i + |p[0].text|, p[1..], caps);
    LitStep(s, i, p);
  }

  lemma {:induction false} MatchRenderMany(s: string, i: nat, p: seq<Tok>, caps: seq<string>)
    requires p != [] && p[0].Many? && Separated(p) && CapsFit(p[1..], caps)
    requires i <= |s| && s[i..] == Render(p[1..], caps)
    ensures MatchAt(s, i, p) == Some(Match(|s|, caps))
    decreases |p|, 0
  {
    var k := p[0].k;
    var rest := p[1..];
    RenderStarts(rest, caps);
    assert s[i] == Render(rest, caps)[0];
    ScanStops(s, i, i, k);
    MatchRender(s, i, rest, caps);
  }

  lemma {:induction false} MatchRenderGroup(s: string, i: nat, p: seq<Tok>, caps: seq<string>)
    requires p != [] && p[0].Group? && Separated(p) && caps != [] && CapsFit(p[1..], caps[1..])
    requires |caps[0]| > 0 && forall m :: 0 <= m < |caps[0]| ==> InClass(caps[0][m], p[0].k)
    requires i + |caps[0]| <= |s| && s[i..i + |caps[0]|] == caps[0]
    requires s[i + |caps[0]|..] == Render(p[1..], caps[1..])
    ensures MatchAt(s, i, p) == Some(Match(|s|, caps))
    decreases |p|, 0
  {
    var j := i + |caps[0]|;
    GroupRun(s, i, p, caps);
    MatchRender(s, j, p[1..], caps[1..]);
    GroupStep(s, i, j, p, |s|, caps);
  }

  /** On the canonical text, the group's run ends exactly where its capture ends. */
  lemma GroupRun(s: string, i: nat, p: seq<Tok>, caps: seq<string>)
    requires p != [] && p[0].Group? && Separated(p) && caps != [] && CapsFit(p[1..], caps[1..])
    requires |caps[0]| > 0 && forall m :: 0 <= m < |caps[0]| ==> InClass(caps[0][m], p[0].k)
    requires i + |caps[0]| <= |s| && s[i..i + |caps[0]|] == caps[0]
    requires s[i + |caps[0]|..] == Render(p[1..], caps[1..])
    ensures Scan(s, i, p[0].k) == i + |caps[0]|
  {
    var k := p[0].k;
    var rest := p[1..];
    var c := caps[0];
    var j := i + |c|;
    forall n | i <= n < j ensures InClass(s[n], k) {
      assert s[n] == c[n - i];
    }
    RenderStarts(rest, caps[1..]);
    assert s[j] == Render(rest, caps[1..])[0];
    ScanStops(s, i, j, k);
  }

  /** `s.match(p)` on the canonical text of `p` captures exactly what the text was written with. */
  lemma RenderCaptures(p: seq<Tok>, caps: seq<string>)
    requires Separated(p) && CapsFit(p, caps)
    ensures Captures(Render(p, caps), p) == Some(caps)
  {
    var s := Render(p, caps);
    MatchRender(s, 0, p, caps);
  }

  /** The characters a match can start with: the first characters of some literals, and whole classes. */
  datatype Starts = Starts(chars: set<char>, classes: set<CharClass>)

  function FirstSet(p: seq<Tok>): Starts
    decreases |p|
  {
    if p == [] then Starts({}, {})
    else match p[0]
      case Lit(t) => if t == [] then FirstSet(p[1..]) else Starts({t[0]}, {})
      case Many(k) => var r := FirstSet(p[1..]); Starts(r.chars, r.classes + {k})
      case Group(k) => Starts({}, {k})
  }

  /** Pairs of classes with no character in common. */
  predicate Disjoint(a: CharClass, b: CharClass) {
    || (a == Space && (b == Digit || b == HexDigit))
    || (b == Space && (a == Digit || a == HexDigit))
  }

  /** No character of class `k` is in `st`. */
  predicate Avoids(k: CharClass, st: Starts) {
    && (forall ch :: ch in st.chars ==> !InClass(ch, k))
    && (forall k2 :: k2 in st.classes ==> Disjoint(k, k2))
  }

  /** A checkable form of `Separated`. */
  predicate SeparatedByFirstSets(p: seq<Tok>)
    decreases |p|
  {
    p == [] ||
    ((p[0].Lit? || (!Nullable(p[1..]) && Avoids(p[0].k, FirstSet(p[1..])))) && SeparatedByFirstSets(p[1..]))
  }

  /** `p` passes the separation check, cannot match the empty string, and has the given groups and first set. */
  predicate Shaped(p: seq<Tok>, g: seq<CharClass>, f: Starts) {
    SeparatedByFirstSets(p) && !Nullable(p) && GroupClasses(p) == g && FirstSet(p) == f
  }

  /** A non-empty literal in front of a checked pattern. */
  lemma ShapedLit(t: string, rest: seq<Tok>, g: seq<CharClass>)
    requires |t| > 0 && SeparatedByFirstSets(rest) && GroupClasses(rest) == g
    ensures Shaped([Lit(t)] + rest, g, Starts({t[0]}, {}))
  {
    assert ([Lit(t)] + rest)[1..] == rest;
  }

  /** An uncaptured run in front of a pattern that must start outside its class. */
  lemma ShapedMany(k: CharClass, rest: seq<Tok>, g: seq<CharClass>, f: Starts)
    requires Shaped(rest, g, f) && Avoids(k, f)
    ensures Shaped([Many(k)] + rest, g, Starts(f.chars, f.classes + {k}))
  {
    assert ([Many(k)] + rest)[1..] == rest;
  }

  /** A group in front of a pattern that must start outside its class. */
  lemma ShapedGroup(k: CharClass, rest: seq<Tok>, g: seq<CharClass>, f: Starts)
    requires Shaped(rest, g, f) && Avoids(k, f)
    ensures Shaped([Group(k)] + rest, [k] + g, Starts({}, {k}))
  {
    assert ([Group(k)] + rest)[1..] == rest;
  }

  /** `FirstSet` over-approximates the characters a match can start with. */
  lemma {:induction false} FirstSetCovers(p: seq<Tok>, c: char)
    requires CanStart(p, c)
    ensures c in FirstSet(p).chars || exists k :: k in FirstSet(p).classes && InClass(c, k)
    decreases |p|
  {
    match p[0]
    case Lit(t) =>
      if t == [] { FirstSetCovers(p[1..], c); }
    case Many(k) =>
      if !InClass(c, k) { FirstSetCovers(p[1..], c); }
    case Group(k) =>
  }

  lemma {:induction false} SeparatedByFirstSetsSound(p: seq<Tok>)
    requires SeparatedByFirstSets(p)
    ensures Separated(p)
    decreases |p|
  {
    if p != [] {
      SeparatedByFirstSetsSound(p[1..]);
      if !p[0].Lit? {
        var k := p[0].k;
        forall c | InClass(c, k) ensures !CanStart(p[1..], c) {
          if CanStart(p[1..], c) {
            FirstSetCovers(p[1..], c);
          }
        }
      }
    }
  }
}
