/**
  The managed block in /etc/hosts (internal/adminrpc/host_routing.go): stripping and rebuilding the block
  inside free text. The two markers are parameters, as they are of `stripManagedHostsBlock`.
 */
module HostRouting {
  import opened GoStrings
  import opened Substrings

  const BEGIN_MARKER := "# BEGIN AURORA HOST ROUTING"
  const END_MARKER := "# END AURORA HOST ROUTING"

  /** What the law needs of the pair of markers; the two constants have it. */
  predicate GoodMarkers(b: string, e: string) {
    && b != "" && e != "" && '\n' !in b && '\n' !in e && '\r' !in b && '\r' !in e
    && !Contains(b, e) && !Contains(e, b)
    && HasHash(b) && HasHash(e)
  }

  predicate HasHash(m: string) {
    '#' in m
  }

  function Lines(text: string): string {
    ReplaceAll(text, "\r\n", "\n")
  }

  function StripManagedBlock(content: string, b: string, e: string): string {
    var normalized := Lines(content);
    var begin := Index(normalized, b);
    var end := Index(normalized, e);
    if begin < 0 || end < 0 || end < begin then normalized
    else
      var past := end + |e|;
      var stop := if past < |normalized| && normalized[past] == '\n' then past + 1 else past;
      Trim(normalized[..begin] + normalized[stop..], IsNewline)
  }

  /** The file written for a base text and a block. */
  function Render(base: string, block: string): string {
    if base == "" then block + "\n" else base + "\n\n" + block + "\n"
  }

  function Block(lines: seq<string>, b: string, e: string): string {
    Join([b] + lines + [e], "\n")
  }

  /** The new content of the hosts file. */
  function ApplyBlock(content: string, block: string, b: string, e: string): string {
    Render(TrimRight(StripManagedBlock(content, b, e), IsNewline), block)
  }

  /** No line of the block holds the end marker. */
  predicate CleanLines(lines: seq<string>, e: string) {
    forall i :: 0 <= i < |lines| ==> !Contains(lines[i], e)
  }

  predicate NoMarkers(text: string, b: string, e: string) {
    !Contains(text, b) && !Contains(text, e)
  }

  /** No carriage return stands before a newline or at the end: another sync would take it out. */
  predicate PlainEnds(base: string) {
    !Contains(base + "\n", "\r\n")
  }

  // ---------- a block by itself ----------

  /** The block without its last line. */
  function Front(lines: seq<string>, b: string): string {
    Join([b] + lines, "\n")
  }

  lemma {:induction false} JoinSnoc(lines: seq<string>, last: string)
    requires lines != []
    ensures Join(lines + [last], "\n") == Join(lines, "\n") + ['\n'] + last
  {
    var all := lines + [last];
    if |lines| == 1 {
      assert all[1..] == [last];
    } else {
      assert all[1..] == lines[1..] + [last];
      JoinSnoc(lines[1..], last);
      var rest := Join(lines[1..], "\n");
      assert lines[0] + "\n" + (rest + ['\n'] + last) == lines[0] + "\n" + rest + ['\n'] + last;
    }
  }

  /** A pattern of one line stands in joined lines exactly if it stands in one of them. */
  lemma {:induction false} OccursInJoin(lines: seq<string>, m: string)
    requires lines != [] && m != "" && '\n' !in m
    ensures Occurs(Join(lines, "\n"), m) <==> exists i :: 0 <= i < |lines| && Occurs(lines[i], m)
  {
    hide Occurs;
    if |lines| > 1 {
      var rest := lines[1..];
      OccursInJoin(rest, m);
      OccursBesideCutAnywhere(lines[0], '\n', Join(rest, "\n"), m);
      assert Join(lines, "\n") == lines[0] + ['\n'] + Join(rest, "\n");
      forall i | 0 <= i < |lines|
        ensures i > 0 ==> lines[i] == rest[i - 1]
      {
      }
      if k :| 0 <= k < |rest| && Occurs(rest[k], m) {
        assert lines[k + 1] == rest[k];
      }
    }
  }

  /** The end marker closes the block and does not stand before exactly if no line holds it. */
  lemma {:induction false} FrontIsClean(lines: seq<string>, b: string, e: string)
    requires GoodMarkers(b, e)
    ensures Block(lines, b, e) == Front(lines, b) + ['\n'] + e
    ensures Occurs(Front(lines, b), e) <==> !CleanLines(lines, e)
  {
    hide Index, Join, HasHash;
    var some := [b] + lines;
    JoinSnoc(some, e);
    OccursInJoin(some, e);
    assert forall i :: 0 <= i < |lines| ==> some[i + 1] == lines[i];
  }

  lemma {:induction false} FrontBegins(lines: seq<string>, b: string) returns (rest: string)
    ensures Front(lines, b) == b + rest && (rest == "" || rest[0] == '\n')
  {
    if lines == [] {
      assert [b] + lines == [b];
      rest := "";
    } else {
      assert ([b] + lines)[1..] == lines;
      rest := "\n" + Join(lines, "\n");
    }
  }

  /** The block as it reads once line ends are normalised. */
  lemma {:induction false} BlockShape(lines: seq<string>, b: string, e: string) returns (top: string)
    requires GoodMarkers(b, e)
    ensures var seen := Lines(Block(lines, b, e));
      && seen == top + ['\n'] + e && Index(seen, b) == 0 && (Occurs(top, e) <==> !CleanLines(lines, e))
      && Index(seen, e) == (if Occurs(top, e) then Index(top, e) else |top| + 1)
  {
    hide Index, Join, HasHash, Lines, Occurs, Front, Block, CleanLines;
    FrontIsClean(lines, b, e);
    var rest := FrontBegins(lines, b);
    var front := Front(lines, b);
    var w := front + ['\n'];
    LinesWithoutReturns(e);
    LinesOfBoth(w, e);
    LinesEndInNewline(w);
    var seen := Lines(Block(lines, b, e));
    top := Lines(w)[..|Lines(w)| - 1];
    assert Lines(w) == top + ['\n'];
    LinesKeepMarkers(w, e);
    WithNewline(front, e);
    WithNewline(top, e);
    IndexBesideCut(top, '\n', e, e);
    IndexIsFirst(e, e, 0);
    LinesWithoutReturns(b);
    LinesOfBoth(b, rest + ['\n'] + e);
    assert Block(lines, b, e) == b + (rest + ['\n'] + e);
    assert seen[0..|b|] == b;
    IndexIsFirst(seen, b, 0);
  }

  lemma {:induction false} WithNewline(x: string, m: string)
    requires m != "" && '\n' !in m
    ensures Occurs(x + ['\n'], m) <==> Occurs(x, m)
  {
    OccursBesideCutAnywhere(x, '\n', "", m);
    MissingNothing(m);
    assert x + ['\n'] + "" == x + ['\n'];
  }

  /** Where the markers stand in a rendered file. */
  lemma {:induction false} RenderedIndexes(base: string, block: string, m: string)
    requires m != "" && '\n' !in m && !Occurs(base, m) && Occurs(block, m)
    ensures Index(Render(base, block), m) == (if base == "" then 0 else |base| + 2) + Index(block, m)
  {
    hide Index, Occurs;
    MissingNothing(m);
    var closed := block + ['\n'] + "";
    IndexBesideCut(block, '\n', "", m);
    OccursBesideCutAnywhere(block, '\n', "", m);
    assert closed == block + "\n";
    if base != "" {
      var lower := "" + ['\n'] + closed;
      IndexBesideCut("", '\n', closed, m);
      OccursBesideCutAnywhere("", '\n', closed, m);
      IndexBesideCut(base, '\n', lower, m);
      assert Render(base, block) == base + ['\n'] + lower;
    }
  }

  /** Stripping takes a rendered block out again and leaves the base, trimmed. */
  lemma {:induction false} StripRendered(base: string, lines: seq<string>, b: string, e: string)
    requires GoodMarkers(b, e) && CleanLines(lines, e) && NoMarkers(base, b, e) && PlainEnds(base)
    ensures StripManagedBlock(Render(base, Block(lines, b, e)), b, e) == Trim(base, IsNewline)
  {
    hide Index, Trim, Block, CleanLines, Lines, HasHash, PlainEnds;
    var top := BlockShape(lines, b, e);
    var seen := Lines(Block(lines, b, e));
    var content := Render(base, seen);
    BlockEnds(lines, b, e);
    LinesOfRendered(base, Block(lines, b, e));
    RenderedIndexes(base, seen, b);
    RenderedIndexes(base, seen, e);
    if base == "" {
      assert content[..0] + content[|content|..] == base;
    } else {
      assert content[..|base| + 2] + content[|content|..] == base + "\n\n";
      TrimExtraNewlines(base);
    }
  }

  lemma {:induction false} BlockEnds(lines: seq<string>, b: string, e: string)
    requires GoodMarkers(b, e)
    ensures var block := Block(lines, b, e);
      block != "" && block[|block| - 1] != '\r'
  {
    hide Index, Join, HasHash, Front, Block, CleanLines;
    FrontIsClean(lines, b, e);
    assert e[|e| - 1] in e;
  }

  lemma {:induction false} MissingNothing(m: string)
    requires m != ""
    ensures !Occurs("", m) && Index("", m) == -1
  {
  }

  lemma {:induction false} LinesWithoutReturns(text: string)
    requires '\r' !in text
    ensures Lines(text) == text
  {
    MissingCharNoOccurrence(text, "\r\n", '\r');
    ReplaceAllAbsent(text, "\r\n", "\n");
  }

  lemma {:induction false} LinesStep(w: string)
    ensures var i := Index(w, "\r\n");
      && (i >= 0 ==> i + 2 <= |w| && w == w[..i] + "\r\n" + w[i + 2..])
      && Lines(w) == if i < 0 then w else w[..i] + "\n" + Lines(w[i + 2..])
  {
    var i := Index(w, "\r\n");
    assert i >= 0 ==> w == w[..i] + w[i..i + 2] + w[i + 2..];
  }

  /** A line end is not split where two texts meet. */
  predicate Meets(w: string, z: string) {
    w != "" && z != "" && w[|w| - 1] == '\r' && z[0] == '\n'
  }

  lemma {:induction false} IndexOfBoth(w: string, z: string)
    requires !Meets(w, z)
    ensures Index(w + z, "\r\n") == (if Index(w, "\r\n") >= 0 then Index(w, "\r\n")
                                     else if Index(z, "\r\n") >= 0 then |w| + Index(z, "\r\n") else -1)
  {
    hide Index, OccursAt;
    forall i: nat
      ensures OccursAt(w + z, "\r\n", i) <==> OccursAt(w, "\r\n", i) || (i >= |w| && OccursAt(z, "\r\n", i - |w|))
    {
      LineEndBesideCut(w, z, i);
    }
    IndexOfParts(w, z, "\r\n");
  }

  lemma {:induction false} LineEndBesideCut(w: string, z: string, i: nat)
    requires !Meets(w, z)
    ensures OccursAt(w + z, "\r\n", i) <==> OccursAt(w, "\r\n", i) || (i >= |w| && OccursAt(z, "\r\n", i - |w|))
  {
    if i + 2 <= |w| {
      OccursLeft(w, z, "\r\n", i);
    } else if i >= |w| {
      OccursRight(w, z, "\r\n", i);
    } else if i + 2 <= |w + z| {
      OccursPointwise(w + z, "\r\n", i);
      assert (w + z)[i + 0] == w[|w| - 1] && (w + z)[i + 1] == z[0];
    }
  }

  lemma {:induction false} LinesOfBoth(w: string, z: string)
    requires !Meets(w, z)
    ensures Lines(w + z) == Lines(w) + Lines(z)
    decreases |w|
  {
    hide Index, ReplaceAll, Lines;
    var i := Index(w, "\r\n");
    IndexOfBoth(w, z);
    LinesStep(w);
    LinesStep(w + z);
    if i >= 0 {
      var rest := w[i + 2..];
      MeetsLess(w, z, i);
      LinesOfBoth(rest, z);
      CutFront(w, z, i);
      assert w[..i] + "\n" + (Lines(rest) + Lines(z)) == w[..i] + "\n" + Lines(rest) + Lines(z);
    } else {
      LinesBehind(w, z);
    }
  }

  lemma {:induction false} MeetsLess(w: string, z: string, i: nat)
    requires !Meets(w, z) && i + 2 <= |w|
    ensures !Meets(w[i + 2..], z)
  {
  }

  lemma {:induction false} CutFront(w: string, z: string, i: nat)
    requires i + 2 <= |w|
    ensures (w + z)[..i] == w[..i] && (w + z)[i + 2..] == w[i + 2..] + z
  {
  }

  lemma {:induction false} LinesBehind(w: string, z: string)
    requires Index(w + z, "\r\n") == if Index(z, "\r\n") >= 0 then |w| + Index(z, "\r\n") else -1
    ensures Lines(w + z) == w + Lines(z)
  {
    hide Index, ReplaceAll, Lines;
    LinesStep(z);
    LinesStep(w + z);
    var j := Index(z, "\r\n");
    if j >= 0 {
      CutBehind(w, z, j);
      assert w + z[..j] + "\n" + Lines(z[j + 2..]) == w + (z[..j] + "\n" + Lines(z[j + 2..]));
    }
  }

  lemma {:induction false} CutBehind(w: string, z: string, j: nat)
    requires j + 2 <= |z|
    ensures (w + z)[..|w| + j] == w + z[..j] && (w + z)[|w| + j + 2..] == z[j + 2..]
  {
  }

  lemma {:induction false} LinesEndInNewline(w: string)
    requires w != "" && w[|w| - 1] == '\n'
    ensures Lines(w) != "" && Lines(w)[|Lines(w)| - 1] == '\n'
    decreases |w|
  {
    hide Index, Lines;
    LinesStep(w);
    var i := Index(w, "\r\n");
    if i >= 0 {
      LinesStep("");
      var rest := w[i + 2..];
      if rest != "" {
        LinesEndInNewline(rest);
      } else {
        ShorterNoOccurrence("", "\r\n");
      }
    }
  }

  /** Normalising line ends neither makes nor breaks a marker. */
  lemma {:induction false} LinesKeepMarkers(w: string, m: string)
    requires m != "" && '\n' !in m && '\r' !in m
    ensures Occurs(Lines(w), m) <==> Occurs(w, m)
    decreases |w|
  {
    hide Index, Lines, Occurs;
    LinesStep(w);
    var i := Index(w, "\r\n");
    if i >= 0 {
      var x, rest := w[..i], w[i + 2..];
      LinesKeepMarkers(rest, m);
      MissingNothing(m);
      OccursBesideCutAnywhere(x, '\n', Lines(rest), m);
      OccursBesideCutAnywhere("", '\n', rest, m);
      OccursBesideCutAnywhere(x, '\r', "" + ['\n'] + rest, m);
      assert w == x + ['\r'] + ("" + ['\n'] + rest);
    }
  }

  /** A block behind a base with plain line ends. */
  lemma {:induction false} LinesOfRendered(base: string, block: string)
    requires PlainEnds(base) && block != "" && block[|block| - 1] != '\r'
    ensures Lines(Render(base, block)) == Render(base, Lines(block))
  {
    hide Index, Lines;
    LinesWithoutReturns("\n");
    LinesOfBoth(block, "\n");
    if base != "" {
      var w, z := base + "\n", "\n" + (block + "\n");
      assert Render(base, block) == w + z;
      LinesOfBoth(w, z);
      LinesOfBoth("\n", block + "\n");
      PlainStays(w);
      assert Lines(z) == "\n" + (Lines(block) + "\n");
    }
  }

  lemma {:induction false} PlainStays(w: string)
    requires !Contains(w, "\r\n")
    ensures Lines(w) == w
  {
    hide Index;
    ReplaceAllAbsent(w, "\r\n", "\n");
  }

  lemma {:induction false} TrimExtraNewlines(base: string)
    ensures Trim(base + "\n\n", IsNewline) == Trim(base, IsNewline)
  {
    TrimSame(base, base + "\n\n", 0);
  }

  /** Two texts with the same core between newlines trim to the same text. */
  lemma {:induction false} TrimSame(x: string, y: string, shift: nat)
    requires |x| + shift <= |y| && y[shift..shift + |x|] == x
    requires forall i :: 0 <= i < shift || shift + |x| <= i < |y| ==> y[i] == '\n'
    ensures Trim(y, IsNewline) == Trim(x, IsNewline)
  {
    hide Trim;
    if exists i :: 0 <= i < |x| && x[i] != '\n' {
      var p, q := Core(x);
      TrimByHand(x, IsNewline, p, q - p);
      assert forall i :: 0 <= i < |x| ==> y[shift + i] == x[i];
      forall i | 0 <= i < shift + p || shift + q <= i < |y|
        ensures IsNewline(y[i])
      {
        if shift <= i < shift + |x| {
          assert y[i] == x[i - shift];
        }
      }
      TrimByHand(y, IsNewline, shift + p, q - p);
      assert y[shift + p..shift + q] == x[p..q];
    } else {
      forall i | 0 <= i < |y|
        ensures y[i] == '\n'
      {
        if shift <= i < shift + |x| {
          assert y[i] == x[i - shift];
        }
      }
      TrimNewlines(x);
      TrimNewlines(y);
    }
  }

  lemma {:induction false} TrimNewlines(x: string)
    requires forall i :: 0 <= i < |x| ==> x[i] == '\n'
    ensures Trim(x, IsNewline) == ""
  {
    TrimIsMiddle(x, IsNewline);
  }

  /** Where the text between the outer newlines begins and ends. */
  lemma {:induction false} Core(x: string) returns (p: nat, q: nat)
    requires exists i :: 0 <= i < |x| && x[i] != '\n'
    ensures p < q <= |x| && x[p] != '\n' && x[q - 1] != '\n'
    ensures forall i :: 0 <= i < p || q <= i < |x| ==> x[i] == '\n'
  {
    p, q := 0, |x|;
    while x[p] == '\n'
      invariant p < |x| && (exists i :: p <= i < |x| && x[i] != '\n')
      invariant forall i :: 0 <= i < p ==> x[i] == '\n'
      decreases |x| - p
    {
      p := p + 1;
    }
    while x[q - 1] == '\n'
      invariant p < q <= |x| && forall i :: q <= i < |x| ==> x[i] == '\n'
      decreases q
    {
      q := q - 1;
    }
  }

  // ---------- the base that is left ----------

  lemma {:induction false} RightTrimmed(u: string)
    ensures var base := TrimRight(u, IsNewline);
      && |base| <= |u| && base == u[..|base|] && (forall i :: |base| <= i < |u| ==> u[i] == '\n')
      && Trim(base, IsNewline) == Trim(u, IsNewline)
      && TrimRight(Trim(u, IsNewline), IsNewline) == Trim(u, IsNewline)
  {
    RightCut(u);
    TrimRightIsPrefix(u, IsNewline);
    TrimSame(TrimRight(u, IsNewline), u, 0);
    TrimIsMiddle(u, IsNewline);
  }

  lemma {:induction false} RightCut(u: string)
    ensures |TrimRight(u, IsNewline)| <= |u|
    ensures forall i :: |TrimRight(u, IsNewline)| <= i < |u| ==> u[i] == '\n'
  {
    if u != "" && IsNewline(u[|u| - 1]) {
      RightCut(u[..|u| - 1]);
    }
  }

  lemma {:induction false} NoMarkersInPrefix(u: string, n: nat, b: string, e: string)
    requires NoMarkers(u, b, e) && n <= |u|
    ensures NoMarkers(u[..n], b, e)
  {
    hide Index;
    assert u[..n] == u[0..n];
    if Contains(u[..n], b) {
      OccursInPart(u, b, 0, n);
    }
    if Contains(u[..n], e) {
      OccursInPart(u, e, 0, n);
    }
  }

  /** The text outside the managed block, as it stands after a second sync. */
  function Unmanaged(content: string, b: string, e: string): string {
    Trim(StripManagedBlock(content, b, e), IsNewline)
  }

  /** What the sync leaves in front of the block can stay there: no marker, and no carriage return at a line's end. */
  predicate Settled(t: string, b: string, e: string) {
    var u := StripManagedBlock(t, b, e);
    NoMarkers(u, b, e) && PlainEnds(TrimRight(u, IsNewline))
  }

  /**
    Replacement: if the text without its managed block has no marker left and no carriage return at the end of a
    line, then a second snapshot replaces the first, and the unmanaged text stays in front of the one block.
   */
  lemma {:induction false} SecondSyncReplaces(t: string, l1: seq<string>, l2: seq<string>, b: string, e: string)
    requires GoodMarkers(b, e) && CleanLines(l1, e) && Settled(t, b, e)
    ensures ApplyBlock(ApplyBlock(t, Block(l1, b, e), b, e), Block(l2, b, e), b, e)
         == Render(Unmanaged(t, b, e), Block(l2, b, e))
  {
    hide StripManagedBlock, Trim, TrimRight, NoMarkers, Render, PlainEnds;
    var u := StripManagedBlock(t, b, e);
    var base := TrimRight(u, IsNewline);
    RightTrimmed(u);
    NoMarkersInPrefix(u, |base|, b, e);
    StripRendered(base, l1, b, e);
    assert Trim(u, IsNewline) == Trim(base, IsNewline);
  }

  // ---------- the condition is exact ----------

  /** How many characters are not newlines: what trimming newlines keeps. */
  function Solid(s: string): nat {
    if s == "" then 0 else Solid(s[..|s| - 1]) + if s[|s| - 1] == '\n' then 0 else 1
  }

  lemma {:induction false} SolidOfBoth(x: string, y: string)
    ensures Solid(x + y) == Solid(x) + Solid(y)
    decreases |y|
  {
    if y == "" {
      assert x + y == x;
    } else {
      var s := x + y;
      assert s[..|s| - 1] == x + y[..|y| - 1];
      SolidOfBoth(x, y[..|y| - 1]);
    }
  }

  lemma {:induction false} SolidAtMost(s: string)
    ensures Solid(s) <= |s| && ('\n' !in s ==> Solid(s) == |s|)
    ensures (forall i :: 0 <= i < |s| ==> s[i] == '\n') ==> Solid(s) == 0
  {
    if s != "" {
      SolidAtMost(s[..|s| - 1]);
    }
  }

  /** A part of a text has no more than the text. */
  lemma {:induction false} SolidOfPart(s: string, from: nat, to: nat)
    requires from <= to <= |s|
    ensures Solid(s[from..to]) <= Solid(s)
    ensures (forall i :: 0 <= i < from || to <= i < |s| ==> s[i] == '\n') ==> Solid(s[from..to]) == Solid(s)
  {
    hide Solid;
    assert s == s[..from] + s[from..to] + s[to..];
    SolidOfBoth(s[..from] + s[from..to], s[to..]);
    SolidOfBoth(s[..from], s[from..to]);
    SolidAtMost(s[..from]);
    SolidAtMost(s[to..]);
  }

  lemma {:induction false} SolidTrimmed(u: string)
    ensures Solid(TrimRight(u, IsNewline)) == Solid(u) && Solid(Trim(u, IsNewline)) == Solid(u)
  {
    hide Solid, Trim, TrimRight;
    RightTrimmed(u);
    var base := TrimRight(u, IsNewline);
    SolidOfPart(u, 0, |base|);
    assert u[0..|base|] == base;
    if exists i :: 0 <= i < |u| && u[i] != '\n' {
      var p, q := Core(u);
      TrimByHand(u, IsNewline, p, q - p);
      SolidOfPart(u, p, q);
    } else {
      TrimNewlines(u);
      SolidAtMost(u);
      SolidAtMost("");
    }
  }

  /** Normalising line ends loses something exactly when there is a carriage return before a newline. */
  lemma {:induction false} SolidOfLines(w: string)
    ensures Solid(Lines(w)) <= Solid(w)
    ensures Occurs(w, "\r\n") ==> Solid(Lines(w)) < Solid(w)
    decreases |w|
  {
    hide Index, Solid, Lines;
    LinesStep(w);
    var i := Index(w, "\r\n");
    if i >= 0 {
      var rest := w[i + 2..];
      SolidOfLines(rest);
      assert w == w[..i] + "\r\n" + rest;
      SolidOfBoth(w[..i] + "\r\n", rest);
      SolidOfBoth(w[..i], "\r\n");
      SolidOfBoth(w[..i] + "\n", Lines(rest));
      SolidOfBoth(w[..i], "\n");
      SolidLineEnds();
    }
  }

  lemma {:induction false} SolidLineEnds()
    ensures Solid("\r\n") == 1 && Solid("\n") == 0 && Solid("\n\n") == 0
  {
    assert "\r\n"[..1] == "\r" && "\r"[..0] == "" && "\n"[..0] == "" && "\n\n"[..1] == "\n";
  }

  /** A marker in a text stands before the newlines that end it. */
  lemma {:induction false} MarkerInBase(u: string, m: string)
    requires m != "" && '\n' !in m && Occurs(u, m)
    ensures Occurs(TrimRight(u, IsNewline), m)
  {
    hide TrimRight;
    var i :| OccursAt(u, m, i);
    OccursPointwise(u, m, i);
    var k := |m| - 1;
    assert u[i + k] == m[k] && m[k] in m;
    RightTrimmed(u);
    var base := TrimRight(u, IsNewline);
    assert base[i..i + |m|] == u[i..i + |m|];
    assert OccursAt(base, m, i);
  }

  /** A line long enough to be noticed, without a marker in it. */
  lemma {:induction false} Filler(n: nat, b: string, e: string) returns (line: string)
    requires GoodMarkers(b, e)
    ensures |line| == n && OneLine(line) && CleanLines([line], e)
  {
    line := seq(n, i => 'a');
    MissingCharNoOccurrence(line, e, '#');
  }

  predicate OneLine(line: string) {
    '\n' !in line && '\r' !in line
  }

  /** A run of plain characters keeps its weight in a normalised text. */
  lemma {:induction false} SolidOfRun(x: string, run: string, y: string)
    requires OneLine(run)
    ensures Solid(Lines(x + run + y)) >= |run|
  {
    hide Solid, Lines;
    SolidAtMost(run);
    if run != "" {
      assert run[0] in run && run[|run| - 1] in run;
      LinesOfBoth(x, run + y);
      LinesOfBoth(run, y);
      LinesWithoutReturns(run);
      assert x + run + y == x + (run + y);
      SolidOfBoth(Lines(x), Lines(run + y));
      SolidOfBoth(run, Lines(y));
    }
  }

  /** A file whose base another sync has normalised. */
  function Stacked(base: string, block: string): string {
    base + "\n\n" + block + "\n"
  }

  lemma {:induction false} StackedIndexes(base: string, block: string, m: string)
    requires m != "" && '\n' !in m && Occurs(block, m)
    ensures Index(Stacked(base, block), m) == if Occurs(base, m) then Index(base, m) else |base| + 2 + Index(block, m)
    ensures Index(block, m) >= 0 && (Occurs(base, m) ==> OccursAt(base, m, Index(base, m)))
  {
    hide Index, Occurs;
    MissingNothing(m);
    var closed := block + ['\n'] + "";
    IndexBesideCut(block, '\n', "", m);
    OccursBesideCutAnywhere(block, '\n', "", m);
    var lower := "" + ['\n'] + closed;
    IndexBesideCut("", '\n', closed, m);
    OccursBesideCutAnywhere("", '\n', closed, m);
    IndexBesideCut(base, '\n', lower, m);
    assert Stacked(base, block) == base + ['\n'] + lower;
  }

  /** What the second sync makes of the line ends in front of a block. */
  lemma {:induction false} SecondLook(base: string, block: string) returns (left: string)
    requires base != "" && block != "" && block[|block| - 1] != '\r'
    ensures Lines(Render(base, block)) == Stacked(left, Lines(block)) && Solid(left) <= Solid(base)
    ensures PlainEnds(base) ==> left == base
    ensures !PlainEnds(base) ==> Solid(left) < Solid(base)
  {
    hide Index, Solid, Lines;
    var w, z := base + "\n", "\n" + (block + "\n");
    assert Render(base, block) == w + z;
    LinesWithoutReturns("\n");
    LinesOfBoth(w, z);
    LinesOfBoth("\n", block + "\n");
    LinesOfBoth(block, "\n");
    LinesEndInNewline(w);
    SolidOfLines(w);
    var lw := Lines(w);
    left := lw[..|lw| - 1];
    assert lw == left + "\n";
    SolidOfBoth(left, "\n");
    SolidOfBoth(base, "\n");
    assert Lines(w + z) == left + "\n" + ("\n" + (Lines(block) + "\n")) == Stacked(left, Lines(block));
    if PlainEnds(base) {
      PlainStays(w);
    }
  }

  /** What stripping makes of a stacked file is never as solid as the base it had. */
  lemma {:induction false} CutIsNoticed(left: string, block: string, b: string, e: string, n: nat)
    requires GoodMarkers(b, e) && Occurs(block, b) && |block| > |e| && Index(block, e) == |block| - |e| && Index(block, b) == 0
    requires Solid(left) <= n < Solid(block) && (NoMarkers(left, b, e) ==> Solid(left) < n)
    ensures var s := Stacked(left, block);
      var begin, end := Index(s, b), Index(s, e);
      && (begin < 0 || end < begin ==> Solid(s) != n)
      && (0 <= begin <= end ==> Solid(CutText(s, b, e)) != n)
  {
    hide Index, Solid, HasHash, Occurs, CutText;
    StackedIndexes(left, block, b);
    StackedIndexes(left, block, e);
    var s := Stacked(left, block);
    var begin, end := Index(s, b), Index(s, e);
    BlockInStack(left, block);
    SolidOfPart(s, |left| + 2, |left| + 2 + |block|);
    if 0 <= begin <= end {
      if Occurs(left, e) {
        CutLeavesBlock(left, block, b, e);
      } else {
        CutTakesBlock(left, block, b, e);
      }
    }
  }

  /** The whole of a text but what lies between the markers. */
  function CutText(content: string, b: string, e: string): string
    requires 0 <= Index(content, b) <= Index(content, e)
  {
    var past := Index(content, e) + |e|;
    var stop := if past < |content| && content[past] == '\n' then past + 1 else past;
    content[..Index(content, b)] + content[stop..]
  }

  /** The end marker was found in front of the block: the block survives the cut. */
  lemma {:induction false} CutLeavesBlock(left: string, block: string, b: string, e: string)
    requires '\n' !in e && e != "" && Occurs(left, e) && Occurs(block, e)
    requires 0 <= Index(Stacked(left, block), b) <= Index(Stacked(left, block), e)
    ensures Solid(CutText(Stacked(left, block), b, e)) >= Solid(block)
  {
    hide Index, Solid, Occurs;
    StackedIndexes(left, block, e);
    var s := Stacked(left, block);
    var begin, past := Index(s, b), Index(s, e) + |e|;
    var stop := if past < |s| && s[past] == '\n' then past + 1 else past;
    assert stop <= |left| + 1;
    BlockInStack(left, block);
    SolidBehindCut(s, begin, stop, |left| + 2, |left| + 2 + |block|);
  }

  lemma {:induction false} BlockInStack(left: string, block: string)
    ensures var s := Stacked(left, block); var p := |left| + 2;
      p + |block| + 1 == |s| && s[p..p + |block|] == block && s[|s| - 1] == '\n'
  {
    var head := left + "\n\n";
    assert Stacked(left, block) == head + block + "\n" && |head| == |left| + 2;
  }

  lemma {:induction false} FrontOfStack(left: string, block: string, n: nat)
    ensures var s := Stacked(left, block);
      && (n <= |left| ==> s[..n] == left[..n]) && s[..|left| + 2] == left + "\n\n"
  {
  }

  /** The end marker is that of the block: everything behind the begin marker is cut. */
  lemma {:induction false} CutTakesBlock(left: string, block: string, b: string, e: string)
    requires '\n' !in e && e != "" && '\n' !in b && b != "" && !Occurs(left, e) && |block| > |e| && Index(block, e) == |block| - |e|
    requires Occurs(block, b) && Index(block, b) == 0
    requires 0 <= Index(Stacked(left, block), b) <= Index(Stacked(left, block), e)
    ensures Solid(CutText(Stacked(left, block), b, e)) == if Occurs(left, b) then Solid(left[..Index(left, b)]) else Solid(left)
    ensures Occurs(left, b) ==> Solid(left[..Index(left, b)]) < Solid(left)
  {
    hide Index, Solid, Occurs;
    StackedIndexes(left, block, e);
    StackedIndexes(left, block, b);
    var s := Stacked(left, block);
    BlockInStack(left, block);
    var begin := Index(s, b);
    assert CutText(s, b, e) == s[..begin];
    FrontOfStack(left, block, begin);
    if Occurs(left, b) {
      assert left == left[..begin] + b + left[begin + |b|..];
      SolidOfBoth(left[..begin] + b, left[begin + |b|..]);
      SolidOfBoth(left[..begin], b);
      SolidAtMost(b);
    } else {
      SolidOfBoth(left, "\n\n");
      SolidLineEnds();
    }
  }

  lemma {:induction false} StripIsCut(content: string, b: string, e: string)
    ensures var s := Lines(content);
      StripManagedBlock(content, b, e)
      == if 0 <= Index(s, b) <= Index(s, e) then Trim(CutText(s, b, e), IsNewline) else s
  {
    hide Index, Trim, Lines;
  }

  /** Stripping a file whose base is not settled never gives the trimmed base back, behind a block with a long run. */
  lemma {:induction false} StripMissesBase(t: string, lines: seq<string>, x: string, run: string, y: string, b: string, e: string)
    requires GoodMarkers(b, e) && CleanLines(lines, e) && !Settled(t, b, e)
    requires Block(lines, b, e) == x + run + y && OneLine(run) && |run| > |StripManagedBlock(t, b, e)|
    ensures var base := TrimRight(StripManagedBlock(t, b, e), IsNewline);
      TrimRight(StripManagedBlock(Render(base, Block(lines, b, e)), b, e), IsNewline) != Unmanaged(t, b, e)
    ensures var base := TrimRight(StripManagedBlock(t, b, e), IsNewline);
      TrimRight(StripManagedBlock(Render(base, Block(lines, b, e)), b, e), IsNewline) != base
  {
    hide Index, Trim, TrimRight, Block, CleanLines, Lines, HasHash, StripManagedBlock, Solid, PlainEnds;
    var u := StripManagedBlock(t, b, e);
    var base, block := TrimRight(u, IsNewline), Block(lines, b, e);
    var top := BlockShape(lines, b, e);
    BlockEnds(lines, b, e);
    SolidOfRun(x, run, y);
    SolidTrimmed(u);
    SolidAtMost(u);
    UnsettledBase(t, b, e);
    var left := SecondLook(base, block);
    CutIsNoticed(left, Lines(block), b, e, Solid(u));
    var content := Render(base, block);
    StripIsCut(content, b, e);
    SolidTrimmed(StripManagedBlock(content, b, e));
    if 0 <= Index(Stacked(left, Lines(block)), b) <= Index(Stacked(left, Lines(block)), e) {
      SolidTrimmed(CutText(Stacked(left, Lines(block)), b, e));
    }
  }

  lemma {:induction false} UnsettledBase(t: string, b: string, e: string)
    requires GoodMarkers(b, e) && !Settled(t, b, e)
    ensures var base := TrimRight(StripManagedBlock(t, b, e), IsNewline);
      base != "" && (PlainEnds(base) ==> !NoMarkers(base, b, e))
  {
    hide Index, TrimRight, HasHash, StripManagedBlock;
    var u := StripManagedBlock(t, b, e);
    MissingNothing(b);
    MissingNothing(e);
    ShorterNoOccurrence("" + "\n", "\r\n");
    if Occurs(u, b) {
      MarkerInBase(u, b);
    }
    if Occurs(u, e) {
      MarkerInBase(u, e);
    }
  }

  lemma {:induction false} RenderTellsBases(x: string, y: string, block: string)
    requires x != y
    ensures Render(x, block) != Render(y, block)
  {
    if |x| == |y| {
      assert x == "" || (Render(x, block)[..|x|] == x && Render(y, block)[..|x|] == y);
    }
  }

  /** Behind these lines, every second snapshot leaves the unmanaged text followed by its own block. */
  ghost predicate Replaced(t: string, lines: seq<string>, b: string, e: string) {
    forall l2 ::
      ApplyBlock(ApplyBlock(t, Block(lines, b, e), b, e), Block(l2, b, e), b, e) == Render(Unmanaged(t, b, e), Block(l2, b, e))
  }

  /** The law for all first snapshots without the end marker in a line. */
  ghost predicate Replaces(t: string, b: string, e: string) {
    forall l1 :: CleanLines(l1, e) ==> Replaced(t, l1, b, e)
  }

  /**
    The replacement law, exactly, for every hosts file: a second snapshot replaces the first one for all
    snapshots if and only if, once the managed block is taken out, no marker is left and no carriage return ends
    a line. A lone marker, or a second block, makes later syncs pile blocks up or cut unmanaged text away.
   */
  lemma {:induction false} ReplacementIsExact(t: string, b: string, e: string)
    requires GoodMarkers(b, e)
    ensures Replaces(t, b, e) <==> Settled(t, b, e)
  {
    hide StripManagedBlock, Settled, ApplyBlock, Render, CleanLines, GoodMarkers, Block, Unmanaged;
    if Settled(t, b, e) {
      forall l1 | CleanLines(l1, e)
        ensures Replaced(t, l1, b, e)
      {
        forall l2
          ensures ApplyBlock(ApplyBlock(t, Block(l1, b, e), b, e), Block(l2, b, e), b, e)
               == Render(Unmanaged(t, b, e), Block(l2, b, e))
        {
          SecondSyncReplaces(t, l1, l2, b, e);
        }
      }
    } else {
      var l1 := LongBlockBreaks(t, b, e);
    }
  }

  lemma {:induction false} LongBlockBreaks(t: string, b: string, e: string) returns (l1: seq<string>)
    requires GoodMarkers(b, e) && !Settled(t, b, e)
    ensures CleanLines(l1, e) && !Replaced(t, l1, b, e)
  {
    hide StripManagedBlock, Settled, Render, Block, TrimRight, Unmanaged, CleanLines;
    var u := StripManagedBlock(t, b, e);
    var line := Filler(|u| + 1, b, e);
    l1 := [line];
    var l2: seq<string> := [];
    LineInBlock(line, b, e);
    StripMissesBase(t, l1, b + "\n", line, "\n" + e, b, e);
    var content := ApplyBlock(t, Block(l1, b, e), b, e);
    RenderTellsBases(TrimRight(StripManagedBlock(content, b, e), IsNewline), Unmanaged(t, b, e), Block(l2, b, e));
  }

  lemma {:induction false} LineInBlock(line: string, b: string, e: string)
    ensures Block([line], b, e) == b + "\n" + line + ("\n" + e)
  {
    assert [b] + [line] + [e] == [b, line, e] && [b, line, e][1..] == [line, e] && [line, e][1..] == [e];
    assert Join([line, e], "\n") == line + "\n" + e;
  }

  /** On a settled file: which first snapshots the next one replaces, exactly: those without the end marker in a line. */
  lemma {:induction false} LineConditionIsExact(t: string, lines: seq<string>, b: string, e: string)
    requires GoodMarkers(b, e) && Settled(t, b, e)
    ensures Replaced(t, lines, b, e) <==> CleanLines(lines, e)
  {
    hide StripManagedBlock, Settled, ApplyBlock, Render, CleanLines, GoodMarkers, Block, Unmanaged, TrimRight;
    if CleanLines(lines, e) {
      forall l2
        ensures ApplyBlock(ApplyBlock(t, Block(lines, b, e), b, e), Block(l2, b, e), b, e)
             == Render(Unmanaged(t, b, e), Block(l2, b, e))
      {
        SecondSyncReplaces(t, lines, l2, b, e);
      }
    } else {
      EarlyEndStays(t, lines, b, e);
      var l2: seq<string> := [];
      var first := ApplyBlock(t, Block(lines, b, e), b, e);
      Applied(t, Block(lines, b, e), b, e);
      Applied(first, Block(l2, b, e), b, e);
      RenderTellsBases(TrimRight(StripManagedBlock(first, b, e), IsNewline), Unmanaged(t, b, e), Block(l2, b, e));
    }
  }

  lemma {:induction false} Applied(content: string, block: string, b: string, e: string)
    ensures ApplyBlock(content, block, b, e) == Render(TrimRight(StripManagedBlock(content, b, e), IsNewline), block)
  {
    hide StripManagedBlock, TrimRight, Render;
  }

  /** An end marker inside the block ends it early: the rest of the block is left in the file. */
  lemma {:induction false} EarlyEndStays(t: string, lines: seq<string>, b: string, e: string)
    requires GoodMarkers(b, e) && Settled(t, b, e) && !CleanLines(lines, e)
    ensures var base := TrimRight(StripManagedBlock(t, b, e), IsNewline);
      TrimRight(StripManagedBlock(Render(base, Block(lines, b, e)), b, e), IsNewline) != Unmanaged(t, b, e)
  {
    hide Index, Trim, TrimRight, Block, CleanLines, Lines, HasHash, StripManagedBlock, Solid, PlainEnds, Occurs;
    var u := StripManagedBlock(t, b, e);
    var base, block := TrimRight(u, IsNewline), Block(lines, b, e);
    RightTrimmed(u);
    NoMarkersInPrefix(u, |base|, b, e);
    var top := BlockShape(lines, b, e);
    BlockEnds(lines, b, e);
    LinesOfRendered(base, block);
    var content := Render(base, block);
    StripIsCut(content, b, e);
    var seen := Lines(block);
    var n := Render(base, seen);
    RenderedIndexes(base, seen, b);
    RenderedIndexes(base, seen, e);
    TailAfterEnd(base, top, b, e);
    SolidTrimmed(u);
    SolidTrimmed(CutText(n, b, e));
    SolidTrimmed(StripManagedBlock(content, b, e));
  }

  lemma {:induction false} TailAfterEnd(base: string, top: string, b: string, e: string)
    requires '\n' !in e && e != "" && Occurs(top, e)
    requires var n := Render(base, top + ['\n'] + e);
      var at := if base == "" then 0 else |base| + 2;
      Index(n, b) == at && Index(n, e) == at + Index(top, e)
    ensures Solid(CutText(Render(base, top + ['\n'] + e), b, e)) > Solid(base)
  {
    hide Index, Solid, Render, Occurs;
    var n := Render(base, top + ['\n'] + e);
    var head := if base == "" then "" else base + "\n\n";
    RenderedParts(base, top, e);
    var past := Index(n, e) + |e|;
    var stop := if past < |n| && n[past] == '\n' then past + 1 else past;
    var p := |head| + |top| + 1;
    assert stop <= p;
    SolidBehindCut(n, |head|, stop, p, p + |e|);
    SolidAtMost(e);
    SolidOfHead(base);
  }

  lemma {:induction false} RenderedParts(base: string, top: string, e: string)
    ensures var n := Render(base, top + ['\n'] + e);
      var head := if base == "" then "" else base + "\n\n";
      var p := |head| + |top| + 1;
      && |n| == p + |e| + 1 && n[..|head|] == head && n[p..p + |e|] == e
  {
    var head := if base == "" then "" else base + "\n\n";
    assert Render(base, top + ['\n'] + e) == head + top + "\n" + e + "\n";
  }

  /** What is left of a cut text: the head and at least the part behind the cut. */
  lemma {:induction false} SolidBehindCut(n: string, begin: nat, stop: nat, p: nat, q: nat)
    requires begin <= |n| && stop <= p <= q <= |n|
    ensures Solid(n[..begin] + n[stop..]) >= Solid(n[..begin]) + Solid(n[p..q])
  {
    hide Solid;
    var tail := n[stop..];
    SolidOfBoth(n[..begin], tail);
    SolidOfPart(tail, p - stop, q - stop);
    assert tail[p - stop..q - stop] == n[p..q];
  }

  lemma {:induction false} SolidOfHead(base: string)
    ensures Solid(base + "\n\n") == Solid(base) && Solid("") == 0
  {
    SolidOfBoth(base, "\n\n");
    SolidLineEnds();
  }

  // ---------- what one sync writes ----------

  /** A file that never held the block: its text without the newlines at its end, a blank line, and the block. */
  lemma {:induction false} FirstSync(text: string, tail: string, block: string, b: string, e: string)
    requires '\r' !in text && (text == "" || text[|text| - 1] != '\n') && forall i :: 0 <= i < |tail| ==> tail[i] == '\n'
    requires !Contains(text + tail, b)
    ensures ApplyBlock(text + tail, block, b, e) == if text == "" then block + "\n" else text + "\n\n" + block + "\n"
  {
    var whole := text + tail;
    LinesWithoutReturns(whole);
    assert StripManagedBlock(whole, b, e) == whole;
    NewlinesCut(text, tail);
  }

  lemma {:induction false} NewlinesCut(text: string, tail: string)
    requires text == "" || text[|text| - 1] != '\n'
    requires forall i :: 0 <= i < |tail| ==> tail[i] == '\n'
    ensures TrimRight(text + tail, IsNewline) == text
    decreases |tail|
  {
    if tail == "" {
      assert text + tail == text;
    } else {
      var n := |tail| - 1;
      assert (text + tail)[..|text + tail| - 1] == text + tail[..n] && (text + tail)[|text + tail| - 1] == tail[n];
      NewlinesCut(text, tail[..n]);
    }
  }
}
