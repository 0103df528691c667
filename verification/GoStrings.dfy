/** The parts of Go's `strings` package the agent relies on, over sequences of characters. */
module GoStrings {

  /** `unicode.IsSpace`, the set `strings.TrimSpace` cuts. */
  predicate IsSpace(c: char) {
    || c == ' '
    || '\t' <= c <= '\r'
    || c == '\U{85}'
    || c == '\U{A0}'
    || c == '\U{1680}'
    || '\U{2000}' <= c <= '\U{200A}'
    || c == '\U{2028}'
    || c == '\U{2029}'
    || c == '\U{202F}'
    || c == '\U{205F}'
    || c == '\U{3000}'
  }

  predicate IsNewline(c: char) {
    c == '\n'
  }

  function TrimLeft(s: string, cut: char -> bool): (r: string) {
    if s != "" && cut(s[0]) then TrimLeft(s[1..], cut) else s
  }

  function TrimRight(s: string, cut: char -> bool): (r: string) {
    if s != "" && cut(s[|s| - 1]) then TrimRight(s[..|s| - 1], cut) else s
  }

  lemma {:induction false} TrimLeftIsSuffix(s: string, cut: char -> bool)
    ensures |TrimLeft(s, cut)| <= |s| && TrimLeft(s, cut) == s[|s| - |TrimLeft(s, cut)|..]
    ensures TrimLeft(s, cut) != "" ==> !cut(TrimLeft(s, cut)[0])
    ensures s != "" && cut(s[0]) ==> |TrimLeft(s, cut)| < |s|
  {
    if s != "" && cut(s[0]) {
      TrimLeftIsSuffix(s[1..], cut);
    }
  }

  lemma {:induction false} TrimRightIsPrefix(s: string, cut: char -> bool)
    ensures |TrimRight(s, cut)| <= |s| && TrimRight(s, cut) == s[..|TrimRight(s, cut)|]
    ensures TrimRight(s, cut) != "" ==> !cut(TrimRight(s, cut)[|TrimRight(s, cut)| - 1])
    ensures s != "" && cut(s[|s| - 1]) ==> |TrimRight(s, cut)| < |s|
  {
    if s != "" && cut(s[|s| - 1]) {
      TrimRightIsPrefix(s[..|s| - 1], cut);
    }
  }

  function Trim(s: string, cut: char -> bool): (r: string) {
    TrimRight(TrimLeft(s, cut), cut)
  }

  function TrimSpace(s: string): (r: string) {
    Trim(s, IsSpace)
  }

  /** Neither end of the text would be cut. */
  predicate CleanEnds(s: string, cut: char -> bool) {
    s != "" ==> !cut(s[0]) && !cut(s[|s| - 1])
  }

  /** How many characters trimming removes in front. */
  function Lead(s: string, cut: char -> bool): (n: nat)
    ensures n <= |s|
  {
    TrimLeftIsSuffix(s, cut);
    |s| - |TrimLeft(s, cut)|
  }

  /** Trimming cuts a (possibly empty) run from each end, and nothing else. */
  lemma {:induction false} TrimIsMiddle(s: string, cut: char -> bool)
    ensures Lead(s, cut) + |Trim(s, cut)| <= |s|
    ensures Trim(s, cut) == s[Lead(s, cut)..Lead(s, cut) + |Trim(s, cut)|]
    ensures CleanEnds(Trim(s, cut), cut)
  {
    hide TrimLeft, TrimRight;
    var l := TrimLeft(s, cut);
    var r := TrimRight(l, cut);
    TrimLeftIsSuffix(s, cut);
    TrimRightIsPrefix(l, cut);
    EndThenFront(s, |s| - |l|, |r|);
    if r != "" {
      assert r[0] == l[0];
    }
  }

  lemma {:induction false} EndThenFront(s: string, from: nat, n: nat)
    requires from + n <= |s|
    ensures s[from..][..n] == s[from..from + n]
  {
  }

  lemma {:induction false} TrimCleanText(s: string, cut: char -> bool)
    requires CleanEnds(s, cut)
    ensures Trim(s, cut) == s
  {
  }

  lemma {:induction false} TrimShortens(s: string, cut: char -> bool)
    requires !CleanEnds(s, cut)
    ensures |Trim(s, cut)| < |s|
  {
    var l := TrimLeft(s, cut);
    TrimLeftIsSuffix(s, cut);
    TrimRightIsPrefix(l, cut);
    if l == s {
      assert l[|l| - 1] == s[|s| - 1];
    }
  }

  lemma {:induction false} TrimByHand(s: string, cut: char -> bool, lead: nat, n: nat)
    requires n > 0 && lead + n <= |s|
    requires forall i :: 0 <= i < lead || lead + n <= i < |s| ==> cut(s[i])
    requires !cut(s[lead]) && !cut(s[lead + n - 1])
    ensures Trim(s, cut) == s[lead..lead + n]
  {
    hide TrimLeft, TrimRight;
    TrimLeftByHand(s, cut, lead);
    var rest := s[lead..];
    TrimRightByHand(rest, cut, n);
    assert rest[..n] == s[lead..lead + n];
  }

  lemma {:induction false} TrimLeftByHand(s: string, cut: char -> bool, lead: nat)
    requires lead < |s|
    requires forall i :: 0 <= i < lead ==> cut(s[i])
    requires !cut(s[lead])
    ensures TrimLeft(s, cut) == s[lead..]
    decreases lead
  {
    if lead > 0 {
      var tail := s[1..];
      TrimLeftByHand(tail, cut, lead - 1);
      assert tail[lead - 1..] == s[lead..];
    }
  }

  lemma {:induction false} TrimRightByHand(s: string, cut: char -> bool, n: nat)
    requires 0 < n <= |s|
    requires forall i :: n <= i < |s| ==> cut(s[i])
    requires !cut(s[n - 1])
    ensures TrimRight(s, cut) == s[..n]
    decreases |s|
  {
    if n < |s| {
      TrimRightByHand(s[..|s| - 1], cut, n);
    }
  }

  lemma {:induction false} TrimSpaceIdempotent(s: string)
    ensures TrimSpace(TrimSpace(s)) == TrimSpace(s)
  {
    TrimIsMiddle(s, IsSpace);
    TrimCleanText(TrimSpace(s), IsSpace);
  }

  function MapChars(s: string, f: char -> char): (r: string)
    ensures |r| == |s| && forall i :: 0 <= i < |s| ==> r[i] == f(s[i])
  {
    seq(|s|, i requires 0 <= i < |s| => f(s[i]))
  }

  /** `strings.ToLower` on the ASCII letters. */
  function LowerChar(c: char): char {
    if 'A' <= c <= 'Z' then (c as int + 32) as char else c
  }

  function ToLower(s: string): (r: string) {
    MapChars(s, LowerChar)
  }

  /** `t` stands at position `i` of `s`. */
  predicate OccursAt(s: string, t: string, i: int) {
    0 <= i && i + |t| <= |s| && s[i..i + |t|] == t
  }

  ghost predicate Occurs(s: string, t: string) {
    exists i :: OccursAt(s, t, i)
  }

  function IndexFrom(s: string, t: string, from: nat): (r: int)
    requires from <= |s|
    ensures r == -1 || (from <= r && OccursAt(s, t, r))
    ensures forall i :: from <= i && (r == -1 || i < r) ==> !OccursAt(s, t, i)
    decreases |s| - from
  {
    if OccursAt(s, t, from) then from
    else if from == |s| then -1
    else IndexFrom(s, t, from + 1)
  }

  /** `strings.Index`: the first occurrence, or -1. */
  function Index(s: string, t: string): (r: int)
    ensures r == -1 <==> !Occurs(s, t)
    ensures r != -1 ==> OccursAt(s, t, r) && forall i :: 0 <= i < r ==> !OccursAt(s, t, i)
  {
    IndexFrom(s, t, 0)
  }

  predicate Contains(s: string, t: string)
    ensures Contains(s, t) <==> Occurs(s, t)
  {
    Index(s, t) >= 0
  }

  /** `strings.ReplaceAll` for a nonempty pattern: left to right, without overlap. */
  function ReplaceAll(s: string, old_: string, new_: string): (r: string)
    requires old_ != ""
    decreases |s|
  {
    var i := Index(s, old_);
    if i < 0 then s else s[..i] + new_ + ReplaceAll(s[i + |old_|..], old_, new_)
  }

  /** `strings.Join` */
  function Join(lines: seq<string>, sep: string): (r: string) {
    if |lines| == 0 then ""
    else if |lines| == 1 then lines[0]
    else lines[0] + sep + Join(lines[1..], sep)
  }

  lemma {:induction false} OccursInPart(s: string, t: string, from: nat, to: nat)
    requires from <= to <= |s|
    requires Occurs(s[from..to], t)
    ensures Occurs(s, t)
  {
    var i :| OccursAt(s[from..to], t, i);
    var part := s[from..to];
    var j := from + i;
    assert s[j..j + |t|] == part[i..i + |t|];
    assert OccursAt(s, t, j);
  }

  /** `firstNonEmpty` of two values (internal/agent/install/operation_journal.go:354). */
  function FirstNonEmpty(a: string, b: string): (r: string) {
    if TrimSpace(a) != "" then TrimSpace(a) else TrimSpace(b)
  }
}
