/** Module names: `normalizeModuleName` (internal/agent/install/policy.go) and when it settles. */
module ModuleNames {
  import opened GoStrings

  predicate IsDashOrSlash(c: char) {
    c == '-' || c == '/'
  }

  /** Lower case, then '_' to '-', then ' ' to '-', for one character. */
  function FlattenChar(c: char): char {
    var lower := LowerChar(c);
    if lower == '_' || lower == ' ' then '-' else lower
  }

  function Flatten(s: string): (r: string) {
    MapChars(s, FlattenChar)
  }

  function NormalizeModuleName(raw: string): string {
    Trim(Flatten(TrimSpace(raw)), IsDashOrSlash)
  }

  /** A second normalisation changes nothing. */
  predicate Stable(raw: string) {
    NormalizeModuleName(NormalizeModuleName(raw)) == NormalizeModuleName(raw)
  }

  /** The only whitespace in the name is the space character. */
  predicate OnlyPlainSpaces(raw: string) {
    forall i :: 0 <= i < |raw| && IsSpace(raw[i]) ==> raw[i] == ' '
  }

  lemma {:induction false} FlattenCharFacts(c: char)
    ensures FlattenChar(FlattenChar(c)) == FlattenChar(c)
    ensures IsSpace(FlattenChar(c)) <==> IsSpace(c) && c != ' '
  {
  }

  /** Every character of a normalised name is the flattened form of a raw character. */
  lemma {:induction false} NormalizedChar(raw: string, i: nat) returns (k: nat)
    requires i < |NormalizeModuleName(raw)|
    ensures k < |raw| && NormalizeModuleName(raw)[i] == FlattenChar(raw[k])
  {
    var trimmed := TrimSpace(raw);
    var flat := Flatten(trimmed);
    TrimIsMiddle(raw, IsSpace);
    TrimIsMiddle(flat, IsDashOrSlash);
    var j := Lead(flat, IsDashOrSlash) + i;
    assert NormalizeModuleName(raw)[i] == flat[j] == FlattenChar(trimmed[j]);
    k := Lead(raw, IsSpace) + j;
    assert trimmed[j] == raw[k];
  }

  /** A normalised name has no capital, underscore or blank, and no dash or slash at either end. */
  lemma {:induction false} NormalForm(raw: string)
    ensures var z := NormalizeModuleName(raw);
      && (forall c :: c in z ==> !('A' <= c <= 'Z') && c != '_' && c != ' ')
      && (z != "" ==> z[0] != '-' && z[0] != '/' && z[|z| - 1] != '-' && z[|z| - 1] != '/')
  {
    var z := NormalizeModuleName(raw);
    FlatForm(raw);
    forall c | c in z
      ensures FlattenChar(c) == c
    {
      var i :| 0 <= i < |z| && z[i] == c;
      assert Flatten(z)[i] == FlattenChar(z[i]);
    }
  }

  lemma {:induction false} FlatForm(raw: string)
    ensures CleanEnds(NormalizeModuleName(raw), IsDashOrSlash)
    ensures Flatten(NormalizeModuleName(raw)) == NormalizeModuleName(raw)
  {
    var z := NormalizeModuleName(raw);
    TrimIsMiddle(Flatten(TrimSpace(raw)), IsDashOrSlash);
    forall i | 0 <= i < |z|
      ensures Flatten(z)[i] == z[i]
    {
      var k := NormalizedChar(raw, i);
      FlattenCharFacts(raw[k]);
    }
  }

  // ---------- what normalising does to a name ----------

  /** The same character, the same letter in another case, or both of them a dash, an underscore or a space. */
  predicate SameSpelling(a: char, b: char) {
    || a == b
    || ('A' <= a <= 'Z' && b as int == a as int + 32)
    || ('A' <= b <= 'Z' && a as int == b as int + 32)
    || ((a == '-' || a == '_' || a == ' ') && (b == '-' || b == '_' || b == ' '))
  }

  /** Names without space at their ends that differ in case and kind of dash only are one module. */
  lemma {:induction false} SpellingsAgree(raw: string, other: string)
    requires CleanEnds(raw, IsSpace) && CleanEnds(other, IsSpace)
    requires |raw| == |other| && forall i :: 0 <= i < |raw| ==> SameSpelling(raw[i], other[i])
    ensures NormalizeModuleName(raw) == NormalizeModuleName(other)
  {
    TrimCleanText(raw, IsSpace);
    TrimCleanText(other, IsSpace);
    assert Flatten(raw) == Flatten(other);
  }

  predicate Plain(c: char) {
    'a' <= c <= 'z' || '0' <= c <= '9' || c == '.' || c == '-' || c == '/'
  }

  /** A name of small letters, digits, dots, and dashes and slashes not at its ends is kept as it is. */
  lemma {:induction false} PlainNameKept(raw: string)
    requires forall c :: c in raw ==> Plain(c)
    requires raw != "" ==> raw[0] != '-' && raw[0] != '/' && raw[|raw| - 1] != '-' && raw[|raw| - 1] != '/'
    ensures NormalizeModuleName(raw) == raw
  {
    forall i | 0 <= i < |raw|
      ensures FlattenChar(raw[i]) == raw[i] && !IsSpace(raw[i])
    {
      assert raw[i] in raw;
    }
    TrimCleanText(raw, IsSpace);
    assert Flatten(raw) == raw;
    TrimCleanText(raw, IsDashOrSlash);
  }

  /** A dash or slash in front, or one behind, makes no difference. */
  lemma {:induction false} OuterDashesGo(raw: string, c: char)
    requires raw != "" && CleanEnds(raw, IsSpace) && (c == '-' || c == '/')
    ensures NormalizeModuleName([c] + raw) == NormalizeModuleName(raw)
    ensures NormalizeModuleName(raw + [c]) == NormalizeModuleName(raw)
  {
    hide TrimLeft, TrimRight;
    TrimCleanText(raw, IsSpace);
    TrimCleanText([c] + raw, IsSpace);
    TrimCleanText(raw + [c], IsSpace);
    var flat := Flatten(raw);
    assert Flatten([c] + raw) == [c] + flat && Flatten(raw + [c]) == flat + [c];
    TrimInFront(flat, c, IsDashOrSlash);
    TrimBehind(flat, c, IsDashOrSlash);
  }

  lemma {:induction false} TrimInFront(s: string, c: char, cut: char -> bool)
    requires cut(c)
    ensures Trim([c] + s, cut) == Trim(s, cut)
  {
    assert ([c] + s)[1..] == s;
  }

  lemma {:induction false} TrimBehind(s: string, c: char, cut: char -> bool)
    requires cut(c)
    ensures Trim(s + [c], cut) == Trim(s, cut)
    decreases |s|
  {
    var t := s + [c];
    if s == "" {
      assert t[1..] == "";
    } else if cut(s[0]) {
      TrimBehind(s[1..], c, cut);
      assert t[1..] == s[1..] + [c];
    } else {
      assert TrimLeft(t, cut) == t && TrimLeft(s, cut) == s;
      assert t[..|t| - 1] == s;
    }
  }

  /** Space around a name makes no difference. */
  lemma {:induction false} OuterSpaceGoes(raw: string)
    ensures NormalizeModuleName(TrimSpace(raw)) == NormalizeModuleName(raw)
  {
    TrimSpaceIdempotent(raw);
  }

  /**
    The exact condition under which one normalisation is enough: the normalised name does
    not begin or end with whitespace. If it does, the next round makes it shorter.
   */
  lemma {:induction false} StableIffCleanEnds(raw: string)
    ensures Stable(raw) <==> CleanEnds(NormalizeModuleName(raw), IsSpace)
    ensures !Stable(raw) ==> |NormalizeModuleName(NormalizeModuleName(raw))| < |NormalizeModuleName(raw)|
  {
    var z := NormalizeModuleName(raw);
    FlatForm(raw);
    if CleanEnds(z, IsSpace) {
      TrimCleanText(z, IsSpace);
      TrimCleanText(z, IsDashOrSlash);
    } else {
      TrimShortens(z, IsSpace);
      TrimIsMiddle(Flatten(TrimSpace(z)), IsDashOrSlash);
    }
  }

  lemma {:induction false} NormalizeShortens(raw: string)
    ensures |NormalizeModuleName(raw)| <= |raw|
  {
    TrimIsMiddle(raw, IsSpace);
    TrimIsMiddle(Flatten(TrimSpace(raw)), IsDashOrSlash);
  }

  /** Normalising keeps the name or shortens it, as it does with every name that has been normalised before. */
  predicate Shrinking(name: string) {
    NormalizeModuleName(name) == name || |NormalizeModuleName(name)| < |name|
  }

  lemma {:induction false} NormalizedShrinks(raw: string)
    ensures Shrinking(NormalizeModuleName(raw))
  {
    hide NormalizeModuleName;
    StableIffCleanEnds(raw);
  }

  /** What repeated normalising can make of the name `key`: itself alone if it is settled, otherwise shorter names too. */
  predicate LeadsTo(key: string, name: string) {
    name == key || (NormalizeModuleName(key) != key && |name| < |key|)
  }

  lemma {:induction false} LeadsOn(key: string, name: string)
    requires LeadsTo(key, name) && Shrinking(key)
    ensures LeadsTo(key, NormalizeModuleName(name))
    ensures NormalizeModuleName(key) != key ==> |NormalizeModuleName(name)| < |key|
  {
    hide NormalizeModuleName;
    NormalizeShortens(name);
  }

  lemma {:induction false} PlainNameHasNoSpaceLeft(raw: string, i: nat)
    requires OnlyPlainSpaces(raw) && i < |NormalizeModuleName(raw)|
    ensures !IsSpace(NormalizeModuleName(raw)[i])
  {
    var k := NormalizedChar(raw, i);
    FlattenCharFacts(raw[k]);
  }

  /** A name whose only whitespace is the space character needs one normalisation only. */
  lemma {:induction false} PlainNamesAreStable(raw: string)
    requires OnlyPlainSpaces(raw)
    ensures Stable(raw)
  {
    var z := NormalizeModuleName(raw);
    forall i: nat | i < |z|
      ensures !IsSpace(z[i])
    {
      PlainNameHasNoSpaceLeft(raw, i);
    }
    StableIffCleanEnds(raw);
  }

  /** A name that is not stable: a tab survives behind a leading dash. */
  lemma {:induction false} TabBehindDashIsUnstable()
    ensures NormalizeModuleName("-\tfoo") == "\tfoo"
    ensures NormalizeModuleName("\tfoo") == "foo"
    ensures !Stable("-\tfoo")
  {
    var dashTab, tab, foo := "-\tfoo", "\tfoo", "foo";
    hide TrimLeft, TrimRight, Trim, Flatten;
    FlatWord(dashTab);
    TrimByHand(dashTab, IsSpace, 0, 5);
    assert dashTab[0..5] == dashTab;
    TrimByHand(dashTab, IsDashOrSlash, 1, 4);
    assert dashTab[1..5] == tab;
    FlatWord(foo);
    TrimByHand(tab, IsSpace, 1, 3);
    assert tab[1..4] == foo;
    TrimByHand(foo, IsDashOrSlash, 0, 3);
    assert foo[0..3] == foo;
  }

  /** One dash and tab more, and two normalisations do not settle the name either; three do. */
  lemma {:induction false} TwoRoundsAreNotEnough()
    ensures Stable(NormalizeModuleName("-\tfoo")) && !Stable(NormalizeModuleName("-\t-\tfoo"))
    ensures NormalizeModuleName(NormalizeModuleName("-\t-\tfoo")) == "\tfoo"
  {
    hide NormalizeModuleName;
    TabBehindDashIsUnstable();
    LongTabName();
    FooIsSettled();
    assert |"\tfoo"| == 4 && |"foo"| == 3;
  }

  lemma {:induction false} LongTabName()
    ensures NormalizeModuleName("-\t-\tfoo") == "\t-\tfoo"
    ensures NormalizeModuleName("\t-\tfoo") == "\tfoo"
  {
    var long, rest, short := "-\t-\tfoo", "\t-\tfoo", "-\tfoo";
    hide TrimLeft, TrimRight, Trim, Flatten;
    FlatWord(long);
    TrimByHand(long, IsSpace, 0, 7);
    assert long[0..7] == long;
    TrimByHand(long, IsDashOrSlash, 1, 6);
    assert long[1..7] == rest;
    FlatWord(short);
    TrimByHand(rest, IsSpace, 1, 5);
    assert rest[1..6] == short;
    TrimByHand(short, IsDashOrSlash, 1, 4);
    assert short[1..5] == "\tfoo";
  }

  lemma {:induction false} FooIsSettled()
    ensures NormalizeModuleName("foo") == "foo"
  {
    hide TrimLeft, TrimRight, Trim, Flatten;
    FlatWord("foo");
    TrimByHand("foo", IsSpace, 0, 3);
    TrimByHand("foo", IsDashOrSlash, 0, 3);
    assert "foo"[0..3] == "foo";
  }

  lemma {:induction false} FlatWord(s: string)
    requires forall c :: c in s ==> c == '-' || c == '\t' || 'a' <= c <= 'z'
    ensures Flatten(s) == s
  {
    forall i | 0 <= i < |s|
      ensures Flatten(s)[i] == s[i]
    {
      assert s[i] in s;
    }
  }
}
