/**
  Redaction of installer output: which request values count as secrets, and what the replacement
  loop leaves of a text. The PEM rewrite that runs first is an arbitrary function on texts.
 */
module Redaction {
  import opened GoStrings
  import opened Ordering
  import opened Substrings

  const MARKER: string := "[REDACTED]"
  const PEM_HEAD: string := "-----BEGIN "

  const SENSITIVE_PARTS: seq<string> :=
    ["secret", "token", "password", "passwd", "private", "cert", "key", "pem", "ca"]

  predicate IsSensitiveKey(raw: string) {
    var key := ToLower(TrimSpace(raw));
    key != "" && exists p :: p in SENSITIVE_PARTS && Contains(key, p)
  }

  predicate LooksSensitive(raw: string) {
    var value := TrimSpace(raw);
    && value != ""
    && (Contains(value, PEM_HEAD)
        || (|value| >= 32 && ' ' !in value && '\t' !in value && '\r' !in value && '\n' !in value))
  }

  /** The part of an install request that may hold secrets: environment values and inline files. */
  datatype Request = Request(env: map<string, string>, files: map<string, string>)

  predicate Holds(values: map<string, string>, key: string, t: string) {
    key in values && (IsSensitiveKey(key) || LooksSensitive(values[key])) && TrimSpace(values[key]) == t && t != ""
  }

  ghost predicate SecretOf(values: map<string, string>, t: string) {
    exists key :: Holds(values, key, t)
  }

  predicate LongerFirst(a: string, b: string) {
    |a| >= |b|
  }

  /** `out` lists exactly the secrets of the request, once each, longest first; ties in any order. */
  ghost predicate Collects(req: Request, out: seq<string>) {
    && Distinct(out)
    && Sorted(out, LongerFirst)
    && forall t :: t in out <==> SecretOf(req.env, t) || SecretOf(req.files, t)
  }

  /** One of the two gathering loops of `collectInstallSecrets`, in any map order. */
  method Gather(values: map<string, string>, before: seq<string>, seenBefore: set<string>)
    returns (out: seq<string>, seen: set<string>)
    requires Distinct(before) && forall t :: t in seenBefore <==> t in before
    ensures Distinct(out) && forall t :: t in seen <==> t in out
    ensures forall t :: t in out <==> t in before || SecretOf(values, t)
  {
    hide IsSensitiveKey, LooksSensitive, TrimSpace;
    out, seen := before, seenBefore;
    var todo := values.Keys;
    while todo != {}
      invariant todo <= values.Keys
      invariant Distinct(out) && forall t :: t in seen <==> t in out
      invariant forall t :: t in before ==> t in out
      invariant forall t :: t in out ==> t in before || SecretOf(values, t)
      invariant forall k, t :: k !in todo && Holds(values, k, t) ==> t in out
      decreases |todo|
    {
      var key :| key in todo;
      todo := todo - {key};
      var value := values[key];
      var trimmed := TrimSpace(value);
      if (IsSensitiveKey(key) || LooksSensitive(value)) && trimmed != "" && trimmed !in seen {
        assert Holds(values, key, trimmed);
        seen := seen + {trimmed};
        out := out + [trimmed];
      }
    }
  }

  method CollectSecrets(req: Request) returns (out: seq<string>)
    ensures Collects(req, out)
  {
    hide SecretOf;
    var seen: set<string>;
    out, seen := Gather(req.env, [], {});
    out, seen := Gather(req.files, out, seen);
    ghost var found := out;
    SortPermutes(out, LongerFirst);
    SortSorts(out, LongerFirst);
    out := Sort(out, LongerFirst);
    PermutationKeepsDistinct(found, out);
    forall t
      ensures t in out <==> t in found
    {
      assert t in out <==> t in multiset(out);
      assert t in found <==> t in multiset(found);
    }
  }

  // ---------- the replacement loop ----------

  function ReplaceEach(text: string, secrets: seq<string>, mark: string): string
    decreases |secrets|
  {
    if secrets == [] then text
    else ReplaceEach(if secrets[0] == "" then text else ReplaceAll(text, secrets[0], mark), secrets[1..], mark)
  }

  function RedactText(raw: string, secrets: seq<string>, pem: string -> string): string {
    var text := TrimSpace(raw);
    if text == "" then "" else TrimSpace(ReplaceEach(pem(text), secrets, MARKER))
  }

  method RedactInstallText(raw: string, req: Request, pem: string -> string) returns (text: string)
    ensures exists secrets :: Collects(req, secrets) && text == RedactText(raw, secrets, pem)
    ensures Leaves(raw, req, pem, text) && CutsSecretsOnly(raw, req, pem, text)
  {
    hide Collects, ReplaceAll, TrimSpace, Leaves, CutsSecretsOnly;
    text := TrimSpace(raw);
    var secrets := CollectSecrets(req);
    RedactionLeaves(raw, req, secrets, pem);
    RedactionCuts(raw, req, secrets, pem);
    if text == "" {
      assert text == RedactText(raw, secrets, pem);
      return;
    }
    text := pem(text);
    ghost var start := text;
    for i := 0 to |secrets|
      invariant ReplaceEach(text, secrets[i..], MARKER) == ReplaceEach(start, secrets, MARKER)
    {
      var secret := secrets[i];
      assert secrets[i..][1..] == secrets[i + 1..];
      if secret == "" {
        continue;
      }
      text := ReplaceAll(text, secret, MARKER);
    }
    assert secrets[|secrets|..] == [];
    text := TrimSpace(text);
    assert text == RedactText(raw, secrets, pem);
  }

  ghost predicate IsSecret(req: Request, t: string) {
    SecretOf(req.env, t) || SecretOf(req.files, t)
  }

  /** A text without secrets only loses the space around it, and the PEM blocks; a request without secrets changes no text. */
  ghost predicate Leaves(raw: string, req: Request, pem: string -> string, text: string) {
    var given := TrimSpace(raw);
    && (given == "" ==> text == "")
    && (given != "" && (forall t :: IsSecret(req, t) ==> !Occurs(pem(given), t)) ==> text == TrimSpace(pem(given)))
    && (pem(given) == given && (forall t :: IsSecret(req, t) ==> !Occurs(given, t)) ==> text == given)
  }

  /** If no secret can be laid over the marker, the answer is the text with secrets cut out and a marker in the place of each. */
  ghost predicate CutsSecretsOnly(raw: string, req: Request, pem: string -> string, text: string) {
    TrimSpace(raw) != "" && (forall t :: IsSecret(req, t) ==> !Overlaps(t, MARKER)) ==>
      exists gaps, cuts ::
        && |gaps| == |cuts| + 1 && pem(TrimSpace(raw)) == Weave(gaps, cuts) && text == TrimSpace(Join(gaps, MARKER))
        && forall c :: c in cuts ==> IsSecret(req, c)
  }

  lemma {:induction false} CollectedAreSecrets(req: Request, secrets: seq<string>)
    requires Collects(req, secrets)
    ensures forall t :: t in secrets <==> IsSecret(req, t)
    ensures forall t :: t in secrets ==> t != ""
  {
    hide IsSensitiveKey, LooksSensitive, TrimSpace;
  }

  lemma {:induction false} RedactionLeaves(raw: string, req: Request, secrets: seq<string>, pem: string -> string)
    requires Collects(req, secrets)
    ensures Leaves(raw, req, pem, RedactText(raw, secrets, pem))
  {
    hide TrimSpace, Collects, Occurs, ReplaceEach, IsSecret;
    var given := TrimSpace(raw);
    TrimSpaceIdempotent(raw);
    CollectedAreSecrets(req, secrets);
    if forall t :: IsSecret(req, t) ==> !Occurs(pem(given), t) {
      NothingToReplace(pem(given), secrets, MARKER);
    }
  }

  lemma {:induction false} RedactionCuts(raw: string, req: Request, secrets: seq<string>, pem: string -> string)
    requires Collects(req, secrets)
    ensures CutsSecretsOnly(raw, req, pem, RedactText(raw, secrets, pem))
  {
    hide TrimSpace, Collects, Overlaps, ReplaceEach, IsSecret, Weave, Join;
    CollectedAreSecrets(req, secrets);
    if TrimSpace(raw) != "" && forall t :: IsSecret(req, t) ==> !Overlaps(t, MARKER) {
      var text := pem(TrimSpace(raw));
      LoopCutsSecrets(text, secrets, MARKER);
      var gaps, cuts :| CutsOut(text, ReplaceEach(text, secrets, MARKER), secrets, MARKER, gaps, cuts);
    }
  }

  // ---------- a secret laid over the marker ----------

  /** With `t[0]` on position `d` of the marker, the two agree wherever both have a character. */
  predicate Agrees(t: string, mark: string, d: int) {
    forall k :: 0 <= k < |t| && 0 <= k + d < |mark| ==> t[k] == mark[k + d]
  }

  /** Some placement puts at least one character of `t` on the marker, and all such characters agree. */
  predicate Overlaps(t: string, mark: string) {
    exists d :: -|t| < d < |mark| && Agrees(t, mark, d)
  }

  lemma {:induction false} OccurrenceAroundMark(x: string, mark: string, y: string, t: string, i: nat)
    requires t != "" && OccursAt(x + mark + y, t, i)
    ensures || OccursAt(x, t, i)
            || OccursAt(y, t, i - |x| - |mark|)
            || (-|t| < i - |x| < |mark| && Agrees(t, mark, i - |x|))
  {
    var s := x + mark + y;
    OccursPointwise(s, t, i);
    if i + |t| <= |x| {
      OccursPointwise(x, t, i);
    } else if i >= |x| + |mark| {
      var j := i - |x| - |mark|;
      OccursPointwise(y, t, j);
      forall k | 0 <= k < |t|
        ensures y[j + k] == t[k]
      {
        assert s[i + k] == t[k];
      }
    } else {
      forall k | 0 <= k < |t| && 0 <= k + (i - |x|) < |mark|
        ensures t[k] == mark[k + (i - |x|)]
      {
        assert s[i + k] == t[k];
      }
    }
  }

  /** A text that cannot be laid over the marker occurs on one side of it or not at all. */
  lemma {:induction false} MarkSeparates(x: string, mark: string, y: string, t: string)
    requires t != "" && !Overlaps(t, mark)
    ensures Occurs(x + mark + y, t) ==> Occurs(x, t) || Occurs(y, t)
  {
    forall i: nat | OccursAt(x + mark + y, t, i)
      ensures Occurs(x, t) || Occurs(y, t)
    {
      OccurrenceAroundMark(x, mark, y, t, i);
    }
  }

  lemma {:induction false} ReplaceClears(s: string, secret: string, mark: string, t: string)
    requires secret != "" && t != "" && !Overlaps(t, mark)
    requires t == secret || !Occurs(s, t)
    ensures !Occurs(ReplaceAll(s, secret, mark), t)
    decreases |s|
  {
    hide Overlaps, Index;
    var i := Index(s, secret);
    if i >= 0 {
      var rest := s[i + |secret|..];
      if t == secret {
        BeforeFirst(s, secret, i);
      } else {
        PartsLack(s, t, 0, i);
        PartsLack(s, t, i + |secret|, |s|);
        assert s[i + |secret|..|s|] == rest;
      }
      ReplaceClears(rest, secret, mark, t);
      MarkSeparates(s[..i], mark, ReplaceAll(rest, secret, mark), t);
    }
  }

  lemma {:induction false} BeforeFirst(s: string, t: string, i: nat)
    requires t != "" && i <= |s| && forall j :: 0 <= j < i ==> !OccursAt(s, t, j)
    ensures !Occurs(s[..i], t)
  {
    forall j: int
      ensures OccursAt(s[..i], t, j) ==> OccursAt(s, t, j) && 0 <= j < i
    {
      if OccursAt(s[..i], t, j) {
        assert s[..i][j..j + |t|] == s[j..j + |t|];
      }
    }
  }

  lemma {:induction false} PartsLack(s: string, t: string, from: nat, to: nat)
    requires from <= to <= |s| && !Occurs(s, t)
    ensures !Occurs(s[from..to], t)
  {
    if Occurs(s[from..to], t) {
      OccursInPart(s, t, from, to);
    }
  }

  lemma {:induction false} ReplaceEachClears(text: string, secrets: seq<string>, mark: string, t: string)
    requires t != "" && !Overlaps(t, mark)
    requires t in secrets || !Occurs(text, t)
    ensures !Occurs(ReplaceEach(text, secrets, mark), t)
    decreases |secrets|
  {
    hide Overlaps, ReplaceAll, Occurs;
    if secrets != [] {
      if secrets[0] == "" {
        ReplaceEachClears(text, secrets[1..], mark, t);
      } else if t == secrets[0] || !Occurs(text, t) {
        ReplaceClears(text, secrets[0], mark, t);
        ReplaceEachClears(ReplaceAll(text, secrets[0], mark), secrets[1..], mark, t);
      } else {
        ReplaceEachClears(ReplaceAll(text, secrets[0], mark), secrets[1..], mark, t);
      }
    }
  }

  /** Completeness: no output holds a secret that cannot be laid over the marker, whatever else is redacted. */
  lemma {:induction false} SecretNeverShown(raw: string, secrets: seq<string>, pem: string -> string, t: string)
    requires t in secrets && t != "" && !Overlaps(t, MARKER)
    ensures !Occurs(RedactText(raw, secrets, pem), t)
  {
    hide Overlaps, ReplaceEach;
    var text := TrimSpace(raw);
    if text == "" {
      ShorterNoOccurrence("", t);
    } else {
      var out := ReplaceEach(pem(text), secrets, MARKER);
      ReplaceEachClears(pem(text), secrets, MARKER, t);
      TrimIsMiddle(out, IsSpace);
      PartsLack(out, t, Lead(out, IsSpace), Lead(out, IsSpace) + |TrimSpace(out)|);
    }
  }

  // ---------- when a secret is shown ----------

  /** The PEM rewrite only changes texts that hold a PEM header. */
  ghost predicate RewritesPemOnly(pem: string -> string) {
    forall s :: !Occurs(s, PEM_HEAD) ==> pem(s) == s
  }

  ghost predicate NeverShown(t: string, pem: string -> string) {
    forall req: Request, secrets: seq<string>, raw: string ::
      Collects(req, secrets) && t in secrets ==> !Occurs(RedactText(raw, secrets, pem), t)
  }

  lemma {:induction false} MarkerText()
    ensures |MARKER| == 10 && CleanEnds(MARKER, IsSpace)
    ensures MARKER == ['['] + "REDACTED" + [']']
  {
    assert |MARKER| == 10 && MARKER[0] == '[' && MARKER[9] == ']';
    assert MARKER == ['['] + "REDACTED" + [']'];
  }

  lemma {:induction false} PlainKey(key: string)
    requires key in SENSITIVE_PARTS && CleanEnds(key, IsSpace) && ToLower(key) == key && key != ""
    ensures IsSensitiveKey(key)
  {
    TrimCleanText(key, IsSpace);
    assert OccursAt(key, key, 0);
    assert Contains(key, key);
  }

  lemma {:induction false} TokenAndKey()
    ensures IsSensitiveKey("token") && IsSensitiveKey("key")
  {
    assert |"token"| == 5 && |"key"| == 3;
    assert ToLower("token") == "token" && ToLower("key") == "key";
    assert "token" == SENSITIVE_PARTS[1] && "key" == SENSITIVE_PARTS[6];
    PlainKey("token");
    PlainKey("key");
  }

  /** A request whose only secret is `t`, or whose only secrets are `t` and a shorter `z`. */
  lemma {:induction false} SecretsOfRequest(t: string, z: string) returns (req: Request, secrets: seq<string>)
    requires t != "" && z != "" && CleanEnds(t, IsSpace) && CleanEnds(z, IsSpace)
    requires t == z || |z| < |t|
    ensures Collects(req, secrets) && secrets == if t == z then [t] else [t, z]
  {
    hide Trim, IsSensitiveKey, LooksSensitive;
    TokenAndKey();
    TrimCleanText(t, IsSpace);
    TrimCleanText(z, IsSpace);
    req := Request(map["token" := t, "key" := z], map[]);
    secrets := if t == z then [t] else [t, z];
    assert Holds(req.env, "token", t) && Holds(req.env, "key", z);
    forall s
      ensures s in secrets <==> SecretOf(req.env, s) || SecretOf(req.files, s)
    {
      assert s in secrets <==> s == t || s == z;
    }
  }

  /** A secret inside the marker shows in its own replacement. */
  lemma {:induction false} InsideMarkerShows(t: string, d: nat, pem: string -> string)
    returns (req: Request, secrets: seq<string>)
    requires t != "" && CleanEnds(t, IsSpace) && d + |t| <= |MARKER| && Agrees(t, MARKER, d) && RewritesPemOnly(pem)
    ensures Collects(req, secrets) && t in secrets && Occurs(RedactText(t, secrets, pem), t)
  {
    hide SecretOf;
    req, secrets := SecretsOfRequest(t, t);
    MarkerText();
    OccursPointwise(MARKER, t, d);
    assert '-' !in t by {
      assert '-' !in MARKER;
    }
    assert PEM_HEAD[0] == '-';
    MissingCharNoOccurrence(t, PEM_HEAD, '-');
    TrimCleanText(t, IsSpace);
    ReplaceWhole(t, MARKER);
    TrimCleanText(MARKER, IsSpace);
    assert ReplaceEach(t, [t], MARKER) == MARKER by {
      assert [t][1..] == [];
    }
  }

  lemma {:induction false} ReplaceWhole(t: string, mark: string)
    requires t != ""
    ensures ReplaceAll(t, t, mark) == mark
  {
    assert OccursAt(t, t, 0);
    assert Index(t, t) == 0;
    assert t[0 + |t|..] == "";
    ShorterNoOccurrence("", t);
    assert t[..0] + mark + "" == mark;
  }

  lemma {:induction false} ReplaceFirst(u: string, t: string, w: string, mark: string)
    requires t != "" && !Occurs(w, t)
    requires forall i :: 0 <= i < |u| ==> !OccursAt(u + t + w, t, i)
    ensures ReplaceAll(u + t + w, t, mark) == u + mark + w
  {
    var s := u + t + w;
    assert s[|u|..|u| + |t|] == t;
    IndexIsFirst(s, t, |u|);
    assert s[..|u|] == u && s[|u| + |t|..] == w;
  }

  lemma {:induction false} ReplaceChar(u: string, c: char, w: string, mark: string)
    requires c !in u && c !in w
    ensures ReplaceAll(u + [c] + w, [c], mark) == u + mark + w
  {
    hide ReplaceAll;
    var s := u + [c] + w;
    forall i | 0 <= i < |u|
      ensures !OccursAt(s, [c], i)
    {
      OccursPointwise(s, [c], i);
      assert s[i + 0] == u[i] != c == [c][0];
    }
    MissingCharNoOccurrence(w, [c], c);
    ReplaceFirst(u, [c], w, mark);
  }

  /** The two parts of a secret around the marker, with another secret `c` between them. */
  lemma {:induction false} ReplaceBetween(u: string, c: char, w: string, t: string, mark: string)
    requires c !in t && c !in u && c !in w && |u| < |t| && |w| < |t|
    ensures ReplaceEach(u + [c] + w, [t, [c]], mark) == u + mark + w
  {
    hide Index, ReplaceAll;
    var raw := u + [c] + w;
    ShorterNoOccurrence(u, t);
    ShorterNoOccurrence(w, t);
    OccursBesideCutAnywhere(u, c, w, t);
    ReplaceAllAbsent(raw, t, mark);
    ReplaceChar(u, c, w, mark);
    ReplaceTwo(raw, t, [c], mark);
  }

  lemma {:induction false} ReplaceTwo(text: string, t: string, z: string, mark: string)
    requires t != "" && z != ""
    ensures ReplaceEach(text, [t, z], mark) == ReplaceAll(ReplaceAll(text, t, mark), z, mark)
  {
    hide ReplaceAll;
    var once := ReplaceAll(text, t, mark);
    assert [t, z][1..] == [z] && [z][1..] == [];
    assert ReplaceEach(once, [z], mark) == ReplaceEach(ReplaceAll(once, z, mark), [], mark);
  }

  function LeftPart(t: string, d: int): string
    requires -|t| < d
  {
    t[..if d < 0 then -d else 0]
  }

  function RightPart(t: string, mark: string, d: int): string
    requires d < |mark|
  {
    t[if d + |t| > |mark| then |mark| - d else |t|..]
  }

  lemma {:induction false} OccursOverMark(t: string, mark: string, d: int)
    requires -|t| < d < |mark| && Agrees(t, mark, d)
    ensures Occurs(LeftPart(t, d) + mark + RightPart(t, mark, d), t)
  {
    var u, w := LeftPart(t, d), RightPart(t, mark, d);
    var out := u + mark + w;
    var at := |u| + d;
    forall k | 0 <= k < |t|
      ensures out[at + k] == t[k]
    {
      if k < |u| {
        assert out[at + k] == u[k];
      } else if k < |t| - |w| {
        assert out[at + k] == mark[k + d];
      } else {
        assert out[at + k] == w[k - (|t| - |w|)];
      }
    }
    OccursPointwise(out, t, at);
  }

  lemma {:induction false} PartsAreClean(t: string, d: int, c: char)
    requires CleanEnds(t, IsSpace) && -|t| < d < |MARKER| && !IsSpace(c)
    ensures CleanEnds(LeftPart(t, d) + [c] + RightPart(t, MARKER, d), IsSpace)
    ensures CleanEnds(LeftPart(t, d) + MARKER + RightPart(t, MARKER, d), IsSpace)
  {
    hide IsSpace;
    MarkerText();
  }

  lemma {:induction false} PartsWithoutPem(t: string, d: int, c: char)
    requires -|t| < d < |MARKER| && c !in PEM_HEAD && !Occurs(t, PEM_HEAD)
    ensures !Occurs(LeftPart(t, d) + [c] + RightPart(t, MARKER, d), PEM_HEAD)
  {
    var u, w := LeftPart(t, d), RightPart(t, MARKER, d);
    PartsLack(t, PEM_HEAD, 0, |u|);
    PartsLack(t, PEM_HEAD, |t| - |w|, |t|);
    assert t[0..|u|] == u && t[|t| - |w|..|t|] == w;
    assert PEM_HEAD[0] == '-';
    OccursBesideCutAnywhere(u, c, w, PEM_HEAD);
  }

  /** A secret that sticks out of the marker shows when a shorter secret is replaced where the marker would be. */
  lemma {:induction false} StickingOutShows(t: string, d: int, c: char, pem: string -> string)
    returns (req: Request, secrets: seq<string>, raw: string)
    requires CleanEnds(t, IsSpace) && -|t| < d < |MARKER| && Agrees(t, MARKER, d)
    requires d < 0 || d + |t| > |MARKER|
    requires c !in t && !IsSpace(c) && c !in PEM_HEAD && !Occurs(t, PEM_HEAD) && RewritesPemOnly(pem)
    ensures Collects(req, secrets) && t in secrets && Occurs(RedactText(raw, secrets, pem), t)
  {
    hide Occurs, ReplaceEach, Collects, IsSpace, Agrees, TrimSpace;
    req, secrets := SecretsOfRequest(t, [c]);
    var u, w := LeftPart(t, d), RightPart(t, MARKER, d);
    raw := u + [c] + w;
    PartsWithoutPem(t, d, c);
    PartsAreClean(t, d, c);
    ReplaceBetween(u, c, w, t, MARKER);
    CleanTexts(raw);
    CleanTexts(u + MARKER + w);
    OccursOverMark(t, MARKER, d);
  }

  lemma {:induction false} CleanTexts(s: string)
    requires CleanEnds(s, IsSpace)
    ensures TrimSpace(s) == s
  {
    TrimCleanText(s, IsSpace);
  }

  /**
    A trimmed secret without PEM material is safe in every request and every text exactly when it
    cannot be laid over the marker. (`c` is any printable character it lacks.)
   */
  lemma {:induction false} RedactionIsExact(t: string, c: char, pem: string -> string)
    requires t != "" && CleanEnds(t, IsSpace) && !Occurs(t, PEM_HEAD) && RewritesPemOnly(pem)
    requires c !in t && !IsSpace(c) && c !in PEM_HEAD
    ensures NeverShown(t, pem) <==> !Overlaps(t, MARKER)
  {
    hide Collects, RedactText, RewritesPemOnly;
    if Overlaps(t, MARKER) {
      var d :| -|t| < d < |MARKER| && Agrees(t, MARKER, d);
      if 0 <= d && d + |t| <= |MARKER| {
        var req, secrets := InsideMarkerShows(t, d, pem);
        assert !NeverShown(t, pem);
      } else {
        var req, secrets, raw := StickingOutShows(t, d, c, pem);
        assert !NeverShown(t, pem);
      }
    } else {
      SafeIfApart(t, pem);
    }
  }

  lemma {:induction false} SafeIfApart(t: string, pem: string -> string)
    requires t != "" && !Overlaps(t, MARKER)
    ensures NeverShown(t, pem)
  {
    hide Overlaps, RedactText, Collects;
    forall req: Request, secrets: seq<string>, raw: string | Collects(req, secrets) && t in secrets
      ensures !Occurs(RedactText(raw, secrets, pem), t)
    {
      SecretNeverShown(raw, secrets, pem, t);
    }
  }

  lemma {:induction false} BracketsPin(t: string, d: int)
    requires -|t| < d < |MARKER| && '[' !in t && ']' !in t
    ensures Agrees(t, MARKER, d) ==> 0 < d && d + |t| <= 9
  {
    MarkerText();
    if d <= 0 {
      assert t[-d] != MARKER[-d + d];
    } else if d + |t| > 9 {
      assert t[9 - d] != MARKER[9 - d + d];
    }
  }

  /** A secret without brackets can only be laid over the marker inside the word between them. */
  lemma {:induction false} BracketFreeOverlap(t: string)
    requires t != "" && '[' !in t && ']' !in t
    ensures Overlaps(t, MARKER) <==> Occurs("REDACTED", t)
  {
    MarkerText();
    var word := "REDACTED";
    assert |word| == 8;
    assert forall k :: 0 <= k < 8 ==> MARKER[k + 1] == word[k];
    if Overlaps(t, MARKER) {
      var d :| -|t| < d < |MARKER| && Agrees(t, MARKER, d);
      BracketsPin(t, d);
      OccursPointwise(word, t, d - 1);
    }
    if Occurs(word, t) {
      var i :| OccursAt(word, t, i);
      OccursPointwise(word, t, i);
      assert Agrees(t, MARKER, i + 1);
    }
  }

  /** For secrets without brackets the only unsafe ones are parts of the word "REDACTED". */
  lemma {:induction false} BracketFreeIsExact(t: string, pem: string -> string)
    requires t != "" && CleanEnds(t, IsSpace) && '[' !in t && ']' !in t && RewritesPemOnly(pem)
    ensures NeverShown(t, pem) <==> !Occurs("REDACTED", t)
  {
    hide Collects, RedactText, RewritesPemOnly, Overlaps;
    BracketFreeOverlap(t);
    if Occurs("REDACTED", t) {
      var i :| OccursAt("REDACTED", t, i);
      MarkerText();
      OccursPointwise("REDACTED", t, i);
      var req, secrets := InsideMarkerShows(t, i + 1, pem);
      assert !NeverShown(t, pem);
    } else {
      SafeIfApart(t, pem);
    }
  }

  // ---------- what redaction leaves alone ----------

  /** A second run of the loop changes nothing. */
  lemma {:induction false} LoopIdempotent(text: string, secrets: seq<string>, mark: string)
    requires forall t :: t in secrets ==> t != "" && !Overlaps(t, mark)
    ensures ReplaceEach(ReplaceEach(text, secrets, mark), secrets, mark) == ReplaceEach(text, secrets, mark)
  {
    hide Overlaps;
    var out := ReplaceEach(text, secrets, mark);
    forall t | t in secrets
      ensures !Occurs(out, t)
    {
      ReplaceEachClears(text, secrets, mark, t);
    }
    NothingToReplace(out, secrets, mark);
  }

  lemma {:induction false} NothingToReplace(text: string, secrets: seq<string>, mark: string)
    requires forall t :: t in secrets ==> t != "" && !Occurs(text, t)
    ensures ReplaceEach(text, secrets, mark) == text
    decreases |secrets|
  {
    hide Occurs;
    if secrets != [] {
      assert secrets[0] in secrets && forall t :: t in secrets[1..] ==> t in secrets;
      ReplaceAllAbsent(text, secrets[0], mark);
      NothingToReplace(text, secrets[1..], mark);
    }
  }

  /** What stands between the replaced occurrences, left to right. */
  function Gaps(s: string, t: string): (gaps: seq<string>)
    requires t != ""
    ensures gaps != []
    decreases |s|
  {
    var i := Index(s, t);
    if i < 0 then [s] else [s[..i]] + Gaps(s[i + |t|..], t)
  }

  /** Replacing keeps every character that is not part of a replaced occurrence, in order. */
  lemma {:induction false} ReplacingKeepsTheRest(s: string, t: string, mark: string)
    requires t != ""
    ensures Join(Gaps(s, t), t) == s && Join(Gaps(s, t), mark) == ReplaceAll(s, t, mark)
    ensures forall g :: g in Gaps(s, t) ==> !Occurs(g, t)
    decreases |s|
  {
    hide Index;
    var i := Index(s, t);
    if i >= 0 {
      var rest := s[i + |t|..];
      ReplacingKeepsTheRest(rest, t, mark);
      BeforeFirst(s, t, i);
      assert Gaps(s, t)[1..] == Gaps(rest, t);
      assert s == s[..i] + t + rest;
    }
  }

  // ---------- what all passes together keep ----------

  /** The first occurrence beside a marker the text cannot be laid over. */
  lemma {:induction false} IndexBesideMark(x: string, mark: string, y: string, t: string)
    requires t != "" && !Overlaps(t, mark)
    ensures Index(x + mark + y, t)
         == if Occurs(x, t) then Index(x, t) else if Occurs(y, t) then |x| + |mark| + Index(y, t) else -1
  {
    hide Index;
    var s := x + mark + y;
    forall i: nat
      ensures OccursAt(s, t, i) <==> OccursAt(x, t, i) || (i >= |x| + |mark| && OccursAt(y, t, i - |x| - |mark|))
    {
      if OccursAt(s, t, i) {
        OccurrenceAroundMark(x, mark, y, t, i);
      }
      if OccursAt(x, t, i) {
        OccursLeft(x, mark + y, t, i);
        assert s == x + (mark + y);
      }
      if i >= |x| + |mark| {
        OccursRight(x + mark, y, t, i);
      }
    }
    if Occurs(x, t) {
      IndexIsFirst(s, t, Index(x, t));
    } else if Occurs(y, t) {
      IndexIsFirst(s, t, |x| + |mark| + Index(y, t));
    }
  }

  lemma {:induction false} ReplacesOnBothSides(x: string, mark: string, y: string, t: string)
    requires t != "" && !Overlaps(t, mark)
    ensures ReplaceAll(x + mark + y, t, mark) == ReplaceAll(x, t, mark) + mark + ReplaceAll(y, t, mark)
    decreases |x|
  {
    hide Index, Overlaps, Occurs, ReplaceAll;
    var s := x + mark + y;
    IndexBesideMark(x, mark, y, t);
    ReplaceAllStep(s, t, mark);
    ReplaceAllStep(x, t, mark);
    ReplaceAllStep(y, t, mark);
    if Occurs(x, t) {
      var i := Index(x, t);
      assert s[..i] == x[..i] && s[i + |t|..] == x[i + |t|..] + mark + y;
      ReplacesOnBothSides(x[i + |t|..], mark, y, t);
      Regrouped(x[..i], mark, ReplaceAll(x[i + |t|..], t, mark), ReplaceAll(y, t, mark));
    } else if Occurs(y, t) {
      var j := Index(y, t);
      assert s[..|x| + |mark| + j] == x + mark + y[..j] && s[|x| + |mark| + j + |t|..] == y[j + |t|..];
    }
  }

  lemma Regrouped(a: string, mark: string, b: string, c: string)
    ensures a + mark + (b + mark + c) == a + mark + b + mark + c
  {
  }

  /** Pieces with cuts between them. */
  function Weave(gaps: seq<string>, cuts: seq<string>): string
    requires |gaps| == |cuts| + 1
  {
    if cuts == [] then gaps[0] else gaps[0] + cuts[0] + Weave(gaps[1..], cuts[1..])
  }

  /** `text` is made of pieces with secrets between them, and `out` of the same pieces with the marker between them. */
  predicate CutsOut(text: string, out: string, secrets: seq<string>, mark: string, gaps: seq<string>, cuts: seq<string>) {
    |gaps| == |cuts| + 1 && text == Weave(gaps, cuts) && out == Join(gaps, mark) && forall c :: c in cuts ==> c in secrets
  }

  lemma {:induction false} WeaveSame(gaps: seq<string>, t: string) returns (cuts: seq<string>)
    requires gaps != []
    ensures |gaps| == |cuts| + 1 && Weave(gaps, cuts) == Join(gaps, t) && forall c :: c in cuts ==> c == t
  {
    if |gaps| == 1 {
      cuts := [];
    } else {
      var rest := WeaveSame(gaps[1..], t);
      cuts := [t] + rest;
      assert cuts[1..] == rest;
    }
  }

  lemma {:induction false} WeaveAppend(a: seq<string>, ca: seq<string>, c: string, b: seq<string>, cb: seq<string>)
    requires |a| == |ca| + 1 && |b| == |cb| + 1
    ensures Weave(a + b, ca + [c] + cb) == Weave(a, ca) + c + Weave(b, cb)
  {
    var all, cuts := a + b, ca + [c] + cb;
    if ca == [] {
      assert cuts[1..] == cb && all[1..] == b;
    } else {
      assert cuts[1..] == ca[1..] + [c] + cb && all[1..] == a[1..] + b;
      WeaveAppend(a[1..], ca[1..], c, b, cb);
    }
  }

  lemma {:induction false} JoinAppend(a: seq<string>, b: seq<string>, sep: string)
    requires a != [] && b != []
    ensures Join(a + b, sep) == Join(a, sep) + sep + Join(b, sep)
  {
    assert (a + b)[1..] == a[1..] + b;
    if |a| > 1 {
      JoinAppend(a[1..], b, sep);
    }
  }

  /** One pass over text that already holds markers: each piece is cut further. */
  lemma {:induction false} PassCuts(gaps: seq<string>, cuts: seq<string>, t: string, mark: string)
    returns (finer: seq<string>, more: seq<string>)
    requires |gaps| == |cuts| + 1 && t != "" && !Overlaps(t, mark)
    ensures |finer| == |more| + 1 && Weave(finer, more) == Weave(gaps, cuts)
    ensures Join(finer, mark) == ReplaceAll(Join(gaps, mark), t, mark)
    ensures forall c :: c in more ==> c == t || c in cuts
    decreases |gaps|
  {
    hide Overlaps, ReplaceAll, Gaps;
    ReplacingKeepsTheRest(gaps[0], t, mark);
    var first := Gaps(gaps[0], t);
    var inFirst := WeaveSame(first, t);
    if cuts == [] {
      finer, more := first, inFirst;
    } else {
      var behind, inBehind := PassCuts(gaps[1..], cuts[1..], t, mark);
      finer, more := first + behind, inFirst + [cuts[0]] + inBehind;
      WeaveAppend(first, inFirst, cuts[0], behind, inBehind);
      JoinAppend(first, behind, mark);
      ReplacesOnBothSides(gaps[0], mark, Join(gaps[1..], mark), t);
    }
  }

  lemma {:induction false} PassesCut(text: string, gaps: seq<string>, cuts: seq<string>, all: seq<string>,
                                     rest: seq<string>, mark: string)
    returns (finer: seq<string>, more: seq<string>)
    requires CutsOut(text, Join(gaps, mark), all, mark, gaps, cuts)
    requires forall t :: t in rest ==> t in all && t != "" && !Overlaps(t, mark)
    ensures CutsOut(text, ReplaceEach(Join(gaps, mark), rest, mark), all, mark, finer, more)
    decreases |rest|
  {
    hide Overlaps, ReplaceAll;
    if rest == [] {
      finer, more := gaps, cuts;
    } else {
      assert rest[0] in rest && forall t :: t in rest[1..] ==> t in rest;
      var g, c := PassCuts(gaps, cuts, rest[0], mark);
      finer, more := PassesCut(text, g, c, all, rest[1..], mark);
    }
  }

  /**
    Whatever the order of the passes: when no secret can be laid over the marker, the loop cuts secrets out of the
    text and puts a marker in the place of each, and every other character stays, in its place.
   */
  lemma {:induction false} LoopCutsSecrets(text: string, secrets: seq<string>, mark: string)
    requires forall t :: t in secrets ==> t != "" && !Overlaps(t, mark)
    ensures exists gaps, cuts :: CutsOut(text, ReplaceEach(text, secrets, mark), secrets, mark, gaps, cuts)
  {
    hide Overlaps, ReplaceEach;
    assert Join([text], mark) == text && Weave([text], []) == text;
    var gaps, cuts := PassesCut(text, [text], [], secrets, secrets, mark);
  }

  // ---------- which values are secrets ----------

  /** The nine words that make a key sensitive, anywhere in it and in any capitals. */
  lemma {:induction false} SensitiveKeys(raw: string)
    ensures IsSensitiveKey(raw) <==>
      var key := ToLower(TrimSpace(raw));
      || Occurs(key, "secret") || Occurs(key, "token") || Occurs(key, "password") || Occurs(key, "passwd")
      || Occurs(key, "private") || Occurs(key, "cert") || Occurs(key, "key") || Occurs(key, "pem") || Occurs(key, "ca")
  {
    hide TrimSpace, ToLower, Occurs;
    OneOfNine(ToLower(TrimSpace(raw)), "secret", "token", "password", "passwd", "private", "cert", "key", "pem", "ca");
  }

  lemma {:induction false} OneOfNine(s: string, a: string, b: string, c: string, d: string, e: string, f: string,
                                     g: string, h: string, i: string)
    requires "" !in [a, b, c, d, e, f, g, h, i]
    ensures (s != "" && exists p :: p in [a, b, c, d, e, f, g, h, i] && Contains(s, p)) <==>
      || Occurs(s, a) || Occurs(s, b) || Occurs(s, c) || Occurs(s, d) || Occurs(s, e) || Occurs(s, f) || Occurs(s, g) || Occurs(s, h)
      || Occurs(s, i)
  {
    hide Occurs;
    var words := [a, b, c, d, e, f, g, h, i];
    forall p | p in words
      ensures s == "" ==> !Occurs(s, p)
    {
      ShorterNoOccurrence("", p);
    }
    assert words[0] == a && words[1] == b && words[2] == c && words[3] == d && words[4] == e;
    assert words[5] == f && words[6] == g && words[7] == h && words[8] == i;
    forall k | 0 <= k < 9 && Occurs(s, words[k])
      ensures s != "" && exists p :: p in words && Contains(s, p)
    {
      assert words[k] in words && Contains(s, words[k]);
    }
    if s != "" && exists p :: p in words && Contains(s, p) {
      var p :| p in words && Contains(s, p);
      var k :| 0 <= k < 9 && words[k] == p;
      assert Occurs(s, words[k]);
    }
  }

  /** A value is sensitive by itself if it holds a PEM header, or 32 characters or more without a blank, tab or line end. */
  lemma {:induction false} SensitiveValues(raw: string)
    ensures LooksSensitive(raw) <==>
      var value := TrimSpace(raw);
      || Occurs(value, "-----BEGIN ")
      || (|value| >= 32 && forall i :: 0 <= i < |value| ==> value[i] != ' ' && value[i] != '\t' && value[i] != '\r' && value[i] != '\n')
  {
    hide TrimSpace;
    var value := TrimSpace(raw);
    ShorterNoOccurrence("", PEM_HEAD);
  }

  /** The secrets of a request are the trimmed nonblank values under sensitive keys, and the sensitive ones under any key. */
  lemma {:induction false} SecretsAreExact(values: map<string, string>, t: string)
    ensures SecretOf(values, t) <==>
      t != "" && exists key :: key in values && TrimSpace(values[key]) == t && (IsSensitiveKey(key) || LooksSensitive(values[key]))
  {
    hide IsSensitiveKey, LooksSensitive, TrimSpace;
    if SecretOf(values, t) {
      var key :| Holds(values, key, t);
    }
    if t != "" && exists key :: key in values && TrimSpace(values[key]) == t && (IsSensitiveKey(key) || LooksSensitive(values[key])) {
      var key :| key in values && TrimSpace(values[key]) == t && (IsSensitiveKey(key) || LooksSensitive(values[key]));
      assert Holds(values, key, t);
    }
  }

  // ---------- the tie order ----------

  /** Some proper ending of `a` is a beginning of `b`. */
  predicate RunsInto(a: string, b: string) {
    exists n :: 0 < n < |a| && n <= |b| && a[|a| - n..] == b[..n]
  }

  /** Nothing of `t` begins in front of the cut. */
  predicate BeginsLater(u: string, y: string, t: string) {
    forall i :: 0 <= i < |u| ==> !OccursAt(u + y, t, i)
  }

  lemma {:induction false} LaterIsRest(u: string, y: string, t: string, i: int)
    requires i >= |u|
    ensures OccursAt(u + y, t, i) <==> OccursAt(y, t, i - |u|)
  {
    var s := u + y;
    if i + |t| <= |s| {
      assert s[i..i + |t|] == y[i - |u|..i - |u| + |t|];
    }
  }

  lemma {:induction false} IndexIsWhole(u: string, y: string, t: string)
    requires t != "" && BeginsLater(u, y, t)
    ensures Index(u + y, t) == if Index(y, t) < 0 then -1 else |u| + Index(y, t)
  {
    hide OccursAt;
    var i := Index(y, t);
    forall k: int
      ensures OccursAt(u + y, t, k) ==> k >= |u| && OccursAt(y, t, k - |u|)
    {
      NotBeforeStart(u + y, t, k);
      if k >= |u| {
        LaterIsRest(u, y, t, k);
      }
    }
    if i >= 0 {
      LaterIsRest(u, y, t, |u| + i);
      IndexIsFirst(u + y, t, |u| + i);
    }
  }

  lemma {:induction false} NotBeforeStart(s: string, t: string, k: int)
    ensures OccursAt(s, t, k) ==> k >= 0
  {
  }

  lemma {:induction false} ReplaceAllStep(s: string, t: string, mark: string)
    requires t != ""
    ensures var i := Index(s, t);
      ReplaceAll(s, t, mark) == if i < 0 then s else s[..i] + mark + ReplaceAll(s[i + |t|..], t, mark)
  {
  }

  /** A part in front where nothing begins stays as it is. */
  lemma {:induction false} FrontStays(u: string, y: string, t: string, mark: string)
    requires t != "" && BeginsLater(u, y, t)
    ensures ReplaceAll(u + y, t, mark) == u + ReplaceAll(y, t, mark)
  {
    hide Index, BeginsLater, ReplaceAll;
    IndexIsWhole(u, y, t);
    ReplaceAllStep(u + y, t, mark);
    ReplaceAllStep(y, t, mark);
    var i := Index(y, t);
    if i >= 0 {
      var s := u + y;
      var tail := ReplaceAll(y[i + |t|..], t, mark);
      assert s[..|u| + i] == u + y[..i];
      assert s[|u| + i + |t|..] == y[i + |t|..];
      assert u + y[..i] + mark + tail == u + (y[..i] + mark + tail);
    }
  }

  /** Behind a part without `t` and the marker. */
  lemma {:induction false} LaterThanMark(p: string, mark: string, y: string, t: string)
    requires t != "" && !Overlaps(t, mark) && !Occurs(p, t)
    ensures BeginsLater(p + mark, y, t)
  {
    forall i | 0 <= i < |p + mark|
      ensures !OccursAt(p + mark + y, t, i)
    {
      if OccursAt(p + mark + y, t, i) {
        OccurrenceAroundMark(p, mark, y, t, i);
      }
    }
  }

  /** Behind a part without `b` and an `a` that `b` neither is nor meets. */
  lemma {:induction false} LaterThanOther(p: string, a: string, y: string, b: string)
    requires |a| == |b| > 0 && a != b && !RunsInto(a, b) && !RunsInto(b, a) && !Occurs(p, b)
    ensures BeginsLater(p + a, y, b)
  {
    var s := p + a + y;
    forall i: nat | i < |p + a|
      ensures !OccursAt(s, b, i)
    {
      if i + |b| <= |p| {
        assert i + |b| <= |s| ==> s[i..i + |b|] == p[i..i + |b|];
        assert !OccursAt(p, b, i);
      } else if i + |b| <= |s| {
        MeetingOther(p, a, y, b, i);
      }
    }
  }

  lemma {:induction false} MeetingOther(p: string, a: string, y: string, b: string, i: nat)
    requires |a| == |b| > 0 && a != b && !RunsInto(a, b) && !RunsInto(b, a)
    requires i < |p + a| && i + |b| > |p| && i + |b| <= |p + a + y|
    ensures !OccursAt(p + a + y, b, i)
  {
    var s := p + a + y;
    var part := s[i..i + |b|];
    if i <= |p| {
      var n := i + |b| - |p|;
      assert part[|b| - n..] == s[|p|..|p| + n] == a[..n];
      assert n == |b| ==> part == a && b[|b| - n..] == b && a[..n] == a;
    } else {
      var n := |p| + |a| - i;
      assert part[..n] == s[i..|p| + |a|] == a[|a| - n..];
    }
  }

  /** Two secrets that never meet can be replaced in either order. */
  lemma {:induction false} ApartSecretsCommute(s: string, a: string, b: string, mark: string)
    requires |a| == |b| > 0 && a != b && !RunsInto(a, b) && !RunsInto(b, a)
    requires !Overlaps(a, mark) && !Overlaps(b, mark)
    ensures ReplaceAll(ReplaceAll(s, a, mark), b, mark) == ReplaceAll(ReplaceAll(s, b, mark), a, mark)
    decreases |s|
  {
    hide Index, RunsInto, Overlaps, ReplaceAll;
    var i, j := Index(s, a), Index(s, b);
    if i < 0 && j < 0 {
      ReplaceAllAbsent(s, a, mark);
      ReplaceAllAbsent(s, b, mark);
    } else if i >= 0 && (j < 0 || i <= j) {
      FirstOfTwo(s, a, b, mark);
      ApartSecretsCommute(s[i + |a|..], a, b, mark);
    } else {
      FirstOfTwo(s, b, a, mark);
      ApartSecretsCommute(s[j + |b|..], a, b, mark);
    }
  }

  lemma {:induction false} CutAtFirst(s: string, a: string, b: string)
    requires a != "" && b != "" && Index(s, a) >= 0 && (Index(s, b) < 0 || Index(s, a) <= Index(s, b))
    ensures var i := Index(s, a);
      i + |a| <= |s| && s[i..i + |a|] == a && s == s[..i] + a + s[i + |a|..] && !Occurs(s[..i], a) && !Occurs(s[..i], b)
  {
    var i := Index(s, a);
    assert s == s[..i] + a + s[i + |a|..];
    BeforeFirst(s, a, i);
    BeforeFirst(s, b, i);
  }

  /** When `a` comes first, both orders replace it there and go on behind it. */
  lemma {:induction false} FirstOfTwo(s: string, a: string, b: string, mark: string)
    requires |a| == |b| > 0 && a != b && !RunsInto(a, b) && !RunsInto(b, a)
    requires !Overlaps(a, mark) && !Overlaps(b, mark)
    requires Index(s, a) >= 0 && (Index(s, b) < 0 || Index(s, a) <= Index(s, b))
    ensures var i := Index(s, a); var rest := s[i + |a|..];
      && ReplaceAll(ReplaceAll(s, a, mark), b, mark) == s[..i] + mark + ReplaceAll(ReplaceAll(rest, a, mark), b, mark)
      && ReplaceAll(ReplaceAll(s, b, mark), a, mark) == s[..i] + mark + ReplaceAll(ReplaceAll(rest, b, mark), a, mark)
  {
    hide RunsInto, Overlaps, ReplaceAll, Index, OccursAt, BeginsLater;
    var i := Index(s, a);
    CutAtFirst(s, a, b);
    var p, rest := s[..i], s[i + |a|..];
    var doneA, doneB := ReplaceAll(rest, a, mark), ReplaceAll(rest, b, mark);
    ReplaceAllStep(s, a, mark);
    LaterThanMark(p, mark, doneA, b);
    FrontStays(p + mark, doneA, b, mark);
    LaterThanOther(p, a, rest, b);
    FrontStays(p + a, rest, b, mark);
    StillFirst(s, p, a, doneB, i);
    var t := p + a + doneB;
    ReplaceAllStep(t, a, mark);
    assert t[..i] == p && t[i + |a|..] == doneB;
  }

  /** The first occurrence does not depend on what follows it. */
  lemma {:induction false} StillFirst(s: string, p: string, a: string, tail: string, i: nat)
    requires a != "" && Index(s, a) == i && p == s[..i] && s[i..i + |a|] == a
    ensures Index(p + a + tail, a) == i
  {
    var t := p + a + tail;
    assert t[..i + |a|] == p + a == s[..i + |a|];
    forall k | 0 <= k < i
      ensures !OccursAt(t, a, k)
    {
      assert !OccursAt(s, a, k);
      assert t[k..k + |a|] == t[..i + |a|][k..k + |a|] == s[..i + |a|][k..k + |a|] == s[k..k + |a|];
    }
    assert t[i..i + |a|] == a;
    IndexIsFirst(t, a, i);
  }

  /** A text in which `a` runs into `b`: the one replaced first wins. */
  lemma {:induction false} MeetingSecretsDiffer(a: string, b: string) returns (s: string)
    requires |a| == |b| > 0 && a != b && RunsInto(a, b) && !Overlaps(a, MARKER) && !Overlaps(b, MARKER)
    ensures ReplaceAll(ReplaceAll(s, a, MARKER), b, MARKER) != ReplaceAll(ReplaceAll(s, b, MARKER), a, MARKER)
  {
    hide Overlaps, ReplaceAll, Index, Occurs;
    var n :| 0 < n < |a| && n <= |b| && a[|a| - n..] == b[..n];
    var y := b[n..];
    s := a + y;
    MarkerText();
    // `a` first: nothing of `b` is left whole.
    ReplaceAtStart(a, y, MARKER);
    ShorterNoOccurrence(y, a);
    ReplaceAllAbsent(y, a, MARKER);
    ShorterNoOccurrence(y, b);
    ShorterNoOccurrence("", b);
    MarkSeparates("", MARKER, y, b);
    assert "" + MARKER + y == MARKER + y;
    ReplaceAllAbsent(MARKER + y, b, MARKER);
    // `b` first: it is replaced somewhere behind the start.
    assert s[|a| - n..|a| - n + |b|] == b by {
      assert s == a[..|a| - n] + b;
    }
    var i := SecondOnly(s, a, y, b, |a| - n);
    var p, rest := s[..i], s[i + |b|..];
    ShorterNoOccurrence(p, a);
    ShorterNoOccurrence(rest, a);
    MarkSeparates(p, MARKER, rest, a);
    ReplaceAllAbsent(p + MARKER + rest, a, MARKER);
    MarkerLater(a, p, y, rest);
  }

  lemma {:induction false} ReplaceAtStart(a: string, y: string, mark: string)
    requires a != ""
    ensures ReplaceAll(a + y, a, mark) == mark + ReplaceAll(y, a, mark)
  {
    hide Index, ReplaceAll;
    var s := a + y;
    assert s[0..|a|] == a;
    IndexIsFirst(s, a, 0);
    ReplaceAllStep(s, a, mark);
    assert s[..0] == "" && s[0 + |a|..] == y;
    assert "" + mark + ReplaceAll(y, a, mark) == mark + ReplaceAll(y, a, mark);
  }

  /** `b` is replaced once in a text too short for two of them, and not at its start. */
  lemma {:induction false} SecondOnly(s: string, a: string, y: string, b: string, at: nat) returns (i: nat)
    requires s == a + y && |a| == |b| > 0 && a != b && |y| < |b| && OccursAt(s, b, at)
    ensures 0 < i && i + |b| <= |s| && i <= |y| && ReplaceAll(s, b, MARKER) == s[..i] + MARKER + s[i + |b|..]
    ensures i < |a| && |s[i + |b|..]| < |b|
  {
    assert Occurs(s, b);
    i := Index(s, b);
    assert OccursAt(s, b, i);
    assert s[0..|a|] == a;
    var rest := s[i + |b|..];
    ShorterNoOccurrence(rest, b);
    ReplaceAllAbsent(rest, b, MARKER);
  }

  /** The marker at the start and the marker further on give different texts, for a secret that does not begin with it. */
  lemma {:induction false} MarkerLater(a: string, p: string, y: string, rest: string)
    requires p != "" && |p| < |a| && p == a[..|p|] && !Overlaps(a, MARKER)
    ensures MARKER + y != p + MARKER + rest
  {
    MarkerText();
    var x, z := MARKER + y, p + MARKER + rest;
    assert z[|p|] == '[';
    assert forall k :: 0 <= k < |p| ==> z[k] == a[k];
    assert forall k :: 0 < k < 10 ==> MARKER[k] != '[';
    assert !Agrees(a, MARKER, 0);
    var k :| 0 <= k < |a| && 0 <= k + 0 < |MARKER| && a[k] != MARKER[k + 0];
    assert |p| < 10 ==> x[|p|] == MARKER[|p|];
    assert x[k] == MARKER[k];
    assert k < |p| ==> z[k] == a[k];
    assert |p| <= k ==> x[|p|] != z[|p|];
    assert x != z;
  }

  /**
    For two secrets of equal length that cannot be laid over the marker, map order never shows exactly when
    neither runs into the other.
   */
  lemma {:induction false} TieOrderIsExact(a: string, b: string)
    requires |a| == |b| > 0 && a != b && !Overlaps(a, MARKER) && !Overlaps(b, MARKER)
    ensures (forall s :: ReplaceEach(s, [a, b], MARKER) == ReplaceEach(s, [b, a], MARKER))
       <==> !RunsInto(a, b) && !RunsInto(b, a)
  {
    hide RunsInto, Overlaps, ReplaceAll, ReplaceEach;
    forall s
      ensures ReplaceEach(s, [a, b], MARKER) == ReplaceAll(ReplaceAll(s, a, MARKER), b, MARKER)
      ensures ReplaceEach(s, [b, a], MARKER) == ReplaceAll(ReplaceAll(s, b, MARKER), a, MARKER)
    {
      ReplaceTwo(s, a, b, MARKER);
      ReplaceTwo(s, b, a, MARKER);
    }
    if RunsInto(a, b) {
      var s := MeetingSecretsDiffer(a, b);
      assert ReplaceEach(s, [a, b], MARKER) != ReplaceEach(s, [b, a], MARKER);
    } else if RunsInto(b, a) {
      var s := MeetingSecretsDiffer(b, a);
      assert ReplaceEach(s, [a, b], MARKER) != ReplaceEach(s, [b, a], MARKER);
    } else {
      forall s
        ensures ReplaceEach(s, [a, b], MARKER) == ReplaceEach(s, [b, a], MARKER)
      {
        ApartSecretsCommute(s, a, b, MARKER);
      }
    }
  }

  /** `x` can trade places with each secret in front of it. */
  predicate Trades(front: seq<string>, x: string, mark: string) {
    && x != "" && !Overlaps(x, mark)
    && forall y :: y in front ==> |y| == |x| && y != x && !RunsInto(x, y) && !RunsInto(y, x) && !Overlaps(y, mark)
  }

  lemma {:induction false} FirstReplaced(text: string, x: string, rest: seq<string>, mark: string)
    requires x != ""
    ensures ReplaceEach(text, [x] + rest, mark) == ReplaceEach(ReplaceAll(text, x, mark), rest, mark)
  {
    hide ReplaceAll;
    assert ([x] + rest)[1..] == rest;
  }

  lemma {:induction false} MoveToFront(text: string, front: seq<string>, x: string, rest: seq<string>, mark: string)
    requires Trades(front, x, mark)
    ensures ReplaceEach(text, front + [x] + rest, mark) == ReplaceEach(text, [x] + (front + rest), mark)
    decreases |front|
  {
    hide RunsInto, Overlaps, ReplaceAll, ReplaceEach;
    if front == [] {
      assert front + [x] + rest == [x] + (front + rest);
    } else {
      var y, less := front[0], front[1..];
      assert y in front && forall z :: z in less ==> z in front;
      assert front + [x] + rest == [y] + (less + [x] + rest) && front + rest == [y] + (less + rest);
      FirstReplaced(text, y, less + [x] + rest, mark);
      MoveToFront(ReplaceAll(text, y, mark), less, x, rest, mark);
      FirstReplaced(ReplaceAll(text, y, mark), x, less + rest, mark);
      FirstReplaced(text, x, front + rest, mark);
      FirstReplaced(ReplaceAll(text, x, mark), y, less + rest, mark);
      ApartSecretsCommute(text, x, y, mark);
    }
  }

  /** No two secrets of one length run into each other, and none can be laid over the marker. */
  predicate TiesApart(secrets: seq<string>, mark: string) {
    && (forall t :: t in secrets ==> t != "" && !Overlaps(t, mark))
    && forall a, b :: a in secrets && b in secrets && a != b && |a| == |b| ==> !RunsInto(a, b)
  }

  /** Two lists of the same secrets, longest first. */
  ghost predicate SameSecrets(xs: seq<string>, ys: seq<string>) {
    && Distinct(xs) && Distinct(ys) && Sorted(xs, LongerFirst) && Sorted(ys, LongerFirst)
    && forall t :: t in xs <==> t in ys
  }

  lemma {:induction false} OrderDoesNotShow(text: string, xs: seq<string>, ys: seq<string>, mark: string)
    requires SameSecrets(xs, ys) && TiesApart(xs, mark)
    ensures ReplaceEach(text, xs, mark) == ReplaceEach(text, ys, mark)
    decreases |xs|
  {
    hide SameSecrets, TiesApart, Trades, ReplaceAll, ReplaceEach;
    if xs == [] || ys == [] {
      EmptyTogether(xs, ys);
    } else {
      var x := xs[0];
      var k := FirstIn(xs, ys);
      var front, rest := ys[..k], ys[k + 1..];
      assert ys == front + [x] + rest && xs == [x] + xs[1..];
      FrontTrades(xs, ys, k, mark);
      MoveToFront(text, front, x, rest, mark);
      TiesStayApart(xs, mark);
      FirstReplaced(text, x, xs[1..], mark);
      FirstReplaced(text, x, front + rest, mark);
      SameWithout(xs, ys, k);
      OrderDoesNotShow(ReplaceAll(text, x, mark), xs[1..], front + rest, mark);
    }
  }

  lemma {:induction false} EmptyTogether(xs: seq<string>, ys: seq<string>)
    requires SameSecrets(xs, ys)
    ensures xs == [] <==> ys == []
  {
    if xs != [] {
      assert xs[0] in xs;
    }
    if ys != [] {
      assert ys[0] in ys;
    }
  }

  lemma {:induction false} FirstIn(xs: seq<string>, ys: seq<string>) returns (k: nat)
    requires SameSecrets(xs, ys) && xs != []
    ensures k < |ys| && ys[k] == xs[0]
  {
    assert xs[0] in xs;
    k :| 0 <= k < |ys| && ys[k] == xs[0];
  }

  lemma {:induction false} TiesStayApart(xs: seq<string>, mark: string)
    requires TiesApart(xs, mark) && xs != []
    ensures TiesApart(xs[1..], mark) && xs[0] != ""
  {
    hide RunsInto, Overlaps;
    assert xs[0] in xs && forall t :: t in xs[1..] ==> t in xs;
  }

  lemma {:induction false} FrontTrades(xs: seq<string>, ys: seq<string>, k: nat, mark: string)
    requires SameSecrets(xs, ys) && TiesApart(xs, mark) && xs != [] && k < |ys| && ys[k] == xs[0]
    ensures Trades(ys[..k], xs[0], mark)
  {
    hide RunsInto, Overlaps;
    assert xs[0] in xs;
    forall y | y in ys[..k]
      ensures |y| == |xs[0]| && y != xs[0] && y in xs
    {
      var j :| 0 <= j < k && ys[j] == y;
      assert y in ys && LongerFirst(ys[j], ys[k]);
      var i :| 0 <= i < |xs| && xs[i] == y;
      assert i == 0 || LongerFirst(xs[0], xs[i]);
    }
  }

  lemma {:induction false} SameWithout(xs: seq<string>, ys: seq<string>, k: nat)
    requires SameSecrets(xs, ys) && xs != [] && k < |ys| && ys[k] == xs[0]
    ensures SameSecrets(xs[1..], ys[..k] + ys[k + 1..])
  {
    assert xs[..0] + xs[0 + 1..] == xs[1..];
    Without(xs, 0);
    Without(ys, k);
  }

  /** A list without one of its secrets. */
  lemma {:induction false} Without(ys: seq<string>, k: nat)
    requires Distinct(ys) && Sorted(ys, LongerFirst) && k < |ys|
    ensures var less := ys[..k] + ys[k + 1..];
      Distinct(less) && Sorted(less, LongerFirst) && forall t :: t in less <==> t in ys && t != ys[k]
  {
    var less := ys[..k] + ys[k + 1..];
    assert forall i :: 0 <= i < |less| ==> less[i] == if i < k then ys[i] else ys[i + 1];
    forall t
      ensures t in less <==> t in ys && t != ys[k]
    {
      if t in ys && t != ys[k] {
        var i :| 0 <= i < |ys| && ys[i] == t;
        assert less[if i < k then i else i - 1] == t;
      }
    }
  }

  /**
    Map order shows in no output of a request whose equally long secrets do not run into each other, when none of
    its secrets can be laid over the marker.
   */
  lemma {:induction false} MapOrderDoesNotShow(req: Request, one: seq<string>, two: seq<string>, raw: string,
                                               pem: string -> string)
    requires Collects(req, one) && Collects(req, two) && TiesApart(one, MARKER)
    ensures RedactText(raw, one, pem) == RedactText(raw, two, pem)
  {
    hide SecretOf, TiesApart, ReplaceEach, TrimSpace;
    OrderDoesNotShow(pem(TrimSpace(raw)), one, two, MARKER);
  }

  /** Secrets of equal length come in map order, and the output depends on it (never the completeness). */
  lemma {:induction false} TieOrderShows()
    returns (req: Request, ab: seq<string>, ba: seq<string>)
    ensures Collects(req, ab) && Collects(req, ba)
    ensures ReplaceEach("xyz", ab, MARKER) != ReplaceEach("xyz", ba, MARKER)
  {
    hide TrimSpace, IsSensitiveKey, LooksSensitive, ReplaceAll, Index;
    TokenAndKey();
    assert |"xy"| == 2 && |"yz"| == 2 && |"xyz"| == 3;
    CleanTexts("xy");
    CleanTexts("yz");
    req := Request(map["token" := "xy", "key" := "yz"], map[]);
    ab, ba := ["xy", "yz"], ["yz", "xy"];
    assert Holds(req.env, "token", "xy") && Holds(req.env, "key", "yz");
    assert Collects(req, ab) && Collects(req, ba);
    TieOutputs();
  }

  lemma {:induction false} TieOutputs()
    ensures ReplaceEach("xyz", ["xy", "yz"], MARKER) != ReplaceEach("xyz", ["yz", "xy"], MARKER)
  {
    hide ReplaceAll, Index;
    MarkerText();
    assert "xyz" == "" + "xy" + "z" && "xyz" == "x" + "yz" + "";
    ShorterNoOccurrence("z", "xy");
    ReplaceFirst("", "xy", "z", MARKER);
    ShorterNoOccurrence("", "yz");
    OccursPointwise("x" + "yz" + "", "yz", 0);
    assert ("x" + "yz" + "")[0 + 0] != "yz"[0];
    ReplaceFirst("x", "yz", "", MARKER);
    var one, two := "" + MARKER + "z", "x" + MARKER + "";
    assert 'y' !in MARKER;
    MissingCharNoOccurrence(one, "yz", 'y');
    MissingCharNoOccurrence(two, "xy", 'y');
    ReplaceAllAbsent(one, "yz", MARKER);
    ReplaceAllAbsent(two, "xy", MARKER);
    ReplaceTwo("xyz", "xy", "yz", MARKER);
    ReplaceTwo("xyz", "yz", "xy", MARKER);
    assert one[0] == '[' && two[0] == 'x';
  }
}
