/** Occurrences of a pattern in a text that is cut by a character the pattern does not contain. */
module Substrings {
  import opened GoStrings

  lemma {:induction false} OccursPointwise(s: string, t: string, i: nat)
    requires i + |t| <= |s|
    ensures OccursAt(s, t, i) <==> forall k :: 0 <= k < |t| ==> s[i + k] == t[k]
  {
    var part := s[i..i + |t|];
    assert forall k :: 0 <= k < |t| ==> part[k] == s[i + k];
  }

  /** An occurrence in front of the end of `x` is one in `x`. */
  lemma {:induction false} OccursLeft(x: string, y: string, t: string, i: nat)
    requires i + |t| <= |x|
    ensures OccursAt(x + y, t, i) <==> OccursAt(x, t, i)
  {
    assert (x + y)[i..i + |t|] == x[i..i + |t|];
  }

  /** An occurrence behind the beginning of `y` is one in `y`. */
  lemma {:induction false} OccursRight(x: string, y: string, t: string, i: nat)
    requires i >= |x|
    ensures OccursAt(x + y, t, i) <==> OccursAt(y, t, i - |x|)
  {
    if i + |t| <= |x + y| {
      assert (x + y)[i..i + |t|] == y[i - |x|..i - |x| + |t|];
    }
  }

  /** No occurrence covers a character the pattern does not have. */
  lemma {:induction false} NoOccurrenceOver(s: string, t: string, i: nat, k: nat)
    requires i <= k < i + |t| && k < |s| && s[k] !in t
    ensures !OccursAt(s, t, i)
  {
    if i + |t| <= |s| {
      OccursPointwise(s, t, i);
      assert t[k - i] in t && s[i + (k - i)] == s[k];
    }
  }

  /** An occurrence lies on one side of the cut. */
  lemma {:induction false} OccursBesideCut(x: string, c: char, y: string, t: string, i: nat)
    requires c !in t && t != ""
    ensures OccursAt(x + [c] + y, t, i) <==> OccursAt(x, t, i) || (i > |x| && OccursAt(y, t, i - |x| - 1))
  {
    hide OccursAt;
    var s := x + [c] + y;
    if i + |t| <= |x| {
      OccursLeft(x, [c] + y, t, i);
      assert s == x + ([c] + y);
    } else {
      TooLong(x, t, i);
      if i > |x| {
        OccursRight(x + [c], y, t, i);
      } else {
        assert s[|x|] == c;
        NoOccurrenceOver(s, t, i, |x|);
      }
    }
  }

  lemma {:induction false} TooLong(x: string, t: string, i: nat)
    requires i + |t| > |x|
    ensures !OccursAt(x, t, i)
  {
  }

  lemma {:induction false} OccursBesideCutAnywhere(x: string, c: char, y: string, t: string)
    requires c !in t && t != ""
    ensures Occurs(x + [c] + y, t) <==> Occurs(x, t) || Occurs(y, t)
  {
    var s := x + [c] + y;
    if Occurs(x, t) {
      var i :| OccursAt(x, t, i);
      OccursBesideCut(x, c, y, t, i);
    }
    if Occurs(y, t) {
      var i :| OccursAt(y, t, i);
      OccursBesideCut(x, c, y, t, i + |x| + 1);
      assert OccursAt(s, t, i + |x| + 1);
    }
    if Occurs(s, t) {
      var i :| OccursAt(s, t, i);
      OccursBesideCut(x, c, y, t, i);
    }
  }

  lemma {:induction false} IndexIsFirst(s: string, t: string, k: nat)
    requires OccursAt(s, t, k) && forall i :: 0 <= i < k ==> !OccursAt(s, t, i)
    ensures Index(s, t) == k
  {
  }

  /** The first occurrence in a cut text. */
  lemma {:induction false} IndexBesideCut(x: string, c: char, y: string, t: string)
    requires c !in t && t != ""
    ensures Index(x + [c] + y, t)
         == if Occurs(x, t) then Index(x, t) else if Occurs(y, t) then |x| + 1 + Index(y, t) else -1
  {
    hide Index;
    var s := x + [c] + y;
    OccursBesideCutAnywhere(x, c, y, t);
    forall i: nat
      ensures OccursAt(s, t, i) <==> OccursAt(x, t, i) || (i > |x| && OccursAt(y, t, i - |x| - 1))
    {
      OccursBesideCut(x, c, y, t, i);
    }
    if Occurs(x, t) {
      IndexIsFirst(s, t, Index(x, t));
    } else if Occurs(y, t) {
      IndexIsFirst(s, t, |x| + 1 + Index(y, t));
    }
  }

  /** The first occurrence in two texts that share none. */
  lemma {:induction false} IndexOfParts(w: string, z: string, t: string)
    requires forall i: nat :: OccursAt(w + z, t, i) <==> OccursAt(w, t, i) || (i >= |w| && OccursAt(z, t, i - |w|))
    ensures Index(w + z, t) == if Index(w, t) >= 0 then Index(w, t) else if Index(z, t) >= 0 then |w| + Index(z, t) else -1
  {
    hide Index;
    var s := w + z;
    if Index(w, t) >= 0 {
      IndexIsFirst(s, t, Index(w, t));
    } else if Index(z, t) >= 0 {
      assert OccursAt(s, t, |w| + Index(z, t));
      IndexIsFirst(s, t, |w| + Index(z, t));
    }
  }

  lemma {:induction false} ReplaceAllAbsent(s: string, old_: string, new_: string)
    requires old_ != "" && !Occurs(s, old_)
    ensures ReplaceAll(s, old_, new_) == s
  {
  }

  /** A text without a character of the pattern has no occurrence of it. */
  lemma {:induction false} MissingCharNoOccurrence(s: string, t: string, c: char)
    requires c in t && c !in s
    ensures !Occurs(s, t)
  {
    var k :| 0 <= k < |t| && t[k] == c;
    forall i: nat
      ensures !OccursAt(s, t, i)
    {
      if i + |t| <= |s| {
        OccursPointwise(s, t, i);
        assert s[i + k] != c;
      }
    }
  }

  lemma {:induction false} ShorterNoOccurrence(s: string, t: string)
    requires |s| < |t|
    ensures !Occurs(s, t)
  {
  }
}
