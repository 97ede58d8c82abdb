/** Strings, mask tokens and simultaneous restoration: the vocabulary of guardrails/pii_handler.py. */
module Tokens {

  function CountDigits(s: string): nat {
    if s == "" then 0 else (if '0' <= s[0] <= '9' then 1 else 0) + CountDigits(s[1..])
  }

  predicate BracketFree(s: string) {
    '[' !in s && ']' !in s
  }

  predicate TokenChar(c: char) {
    'A' <= c <= 'Z' || c == '_' || '0' <= c <= '9'
  }

  /** What the inside of a token looks like: a label, an underscore and at most eight digits. */
  predicate TokenLike(s: string) {
    (forall c :: c in s ==> TokenChar(c)) && CountDigits(s) <= 8
  }

  /** Covers what the five detection patterns match: numbers have nine or more digits (of any script), emails an
    * '@', IPs a '.'. */
  predicate IsPii(s: string) {
    s != "" && BracketFree(s) && !TokenLike(s)
  }

  predicate IsToken(u: string) {
    && |u| >= 2
    && u[0] == '['
    && u[|u| - 1] == ']'
    && BracketFree(u[1..|u| - 1])
    && TokenLike(u[1..|u| - 1])
  }

  type Mapping = map<string, string>

  ghost predicate WellMapped(m: Mapping) {
    forall u :: u in m ==> IsToken(u) && IsPii(m[u])
  }

  /** Some token of the mapping stands at the start of `s`. */
  ghost predicate StartsWithToken(s: string, m: Mapping) {
    exists u :: u in m && u <= s
  }

  ghost function TokenAtStart(s: string, m: Mapping): (u: string)
    requires StartsWithToken(s, m)
    ensures u in m && u <= s
  {
    var u :| u in m && u <= s;
    u
  }

  /** Every token of the mapping replaced by its original, in one left-to-right pass. */
  ghost function Restore(s: string, m: Mapping): string
    requires WellMapped(m)
  {
    if s == "" then ""
    else if StartsWithToken(s, m) then
      var u := TokenAtStart(s, m);
      m[u] + Restore(s[|u|..], m)
    else [s[0]] + Restore(s[1..], m)
  }

  /** `u` stands somewhere in `s`. */
  ghost predicate OccursIn(u: string, s: string) {
    exists k :: 0 <= k <= |s| && u <= s[k..]
  }

  // ---------------------------------------------------------------- the string methods the masker uses

  /** The first position from `k` on at which `pattern` stands, or |s| + 1 when there is none. */
  function Find(s: string, pattern: string, k: nat): (p: nat)
    requires k <= |s|
    ensures p <= |s| ==> k <= p && pattern <= s[p..]
    ensures forall j :: k <= j < p && j <= |s| ==> !(pattern <= s[j..])
    ensures p > |s| ==> forall j :: k <= j <= |s| ==> !(pattern <= s[j..])
    decreases |s| - k
  {
    if pattern <= s[k..] then k
    else if k == |s| then |s| + 1
    else Find(s, pattern, k + 1)
  }

  /** `s.replace(pattern, by, 1)`. */
  function ReplaceFirst(s: string, pattern: string, repl: string): string {
    var p := Find(s, pattern, 0);
    if p <= |s| then s[..p] + repl + s[p + |pattern|..] else s
  }

  /** `s.replace(pattern, repl)` for a non-empty pattern: leftmost occurrences, without overlap. */
  function ReplaceAll(s: string, pattern: string, repl: string): string
    requires pattern != ""
  {
    if s == "" then ""
    else if pattern <= s then repl + ReplaceAll(s[|pattern|..], pattern, repl)
    else [s[0]] + ReplaceAll(s[1..], pattern, repl)
  }

  // ---------------------------------------------------------------- tokens never overlap each other or PII

  lemma {:induction false} DigitsOfPrefix(a: string, b: string)
    requires a <= b
    ensures CountDigits(a) <= CountDigits(b)
  {
    if a != "" {
      DigitsOfPrefix(a[1..], b[1..]);
    }
  }

  lemma {:induction false} DigitsOfSuffix(s: string, k: nat)
    requires k <= |s|
    ensures CountDigits(s[k..]) <= CountDigits(s)
  {
    if k > 0 {
      DigitsOfSuffix(s[1..], k - 1);
      assert s[1..][k - 1..] == s[k..];
    }
  }

  lemma PartIsTokenLike(part: string, inside: string, k: nat)
    requires TokenLike(inside) && k <= |inside| && part <= inside[k..]
    ensures TokenLike(part)
  {
    DigitsOfPrefix(part, inside[k..]);
    DigitsOfSuffix(inside, k);
    forall c | c in part
      ensures c in inside
    {
      assert c in inside[k..];
    }
  }

  /** PII is never a part of the inside of a token. */
  lemma PiiNotInside(pii: string, inside: string, k: nat)
    requires IsPii(pii) && TokenLike(inside) && k <= |inside|
    ensures !(pii <= inside[k..])
  {
    if pii <= inside[k..] {
      PartIsTokenLike(pii, inside, k);
    }
  }

  lemma BracketsOfToken(u: string, k: nat)
    requires IsToken(u) && k < |u|
    ensures u[k] == '[' <==> k == 0
    ensures u[k] == ']' <==> k == |u| - 1
  {
    if 0 < k < |u| - 1 {
      assert u[1..|u| - 1][k - 1] == u[k];
    }
  }

  lemma TokenUnique(u: string, v: string, s: string)
    requires IsToken(u) && IsToken(v) && u <= s && v <= s
    ensures u == v
  {
    var last := if |u| <= |v| then |u| - 1 else |v| - 1;
    BracketsOfToken(u, last);
    BracketsOfToken(v, last);
    assert u[last] == s[last] == v[last];
  }

  /** A token that starts before a PII text also ends before it. */
  lemma TokenBeforePii(a: string, pii: string, b: string, u: string)
    requires IsPii(pii) && IsToken(u) && a != "" && u <= a + pii + b
    ensures u <= a
  {
    var s, p := a + pii + b, |a|;
    if p < |u| {
      if p + |pii| < |u| {
        var inside := u[1..|u| - 1];
        assert pii <= inside[p - 1..] by {
          assert forall i :: 0 <= i < |pii| ==> inside[p - 1..][i] == u[p + i] == s[p + i] == pii[i];
        }
        PiiNotInside(pii, inside, p - 1);
      }
    }
  }

  // ---------------------------------------------------------------- restoring

  lemma {:induction false} RestoreBracketFree(a: string, s: string, m: Mapping)
    requires WellMapped(m) && BracketFree(a)
    ensures Restore(a + s, m) == a + Restore(s, m)
  {
    if a == "" {
      assert a + s == s;
    } else {
      assert (a + s)[0] == a[0] && a[0] in a;
      assert !StartsWithToken(a + s, m);
      assert (a + s)[1..] == a[1..] + s;
      RestoreBracketFree(a[1..], s, m);
    }
  }

  lemma RestoreToken(u: string, s: string, m: Mapping)
    requires WellMapped(m) && u in m
    ensures Restore(u + s, m) == m[u] + Restore(s, m)
  {
    assert u <= u + s && StartsWithToken(u + s, m);
    TokenUnique(u, TokenAtStart(u + s, m), u + s);
    assert (u + s)[|u|..] == s;
  }

  /** Replacing one occurrence of a PII text by its token does not change what the text restores to. */
  lemma {:induction false} MaskingKeepsRestore(a: string, pii: string, b: string, u: string, m: Mapping)
    requires WellMapped(m) && u in m && m[u] == pii
    ensures Restore(a + u + b, m) == Restore(a + pii + b, m)
    decreases |a|
  {
    if a == "" {
      assert a + u + b == u + b && a + pii + b == pii + b;
      RestoreToken(u, b, m);
      RestoreBracketFree(pii, b, m);
    } else if StartsWithToken(a + pii + b, m) {
      var v := TokenAtStart(a + pii + b, m);
      TokenBeforePii(a, pii, b, v);
      MaskingKeepsRestore(a[|v|..], pii, b, u, m);
      SplitToken(a, pii, b, v, m);
      SplitToken(a, u, b, v, m);
    } else {
      NoNewToken(a, pii, b, u, m);
      MaskingKeepsRestore(a[1..], pii, b, u, m);
      SplitChar(a, pii, b, m);
      SplitChar(a, u, b, m);
    }
  }

  lemma SplitToken(a: string, x: string, b: string, v: string, m: Mapping)
    requires WellMapped(m) && v in m && v <= a
    ensures Restore(a + x + b, m) == m[v] + Restore(a[|v|..] + x + b, m)
  {
    assert a + x + b == v + (a[|v|..] + x + b);
    RestoreToken(v, a[|v|..] + x + b, m);
  }

  lemma SplitChar(a: string, x: string, b: string, m: Mapping)
    requires WellMapped(m) && a != "" && !StartsWithToken(a + x + b, m)
    ensures Restore(a + x + b, m) == [a[0]] + Restore(a[1..] + x + b, m)
  {
    assert (a + x + b)[1..] == a[1..] + x + b;
  }

  lemma NoNewToken(a: string, pii: string, b: string, u: string, m: Mapping)
    requires WellMapped(m) && u in m && a != "" && !StartsWithToken(a + pii + b, m)
    ensures !StartsWithToken(a + u + b, m)
  {
    forall v | v in m && v <= a + u + b
      ensures v <= a + pii + b
    {
      if |v| > |a| {
        BracketsOfToken(v, |a|);
      }
    }
  }

  /** A text restores to itself exactly when no token of the mapping stands in it. */
  lemma {:induction false} RestoreIsIdentityIff(s: string, m: Mapping)
    requires WellMapped(m)
    ensures Restore(s, m) == s <==> forall u :: u in m ==> !OccursIn(u, s)
  {
    if s == "" {
    } else if StartsWithToken(s, m) {
      var u := TokenAtStart(s, m);
      assert u <= s[0..] && OccursIn(u, s);
      assert m[u][0] in m[u] && s[0] == u[0];
      assert Restore(s, m)[0] == m[u][0];
    } else {
      RestoreIsIdentityIff(s[1..], m);
      forall u | u in m
        ensures OccursIn(u, s) <==> OccursIn(u, s[1..])
      {
        if OccursIn(u, s) {
          var k :| 0 <= k <= |s| && u <= s[k..];
          assert s[0..] == s;
          assert s[1..][k - 1..] == s[k..];
        }
        if OccursIn(u, s[1..]) {
          var k :| 0 <= k <= |s[1..]| && u <= s[1..][k..];
          assert s[1..][k..] == s[k + 1..];
        }
      }
      assert Restore(s, m)[1..] == Restore(s[1..], m);
    }
  }

  // ---------------------------------------------------------------- unmasking one token after the other

  lemma NoOtherTokenInside(v: string, k: nat, s: string, u: string)
    requires IsToken(u) && IsToken(v) && u != v && k < |v|
    ensures !(u <= v[k..] + s)
  {
    assert (v[k..] + s)[0] == v[k];
    BracketsOfToken(v, k);
    if k == 0 && u <= v[k..] + s {
      assert v <= v[k..] + s;
      TokenUnique(u, v, v[k..] + s);
    }
  }

  lemma {:induction false} ReplaceAllOverToken(v: string, k: nat, s: string, u: string, repl: string)
    requires IsToken(u) && IsToken(v) && u != v && k <= |v|
    ensures ReplaceAll(v[k..] + s, u, repl) == v[k..] + ReplaceAll(s, u, repl)
    decreases |v| - k
  {
    if k == |v| {
      assert v[k..] + s == s;
    } else {
      NoOtherTokenInside(v, k, s, u);
      ReplaceAllOverToken(v, k + 1, s, u, repl);
      assert (v[k..] + s)[1..] == v[k + 1..] + s;
    }
  }

  /** Replacing a token by PII never completes another token: `w` is the rest of a token whose '[' has been read. */
  lemma {:induction false} NoTokenCompleted(w: string, s: string, u: string, repl: string)
    requires IsToken(u) && IsPii(repl)
    requires w != "" && w[|w| - 1] == ']' && BracketFree(w[..|w| - 1]) && TokenLike(w[..|w| - 1])
    requires w <= ReplaceAll(s, u, repl)
    ensures w <= s
  {
    var inside := w[..|w| - 1];
    if u <= s {
      var t := repl + ReplaceAll(s[|u|..], u, repl);
      if |repl| < |w| {
        assert repl <= inside[0..] by {
          assert forall i :: 0 <= i < |repl| ==> inside[i] == w[i] == t[i] == repl[i];
        }
        PiiNotInside(repl, inside, 0);
      }
    } else {
      assert w[0] == s[0];
      if |w| > 1 {
        DigitsOfSuffix(inside, 1);
        assert w[1..][..|w| - 2] == inside[1..];
        assert w[1..] <= ReplaceAll(s[1..], u, repl);
        NoTokenCompleted(w[1..], s[1..], u, repl);
      }
    }
  }

  lemma ReplaceStartsNoToken(s: string, u: string, m: Mapping)
    requires WellMapped(m) && u in m && s != "" && !StartsWithToken(s, m)
    ensures !StartsWithToken([s[0]] + ReplaceAll(s[1..], u, m[u]), m)
  {
    var t := [s[0]] + ReplaceAll(s[1..], u, m[u]);
    forall v | v in m && v <= t
      ensures v <= s
    {
      TokenNotCompleted(v, s, u, m[u]);
    }
  }

  lemma TokenNotCompleted(v: string, s: string, u: string, repl: string)
    requires IsToken(u) && IsToken(v) && IsPii(repl) && s != ""
    requires v <= [s[0]] + ReplaceAll(s[1..], u, repl)
    ensures v <= s
  {
    var t := [s[0]] + ReplaceAll(s[1..], u, repl);
    assert v[1..] <= t[1..] && t[1..] == ReplaceAll(s[1..], u, repl);
    assert v[1..][..|v| - 2] == v[1..|v| - 1];
    NoTokenCompleted(v[1..], s[1..], u, repl);
  }

  /** Replacing one token everywhere leaves the text that the other tokens still have to restore. */
  lemma {:induction false} ReplaceOneToken(s: string, u: string, m: Mapping)
    requires WellMapped(m) && u in m
    ensures Restore(ReplaceAll(s, u, m[u]), m - {u}) == Restore(s, m)
    decreases |s|
  {
    var repl, fewer := m[u], m - {u};
    if s == "" {
    } else if u <= s {
      var rest := s[|u|..];
      assert s == u + rest;
      ReplaceOneToken(rest, u, m);
      RestoreToken(u, rest, m);
      RestoreBracketFree(repl, ReplaceAll(rest, u, repl), fewer);
    } else if StartsWithToken(s, m) {
      var v := TokenAtStart(s, m);
      var rest := s[|v|..];
      assert s == v[0..] + rest && v[0..] == v;
      ReplaceAllOverToken(v, 0, rest, u, repl);
      ReplaceOneToken(rest, u, m);
      RestoreToken(v, rest, m);
      RestoreToken(v, ReplaceAll(rest, u, repl), fewer);
    } else {
      ReplaceOneToken(s[1..], u, m);
      ReplaceStartsNoToken(s, u, m);
      var t := [s[0]] + ReplaceAll(s[1..], u, repl);
      assert !StartsWithToken(t, fewer) && t[1..] == ReplaceAll(s[1..], u, repl);
    }
  }

  lemma {:induction false} RestoreNothing(s: string, m: Mapping)
    requires m == map[]
    ensures Restore(s, m) == s
  {
    if s != "" {
      RestoreNothing(s[1..], m);
    }
  }
}
