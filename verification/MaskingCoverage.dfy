/** What mask of guardrails/pii_handler.py does to a text: everything the detector finds is masked unless the guard
  * of the SSN loop skips it, and where the matches are clean spans the result is the text with each span replaced by
  * its token. */
module MaskingCoverage {
  import opened Tokens
  import opened PiiMasker

  // ---------------------------------------------------------------- everything found gets a token

  lemma {:induction false} EnterRemembers(t: Tables, kind: Kind, original: string)
    ensures Grown(t.reverse, Enter(t, kind, original).reverse)
  {}

  lemma {:induction false} MatchesRemember(kind: Kind, g: Masking, matches: seq<Match>, n: nat)
    requires n <= |matches|
    ensures
      Grown(MaskedMatches(kind, g, matches[..n]).tables.reverse, MaskedMatches(kind, g, matches).tables.reverse)
  {
    if n == |matches| {
      assert matches[..n] == matches;
    } else {
      var front := matches[..|matches| - 1];
      MatchesRemember(kind, g, front, n);
      assert front[..n] == matches[..n];
      var h := MaskedMatches(kind, g, front);
      EnterRemembers(h.tables, kind, matches[|matches| - 1].group);
    }
  }

  /** The SSN guard skipped match `i`. */
  predicate Skipped(kind: Kind, g: Masking, matches: seq<Match>, i: nat)
    requires i < |matches|
  {
    Guarded(kind, MaskedMatches(kind, g, matches[..i]).text, matches[i])
  }

  /** Every match has a token afterwards, unless it is an SSN match that the guard skipped. */
  lemma {:induction false} EveryMatchHasToken(kind: Kind, g: Masking, matches: seq<Match>, i: nat)
    requires i < |matches|
    ensures matches[i].group in MaskedMatches(kind, g, matches).tables.reverse || Skipped(kind, g, matches, i)
    ensures kind != SSN ==> !Skipped(kind, g, matches, i)
  {
    MatchesNext(kind, g, matches, i);
    OneHasToken(kind, MaskedMatches(kind, g, matches[..i]), matches[i]);
    MatchesRemember(kind, g, matches, i + 1);
  }

  lemma {:induction false} OneHasToken(kind: Kind, g: Masking, m: Match)
    ensures m.group in MaskedOne(kind, g, m).tables.reverse || Guarded(kind, g.text, m)
  {}

  const KINDS: seq<Kind> := [CC, SSN, EMAIL, PHONE, IP]

  /** The tables and the text before the `n`-th kind is looked for. */
  function Stage(g: Masking, find: Detector, n: nat): Masking
    requires n <= 5
  {
    if n == 0 then g else MaskedKind(KINDS[n - 1], Stage(g, find, n - 1), find)
  }

  lemma {:induction false} MaskedIsLastStage(g: Masking, find: Detector)
    requires g.text != ""
    ensures Masked(g, find) == Stage(g, find, 5)
  {
    assert Stage(g, find, 1) == MaskedKind(CC, g, find);
    assert Stage(g, find, 2) == MaskedKind(SSN, Stage(g, find, 1), find);
    assert Stage(g, find, 3) == MaskedKind(EMAIL, Stage(g, find, 2), find);
    assert Stage(g, find, 4) == MaskedKind(PHONE, Stage(g, find, 3), find);
  }

  lemma {:induction false} KindRemembers(kind: Kind, g: Masking, find: Detector)
    ensures Grown(g.tables.reverse, MaskedKind(kind, g, find).tables.reverse)
  {
    var matches := find(kind, g.text);
    assert matches[..0] == [];
    MatchesRemember(kind, g, matches, 0);
  }

  lemma {:induction false} StagesRemember(g: Masking, find: Detector, n: nat, m: nat)
    requires n <= m <= 5
    ensures Grown(Stage(g, find, n).tables.reverse, Stage(g, find, m).tables.reverse)
  {
    if n < m {
      StagesRemember(g, find, n, m - 1);
      KindRemembers(KINDS[m - 1], Stage(g, find, m - 1), find);
    }
  }

  /** Whatever a detector finds, of any of the five kinds, has a token when `mask` returns; only the SSN guard skips. */
  lemma {:induction false} EverythingFoundHasToken(g: Masking, find: Detector, n: nat, i: nat)
    requires g.text != "" && n < 5 && i < |find(KINDS[n], Stage(g, find, n).text)|
    ensures
      var before := Stage(g, find, n);
      var matches := find(KINDS[n], before.text);
      matches[i].group in Masked(g, find).tables.reverse || (n == 1 && Skipped(SSN, before, matches, i))
  {
    var before := Stage(g, find, n);
    EveryMatchHasToken(KINDS[n], before, find(KINDS[n], before.text), i);
    StagesRemember(g, find, n + 1, 5);
    MaskedIsLastStage(g, find);
  }

  // ---------------------------------------------------------------- and nothing else does

  /** Match `i` has the group `o`, and the guard lets it be masked. */
  predicate LetThrough(kind: Kind, g: Masking, matches: seq<Match>, i: nat, o: string) {
    i < |matches| && matches[i].group == o && !Skipped(kind, g, matches, i)
  }

  lemma {:induction false} LetThroughFront(kind: Kind, g: Masking, matches: seq<Match>, i: nat, o: string)
    requires i < |matches| - 1
    ensures LetThrough(kind, g, matches, i, o) <==> LetThrough(kind, g, matches[..|matches| - 1], i, o)
  {
    assert matches[..|matches| - 1][..i] == matches[..i];
  }

  lemma {:induction false} LastHasTokenIff(kind: Kind, g: Masking, m: Match, o: string)
    ensures o in MaskedOne(kind, g, m).tables.reverse <==>
      o in g.tables.reverse || (m.group == o && !Guarded(kind, g.text, m))
  {}

  ghost predicate SomeLetThrough(kind: Kind, g: Masking, matches: seq<Match>, o: string) {
    exists i: nat :: LetThrough(kind, g, matches, i, o)
  }

  lemma {:induction false} SomeLetThroughLast(kind: Kind, g: Masking, matches: seq<Match>, o: string)
    requires matches != []
    ensures SomeLetThrough(kind, g, matches, o) <==>
      SomeLetThrough(kind, g, matches[..|matches| - 1], o) || LetThrough(kind, g, matches, |matches| - 1, o)
  {
    var n := |matches| - 1;
    if SomeLetThrough(kind, g, matches, o) {
      var i: nat :| LetThrough(kind, g, matches, i, o);
      if i < n {
        LetThroughFront(kind, g, matches, i, o);
      }
    }
    if SomeLetThrough(kind, g, matches[..n], o) {
      var i: nat :| LetThrough(kind, g, matches[..n], i, o);
      LetThroughFront(kind, g, matches, i, o);
    }
  }

  /** The loop of one kind gives tokens exactly to the matches that the guard lets through. */
  lemma {:induction false} MatchHasTokenIff(kind: Kind, g: Masking, matches: seq<Match>, o: string)
    ensures o in MaskedMatches(kind, g, matches).tables.reverse <==>
      o in g.tables.reverse || SomeLetThrough(kind, g, matches, o)
  {
    if matches != [] {
      var n := |matches| - 1;
      MatchHasTokenIff(kind, g, matches[..n], o);
      LastHasTokenIff(kind, MaskedMatches(kind, g, matches[..n]), matches[n], o);
      SomeLetThroughLast(kind, g, matches, o);
    }
  }

  /** The `n`-th kind finds `o`, and the guard lets it be masked. */
  ghost predicate MaskedByKind(g: Masking, find: Detector, n: nat, o: string)
    requires n < 5
  {
    var before := Stage(g, find, n);
    SomeLetThrough(KINDS[n], before, find(KINDS[n], before.text), o)
  }

  ghost predicate MaskedBySome(g: Masking, find: Detector, n: nat, o: string)
    requires n <= 5
  {
    exists k: nat :: k < n && MaskedByKind(g, find, k, o)
  }

  lemma {:induction false} NextStageHasTokenIff(g: Masking, find: Detector, n: nat, o: string)
    requires n < 5
    ensures o in Stage(g, find, n + 1).tables.reverse <==>
      o in Stage(g, find, n).tables.reverse || MaskedByKind(g, find, n, o)
  {
    var before := Stage(g, find, n);
    MatchHasTokenIff(KINDS[n], before, find(KINDS[n], before.text), o);
  }

  lemma {:induction false} StageHasTokenIff(g: Masking, find: Detector, n: nat, o: string)
    requires n <= 5
    ensures o in Stage(g, find, n).tables.reverse <==> o in g.tables.reverse || MaskedBySome(g, find, n, o)
  {
    if n > 0 {
      StageHasTokenIff(g, find, n - 1, o);
      NextStageHasTokenIff(g, find, n - 1, o);
      assert MaskedBySome(g, find, n, o) <==>
        MaskedBySome(g, find, n - 1, o) || MaskedByKind(g, find, n - 1, o);
    }
  }

  /** A string has a token after `mask` if and only if it had one, or some kind finds it and the guard lets it
    * through. */
  lemma {:induction false} HasTokenIff(g: Masking, find: Detector, o: string)
    requires g.text != ""
    ensures o in Masked(g, find).tables.reverse <==> o in g.tables.reverse || MaskedBySome(g, find, 5, o)
  {
    MaskedIsLastStage(g, find);
    StageHasTokenIff(g, find, 5, o);
  }

  // ---------------------------------------------------------------- a number in front of a card stays

  const NUMBER: string := "123-45-6789"
  const CARD: string := "4111-1111-1111-1111"
  const CARD_MASKED: string := NUMBER + ", [CC_1]"

  /** What the patterns find in the number followed by the card, before and after the card is masked. */
  function NumberThenCard(kind: Kind, s: string): seq<Match> {
    if kind == CC && s == NUMBER + ", " + CARD then [Match(CARD, 13, 32)]
    else if kind == SSN && s == CARD_MASKED then [Match(NUMBER, 0, 11)]
    else []
  }

  lemma {:induction false} PiiWithDash(s: string, i: nat)
    requires i < |s| && s[i] == '-' && BracketFree(s)
    ensures IsPii(s)
  {
    assert s[i] in s && !TokenChar('-');
  }

  lemma {:induction false} NumberThenCardGroups(kind: Kind, s: string, m: Match)
    requires m in NumberThenCard(kind, s)
    ensures m.group == NUMBER || m.group == CARD
  {}

  lemma {:induction false} NumberIsPii()
    ensures IsPii(NUMBER)
  {
    PiiWithDash(NUMBER, 3);
  }

  lemma {:induction false} CardIsPii()
    ensures IsPii(CARD)
  {
    PiiWithDash(CARD, 4);
  }

  lemma {:induction false} NumberThenCardIsSound()
    ensures Sound(NumberThenCard)
  {
    NumberIsPii();
    CardIsPii();
    forall k, s, m | m in NumberThenCard(k, s)
      ensures IsPii(m.group)
    {
      NumberThenCardGroups(k, s, m);
    }
  }

  lemma {:induction false} CardIsReplaced()
    ensures ReplaceFirst(NUMBER + ", " + CARD, CARD, "[CC_1]") == CARD_MASKED
  {
    var s := NUMBER + ", " + CARD;
    assert s[13..] == CARD;
    forall j | 0 <= j < 13
      ensures !(CARD <= s[j..])
    {
      assert j == 4 ==> s[j..][1] == '5' && CARD[1] == '1';
      assert s[j..][0] == s[j];
    }
    FindIs(s, CARD, 13);
    assert s[..13] == NUMBER + ", " && s[13 + |CARD|..] == "";
    assert s[..13] + "[CC_1]" + s[13 + |CARD|..] == CARD_MASKED;
  }

  lemma {:induction false} CardIsMasked()
    ensures MaskedKind(CC, Masking(NO_TABLES, NUMBER + ", " + CARD), NumberThenCard)
      == Masking(Enter(NO_TABLES, CC, CARD), CARD_MASKED)
  {
    CardIsReplaced();
    CardToken();
    OneMatch(CC, Masking(NO_TABLES, NUMBER + ", " + CARD), Match(CARD, 13, 32));
  }

  lemma {:induction false} CardToken()
    ensures CARD in Enter(NO_TABLES, CC, CARD).reverse && Enter(NO_TABLES, CC, CARD).reverse[CARD] == "[CC_1]"
    ensures NUMBER !in Enter(NO_TABLES, CC, CARD).reverse
  {
    assert Token(CC, 1) == "[CC_1]" && |CARD| != |NUMBER|;
  }

  lemma {:induction false} NumberIsGuarded(t: Tables)
    ensures MaskedKind(SSN, Masking(t, CARD_MASKED), NumberThenCard) == Masking(t, CARD_MASKED)
  {
    assert Slice(CARD_MASKED, 0, 21) == CARD_MASKED[..] == CARD_MASKED;
    assert "[CC_" <= CARD_MASKED[13..];
    OneMatch(SSN, Masking(t, CARD_MASKED), Match(NUMBER, 0, 11));
  }

  lemma {:induction false} NothingElseFound(kind: Kind, t: Tables)
    requires kind != SSN
    ensures MaskedKind(kind, Masking(t, CARD_MASKED), NumberThenCard) == Masking(t, CARD_MASKED)
  {
    assert |CARD_MASKED| != |NUMBER + ", " + CARD|;
  }

  /** `mask` leaves a number standing that it finds, because a card token follows within ten characters. */
  lemma NumberBeforeCardStays()
    ensures Sound(NumberThenCard) && NumberThenCard(SSN, CARD_MASKED) == [Match(NUMBER, 0, |NUMBER|)]
    ensures
      var masked := Masked(Masking(NO_TABLES, NUMBER + ", " + CARD), NumberThenCard);
      masked.text == CARD_MASKED && NUMBER !in masked.tables.reverse
  {
    NumberThenCardIsSound();
    var t := Enter(NO_TABLES, CC, CARD);
    CardIsMasked();
    NumberIsGuarded(t);
    NothingElseFound(EMAIL, t);
    NothingElseFound(PHONE, t);
    NothingElseFound(IP, t);
    CardToken();
  }

  // ---------------------------------------------------------------- spans of a text

  /** Where the last span ends. */
  function EndOf(ms: seq<Match>): nat {
    if ms == [] then 0 else ms[|ms| - 1].end
  }

  /** The matches are ascending, disjoint spans of the text. */
  predicate AreSpans(text: string, ms: seq<Match>) {
    ms == [] ||
    (var front, last := ms[..|ms| - 1], ms[|ms| - 1];
     && AreSpans(text, front)
     && EndOf(front) <= last.start <= last.end <= |text|
     && text[last.start..last.end] == last.group)
  }

  lemma {:induction false} SpansEnd(text: string, ms: seq<Match>)
    requires AreSpans(text, ms)
    ensures EndOf(ms) <= |text|
  {}

  lemma {:induction false} AddSpan(text: string, ms: seq<Match>, m: Match)
    requires AreSpans(text, ms) && EndOf(ms) <= m.start <= m.end <= |text| && text[m.start..m.end] == m.group
    ensures AreSpans(text, ms + [m]) && EndOf(ms + [m]) == m.end
  {
    assert (ms + [m])[..|ms|] == ms;
  }

  function TokenFor(reverse: map<string, string>, original: string): string {
    if original in reverse then reverse[original] else original
  }

  /** The text up to the end of the last span, with every span replaced by its token. */
  function Left(text: string, ms: seq<Match>, reverse: map<string, string>): string
    requires AreSpans(text, ms)
  {
    if ms == [] then ""
    else
      var front, last := ms[..|ms| - 1], ms[|ms| - 1];
      Left(text, front, reverse) + text[EndOf(front)..last.start] + TokenFor(reverse, last.group)
  }

  /** The text with every span replaced by its token. */
  function Spliced(text: string, ms: seq<Match>, reverse: map<string, string>): string
    requires AreSpans(text, ms)
  {
    SpansEnd(text, ms);
    Left(text, ms, reverse) + text[EndOf(ms)..]
  }

  /** `pii` stands between two of the spans, or before the first. */
  predicate InGaps(text: string, ms: seq<Match>, pii: string)
    requires AreSpans(text, ms)
  {
    ms != [] &&
    (var front, last := ms[..|ms| - 1], ms[|ms| - 1];
     InGaps(text, front, pii) || Contains(text[EndOf(front)..last.start], pii))
  }

  /** After the spans of `ms`, the next match is the first occurrence of its group outside of them. */
  predicate NoStray(text: string, ms: seq<Match>, m: Match)
    requires AreSpans(text, ms)
  {
    SpansEnd(text, ms);
    && EndOf(ms) <= m.start
    && !InGaps(text, ms, m.group)
    && Find(text[EndOf(ms)..], m.group, 0) == m.start - EndOf(ms)
  }

  /** The spans that are masked: all but those that the SSN guard skips. */
  function Kept(kind: Kind, text: string, ms: seq<Match>, reverse: map<string, string>): (r: seq<Match>)
    requires AreSpans(text, ms)
    ensures AreSpans(text, r) && EndOf(r) <= EndOf(ms)
    ensures kind != SSN ==> r == ms
  {
    if ms == [] then []
    else
      var front, last := ms[..|ms| - 1], ms[|ms| - 1];
      var kept := Kept(kind, text, front, reverse);
      AddSpan(text, kept, last);
      assert front + [last] == ms;
      if Guarded(kind, Spliced(text, kept, reverse), last) then kept else kept + [last]
  }

  /** No span has a stray occurrence of its text before it. */
  predicate Clean(kind: Kind, text: string, ms: seq<Match>, reverse: map<string, string>)
    requires AreSpans(text, ms)
  {
    ms == [] ||
    (var front, last := ms[..|ms| - 1], ms[|ms| - 1];
     var kept := Kept(kind, text, front, reverse);
     Clean(kind, text, front, reverse) &&
     (Guarded(kind, Spliced(text, kept, reverse), last) || NoStray(text, kept, last)))
  }

  ghost predicate AllTokens(reverse: map<string, string>) {
    forall o :: o in reverse ==> IsToken(reverse[o])
  }

  // ---------------------------------------------------------------- the first occurrence is the span

  /** PII does not start inside a token. */
  lemma {:induction false} NotInToken(u: string, pii: string, q: nat, rest: string)
    requires IsToken(u) && IsPii(pii) && q < |u|
    ensures !(pii <= u[q..] + rest)
  {
    var s, inside := u[q..] + rest, u[1..|u| - 1];
    BracketsOfToken(u, q);
    BracketsOfToken(u, |u| - 1);
    assert s[0] == u[q] && s[|u| - 1 - q] == u[|u| - 1];
    if q > 0 && pii <= s && |pii| <= |u| - 1 - q {
      assert pii <= inside[q - 1..] by {
        assert forall i :: 0 <= i < |pii| ==> inside[q - 1..][i] == u[q + i] == s[i] == pii[i];
      }
      PiiNotInside(pii, inside, q - 1);
    }
  }

  lemma {:induction false} NotContained(s: string, pattern: string, j: nat)
    requires !Contains(s, pattern) && j <= |s|
    ensures !(pattern <= s[j..])
  {}

  lemma {:induction false} PrefixSplit(p: string, s: string, n: nat)
    requires n < |s|
    ensures p <= s ==> p <= s[..n] || (|p| > n && p[n] == s[n])
  {}

  /** PII that starts in a gap before a token lies in the gap. */
  lemma {:induction false} NotAcrossToken(gap: string, u: string, pii: string, p: nat, rest: string)
    requires IsToken(u) && IsPii(pii) && p < |gap| && !Contains(gap, pii)
    ensures !(pii <= (gap + u + rest)[p..])
  {
    var s, n := (gap + u + rest)[p..], |gap| - p;
    assert s[n] == u[0] == '[' && s[..n] == gap[p..];
    NotContained(gap, pii, p);
    PrefixSplit(pii, s, n);
  }

  lemma {:induction false} NotInParts(before: string, gap: string, u: string, rest: string, pii: string, p: nat)
    requires IsToken(u) && IsPii(pii) && !Contains(gap, pii) && |before| <= p < |before| + |gap| + |u|
    ensures !(pii <= (before + (gap + u + rest))[p..])
  {
    var whole := before + (gap + u + rest);
    if p < |before| + |gap| {
      assert whole[p..] == (gap + u + rest)[p - |before|..];
      NotAcrossToken(gap, u, pii, p - |before|, rest);
    } else {
      var q := p - |before| - |gap|;
      assert whole[p..] == u[q..] + rest;
      NotInToken(u, pii, q, rest);
    }
  }

  lemma {:induction false} Regroup(a: string, b: string, c: string, d: string)
    ensures a + b + c + d == a + (b + c + d)
  {}

  lemma {:induction false} NoneInLeft(
    text: string, ms: seq<Match>, reverse: map<string, string>, pii: string, p: nat, rest: string)
    requires AreSpans(text, ms) && AllTokens(reverse) && forall m :: m in ms ==> m.group in reverse
    requires IsPii(pii) && !InGaps(text, ms, pii) && p < |Left(text, ms, reverse)|
    ensures !(pii <= (Left(text, ms, reverse) + rest)[p..])
  {
    var front, last := ms[..|ms| - 1], ms[|ms| - 1];
    SplitLast(ms);
    var before, gap, u := Left(text, front, reverse), text[EndOf(front)..last.start], reverse[last.group];
    assert Left(text, ms, reverse) == before + gap + u;
    Regroup(before, gap, u, rest);
    if p < |before| {
      NoneInLeft(text, front, reverse, pii, p, gap + u + rest);
    } else {
      NotInParts(before, gap, u, rest, pii, p);
    }
  }

  lemma {:induction false} FindIs(s: string, pattern: string, p: nat)
    requires p <= |s| && pattern <= s[p..] && forall j :: 0 <= j < p ==> !(pattern <= s[j..])
    ensures Find(s, pattern, 0) == p
  {
    var q := Find(s, pattern, 0);
    assert q <= |s| ==> pattern <= s[q..];
  }

  lemma {:induction false} FirstAfter(left: string, rest: string, pattern: string, d: nat)
    requires forall p :: 0 <= p < |left| ==> !(pattern <= (left + rest)[p..])
    requires d <= |rest| && Find(rest, pattern, 0) == d
    ensures Find(left + rest, pattern, 0) == |left| + d
  {
    var s := left + rest;
    assert s[|left| + d..] == rest[d..];
    forall p | 0 <= p < |left| + d
      ensures !(pattern <= s[p..])
    {
      if p >= |left| {
        assert s[p..] == rest[p - |left|..];
      }
    }
    FindIs(s, pattern, |left| + d);
  }

  /** In the text masked so far, the first occurrence of the next match's group is its span. */
  lemma {:induction false} FirstIsSpan(text: string, ms: seq<Match>, reverse: map<string, string>, m: Match)
    requires AreSpans(text, ms) && AllTokens(reverse) && forall x :: x in ms ==> x.group in reverse
    requires IsPii(m.group) && NoStray(text, ms, m) && m.start <= |text|
    ensures Find(Spliced(text, ms, reverse), m.group, 0) == |Left(text, ms, reverse)| + (m.start - EndOf(ms))
  {
    SpansEnd(text, ms);
    var left, rest := Left(text, ms, reverse), text[EndOf(ms)..];
    forall p | 0 <= p < |left|
      ensures !(m.group <= (left + rest)[p..])
    {
      NoneInLeft(text, ms, reverse, m.group, p, rest);
    }
    FirstAfter(left, rest, m.group, m.start - EndOf(ms));
  }

  lemma {:induction false} ReplaceAt(left: string, rest: string, pattern: string, repl: string, d: nat)
    requires d + |pattern| <= |rest| && Find(left + rest, pattern, 0) == |left| + d
    ensures ReplaceFirst(left + rest, pattern, repl) == left + rest[..d] + repl + rest[d + |pattern|..]
  {
    var s := left + rest;
    assert s[..|left| + d] == left + rest[..d];
    assert s[|left| + d + |pattern|..] == rest[d + |pattern|..];
  }

  lemma {:induction false} SplicedNext(text: string, ms: seq<Match>, reverse: map<string, string>, m: Match)
    requires AreSpans(text, ms) && EndOf(ms) <= m.start <= m.end <= |text| && text[m.start..m.end] == m.group
    ensures AreSpans(text, ms + [m])
    ensures Spliced(text, ms + [m], reverse)
      == Left(text, ms, reverse) + text[EndOf(ms)..m.start] + TokenFor(reverse, m.group) + text[m.end..]
  {
    assert (ms + [m])[..|ms|] == ms;
  }

  lemma {:induction false} RestSlices(text: string, e: nat, m: Match)
    requires e <= m.start <= m.end <= |text| && text[m.start..m.end] == m.group
    ensures
      var rest, d := text[e..], m.start - e;
      d + |m.group| <= |rest| && rest[..d] == text[e..m.start] && rest[d + |m.group|..] == text[m.end..]
  {}

  lemma {:induction false} ReplaceSpan(text: string, left: string, e: nat, m: Match, repl: string)
    requires e <= m.start <= m.end <= |text| && text[m.start..m.end] == m.group
    requires Find(left + text[e..], m.group, 0) == |left| + (m.start - e)
    ensures ReplaceFirst(left + text[e..], m.group, repl) == left + text[e..m.start] + repl + text[m.end..]
  {
    RestSlices(text, e, m);
    ReplaceAt(left, text[e..], m.group, repl, m.start - e);
  }

  /** Replacing the first occurrence of the next match's group splices its span. */
  lemma {:induction false} SpliceNext(text: string, ms: seq<Match>, reverse: map<string, string>, m: Match)
    requires AreSpans(text, ms) && AllTokens(reverse) && KeptHaveTokens(ms, reverse)
    requires m.start <= m.end <= |text| && text[m.start..m.end] == m.group
    requires IsPii(m.group) && NoStray(text, ms, m) && m.group in reverse
    ensures AreSpans(text, ms + [m])
    ensures ReplaceFirst(Spliced(text, ms, reverse), m.group, reverse[m.group]) == Spliced(text, ms + [m], reverse)
  {
    SpansEnd(text, ms);
    FirstIsSpan(text, ms, reverse, m);
    ReplaceSpan(text, Left(text, ms, reverse), EndOf(ms), m, reverse[m.group]);
    SplicedNext(text, ms, reverse, m);
  }

  // ---------------------------------------------------------------- one kind, and all kinds

  /** The matches of the kind that are masked, by the spans alone. */
  predicate KeptHaveTokens(ms: seq<Match>, reverse: map<string, string>) {
    forall m :: m in ms ==> m.group in reverse
  }

  lemma {:induction false} KeptNext(
    kind: Kind, text: string, front: seq<Match>, last: Match, reverse: map<string, string>)
    requires AreSpans(text, front + [last])
    ensures AreSpans(text, front)
    ensures
      var kept := Kept(kind, text, front, reverse);
      Kept(kind, text, front + [last], reverse)
        == if Guarded(kind, Spliced(text, kept, reverse), last) then kept else kept + [last]
    ensures Clean(kind, text, front + [last], reverse) ==>
      var kept := Kept(kind, text, front, reverse);
      Clean(kind, text, front, reverse)
      && (Guarded(kind, Spliced(text, kept, reverse), last) || NoStray(text, kept, last))
  {
    assert (front + [last])[..|front|] == front;
  }

  lemma {:induction false} StepSplices(
    kind: Kind, g: Masking, text: string, kept: seq<Match>, m: Match, reverse: map<string, string>)
    requires AreSpans(text, kept) && AllTokens(reverse) && KeptHaveTokens(kept, reverse)
    requires m.start <= m.end <= |text| && text[m.start..m.end] == m.group && IsPii(m.group) && NoStray(text, kept, m)
    requires g.text == Spliced(text, kept, reverse) && !Guarded(kind, g.text, m)
    requires Grown(MaskedOne(kind, g, m).tables.reverse, reverse)
    ensures AreSpans(text, kept + [m]) && KeptHaveTokens(kept + [m], reverse)
    ensures MaskedOne(kind, g, m).text == Spliced(text, kept + [m], reverse)
  {
    var t := Enter(g.tables, kind, m.group);
    assert m.group in t.reverse && reverse[m.group] == t.reverse[m.group];
    SpliceNext(text, kept, reverse, m);
  }

  lemma {:induction false} NextMatch(
    kind: Kind, g: Masking, text: string, front: seq<Match>, last: Match, reverse: map<string, string>)
    requires AreSpans(text, front) && AreSpans(text, front + [last]) && Clean(kind, text, front + [last], reverse)
    requires IsPii(last.group) && AllTokens(reverse) && KeptHaveTokens(Kept(kind, text, front, reverse), reverse)
    requires g.text == Spliced(text, Kept(kind, text, front, reverse), reverse)
    requires Grown(MaskedOne(kind, g, last).tables.reverse, reverse)
    ensures MaskedOne(kind, g, last).text == Spliced(text, Kept(kind, text, front + [last], reverse), reverse)
    ensures KeptHaveTokens(Kept(kind, text, front + [last], reverse), reverse)
  {
    KeptNext(kind, text, front, last, reverse);
    LastSpan(text, front, last);
    if !Guarded(kind, g.text, last) {
      StepSplices(kind, g, text, Kept(kind, text, front, reverse), last, reverse);
    }
  }

  lemma {:induction false} LastSpan(text: string, front: seq<Match>, last: Match)
    requires AreSpans(text, front + [last])
    ensures last.start <= last.end <= |text| && text[last.start..last.end] == last.group
  {}

  lemma {:induction false} SplitLast(ms: seq<Match>)
    requires ms != []
    ensures
      var front, last := ms[..|ms| - 1], ms[|ms| - 1];
      ms == front + [last] && last in ms && forall m :: m in front ==> m in ms
  {}

  /** Where the matches are clean spans, masking them one by one splices a token into every span that the guard
    * keeps. */
  lemma {:induction false} MatchesSplice(
    kind: Kind, t: Tables, text: string, ms: seq<Match>, reverse: map<string, string>)
    requires AreSpans(text, ms) && Clean(kind, text, ms, reverse) && forall m :: m in ms ==> IsPii(m.group)
    requires AllTokens(reverse) && Grown(MaskedMatches(kind, Masking(t, text), ms).tables.reverse, reverse)
    ensures MaskedMatches(kind, Masking(t, text), ms).text == Spliced(text, Kept(kind, text, ms, reverse), reverse)
    ensures KeptHaveTokens(Kept(kind, text, ms, reverse), reverse)
  {
    if ms == [] {
      assert text[0..] == text;
    } else {
      var front, last := ms[..|ms| - 1], ms[|ms| - 1];
      SplitLast(ms);
      var g := MaskedMatches(kind, Masking(t, text), front);
      KeptNext(kind, text, front, last, reverse);
      EnterRemembers(g.tables, kind, last.group);
      GrownTrans(g.tables.reverse, MaskedOne(kind, g, last).tables.reverse, reverse);
      MatchesSplice(kind, t, text, front, reverse);
      NextMatch(kind, g, text, front, last, reverse);
    }
  }

  /** The matches of the kind are clean spans of the text. */
  predicate CleanSpans(kind: Kind, text: string, find: Detector, reverse: map<string, string>) {
    AreSpans(text, find(kind, text)) && Clean(kind, text, find(kind, text), reverse)
  }

  /** The text with the found spans of the kind replaced by their tokens. */
  function Rewritten(kind: Kind, text: string, find: Detector, reverse: map<string, string>): string
    requires CleanSpans(kind, text, find, reverse)
  {
    Spliced(text, Kept(kind, text, find(kind, text), reverse), reverse)
  }

  /** The text before the `n`-th kind is looked for, by the spans alone. */
  function RewrittenUpTo(text: string, find: Detector, reverse: map<string, string>, n: nat): string
    requires n <= 5
  {
    if n == 0 then text
    else
      var before := RewrittenUpTo(text, find, reverse, n - 1);
      if CleanSpans(KINDS[n - 1], before, find, reverse) then Rewritten(KINDS[n - 1], before, find, reverse) else before
  }

  /** At every kind, what is found in the text rewritten so far are clean spans. */
  predicate AllCleanSpans(text: string, find: Detector, reverse: map<string, string>) {
    forall n :: 0 <= n < 5 ==> CleanSpans(KINDS[n], RewrittenUpTo(text, find, reverse, n), find, reverse)
  }

  lemma {:induction false} StageIsRewritten(g: Masking, find: Detector, n: nat)
    requires n <= 5 && Sound(find) && g.text != ""
    requires AllTokens(Masked(g, find).tables.reverse)
    requires AllCleanSpans(g.text, find, Masked(g, find).tables.reverse)
    ensures Stage(g, find, n).text == RewrittenUpTo(g.text, find, Masked(g, find).tables.reverse, n)
  {
    if n > 0 {
      var reverse, before := Masked(g, find).tables.reverse, Stage(g, find, n - 1);
      StageIsRewritten(g, find, n - 1);
      StagesRemember(g, find, n, 5);
      MaskedIsLastStage(g, find);
      assert CleanSpans(KINDS[n - 1], before.text, find, reverse);
      MatchesSplice(KINDS[n - 1], before.tables, before.text, find(KINDS[n - 1], before.text), reverse);
    }
  }

  lemma {:induction false} TokensOfTables(t: Tables)
    requires Ok(t) && FewTokens(t.counters)
    ensures AllTokens(t.reverse)
  {
    IssuedAreWellMapped(t.mappings, t.counters);
    forall o | o in t.reverse
      ensures IsToken(t.reverse[o])
    {
      KnownToken(t.mappings, t.reverse, o);
    }
  }

  /** Where the matches of all five kinds are clean spans, `mask` returns the text with each found span replaced by
    * its token, kind after kind, but for the SSN spans that the guard skips. */
  lemma {:induction false} MaskSplicesTokens(g: Masking, find: Detector)
    requires Ok(g.tables) && Sound(find) && g.text != "" && FewTokens(Masked(g, find).tables.counters)
    requires AllCleanSpans(g.text, find, Masked(g, find).tables.reverse)
    ensures Masked(g, find).text == RewrittenUpTo(g.text, find, Masked(g, find).tables.reverse, 5)
  {
    MaskedFollows(g, find);
    TokensOfTables(Masked(g, find).tables);
    StageIsRewritten(g, find, 5);
    MaskedIsLastStage(g, find);
  }
}
