/** The reversible masker of guardrails/pii_handler.py. */
module PiiMasker {
  import opened Prelude
  import opened Tokens

  /** The five kinds, in the order in which `mask` looks for them. */
  datatype Kind = CC | SSN | EMAIL | PHONE | IP

  function Label(kind: Kind): string {
    match kind
    case CC => "CC"
    case SSN => "SSN"
    case EMAIL => "EMAIL"
    case PHONE => "PHONE"
    case IP => "IP"
  }

  function Decimal(n: nat): string {
    if n < 10 then ['0' + n as char] else Decimal(n / 10) + ['0' + (n % 10) as char]
  }

  function Token(kind: Kind, n: nat): string {
    "[" + Label(kind) + "_" + Decimal(n) + "]"
  }

  /** One match object of the regular expression engine. */
  datatype Match = Match(group: string, start: nat, end: nat)

  /** The regular expressions as an oracle: the matches of a kind in a text. */
  type Detector = (Kind, string) -> seq<Match>

  ghost predicate Sound(find: Detector) {
    forall k, s, m :: m in find(k, s) ==> IsPii(m.group)
  }

  const TOKENS_PER_KIND: nat := 100_000_000

  // ---------------------------------------------------------------- issued tokens are tokens, and never repeat

  lemma {:induction false} DecimalDigits(n: nat)
    ensures Decimal(n) != "" && forall c :: c in Decimal(n) ==> '0' <= c <= '9'
  {
    if n >= 10 {
      DecimalDigits(n / 10);
    }
  }

  function Pow10(k: nat): nat {
    if k == 0 then 1 else 10 * Pow10(k - 1)
  }

  lemma {:induction false} DecimalLength(n: nat, k: nat)
    requires k >= 1 && n < Pow10(k)
    ensures |Decimal(n)| <= k
  {
    if n >= 10 {
      assert k >= 2;
      DecimalLength(n / 10, k - 1);
    }
  }

  function Value(s: string): nat
    requires forall c :: c in s ==> '0' <= c <= '9'
  {
    if s == "" then 0
    else
      var front, last := s[..|s| - 1], s[|s| - 1];
      assert last in s && forall c :: c in front ==> c in s;
      10 * Value(front) + (last - '0') as nat
  }

  lemma {:induction false} DecimalRoundTrip(n: nat)
    ensures (forall c :: c in Decimal(n) ==> '0' <= c <= '9') && Value(Decimal(n)) == n
  {
    DecimalDigits(n);
    if n >= 10 {
      DecimalRoundTrip(n / 10);
      var front := Decimal(n / 10);
      assert Decimal(n)[..|front|] == front;
    }
  }

  lemma {:induction false} DigitsAtMostLength(s: string)
    ensures CountDigits(s) <= |s|
  {
    if s != "" {
      DigitsAtMostLength(s[1..]);
    }
  }

  lemma {:induction false} CountDigitsConcat(a: string, b: string)
    ensures CountDigits(a + b) == CountDigits(a) + CountDigits(b)
  {
    if a == "" {
      assert a + b == b;
    } else {
      assert (a + b)[1..] == a[1..] + b;
      CountDigitsConcat(a[1..], b);
    }
  }

  lemma {:induction false} NoDigits(s: string)
    requires forall c :: c in s ==> !('0' <= c <= '9')
    ensures CountDigits(s) == 0
  {
    if s != "" {
      assert s[0] in s && forall c :: c in s[1..] ==> c in s;
      NoDigits(s[1..]);
    }
  }

  lemma EightDigits()
    ensures Pow10(8) == TOKENS_PER_KIND
  {
    assert Pow10(4) == 10_000;
    assert Pow10(6) == 1_000_000;
  }

  lemma ShortNumber(n: nat)
    requires n < TOKENS_PER_KIND
    ensures CountDigits(Decimal(n)) <= 8
  {
    EightDigits();
    DecimalLength(n, 8);
    DigitsAtMostLength(Decimal(n));
  }

  lemma LabelChars(kind: Kind)
    ensures forall c :: c in Label(kind) + "_" ==> 'A' <= c <= 'Z' || c == '_'
  {}

  lemma IssuedInside(kind: Kind, n: nat)
    requires n < TOKENS_PER_KIND
    ensures
      var inside := Label(kind) + "_" + Decimal(n);
      BracketFree(inside) && TokenLike(inside)
  {
    var prefix, number := Label(kind) + "_", Decimal(n);
    LabelChars(kind);
    DecimalDigits(n);
    ShortNumber(n);
    NoDigits(prefix);
    CountDigitsConcat(prefix, number);
    forall c | c in prefix + number
      ensures TokenChar(c) && c != '[' && c != ']'
    {
      assert c in prefix || c in number;
    }
  }

  lemma IssuedIsToken(kind: Kind, n: nat)
    requires n < TOKENS_PER_KIND
    ensures IsToken(Token(kind, n))
  {
    var u := Token(kind, n);
    assert u[1..|u| - 1] == Label(kind) + "_" + Decimal(n);
    IssuedInside(kind, n);
  }

  lemma TokenInjective(k1: Kind, n1: nat, k2: Kind, n2: nat)
    requires Token(k1, n1) == Token(k2, n2)
    ensures k1 == k2 && n1 == n2
  {
    var u := Token(k1, n1);
    var a, b := |Label(k1)| + 1, |Label(k2)| + 1;
    assert u[1] == Label(k1)[0] == Label(k2)[0];
    assert u[2] == (if 2 == a then '_' else Label(k1)[1]);
    assert k1 == k2;
    var tail := u[a + 1..|u| - 1];
    assert tail == Decimal(n1);
    assert tail == Decimal(n2);
    DecimalRoundTrip(n1);
    DecimalRoundTrip(n2);
  }

  // ---------------------------------------------------------------- the tables of the masker

  type Counters = map<Kind, nat>

  function Count(counters: Counters, kind: Kind): nat {
    if kind in counters then counters[kind] else 0
  }

  /** `detected_count`. */
  function Total(counters: Counters): nat {
    Count(counters, CC) + Count(counters, SSN) + Count(counters, EMAIL) + Count(counters, PHONE) + Count(counters, IP)
  }

  /** Fewer than 10^8 tokens of each kind have been issued. */
  ghost predicate FewTokens(counters: Counters) {
    forall kind :: Count(counters, kind) < TOKENS_PER_KIND
  }

  ghost predicate Issued(counters: Counters, u: string) {
    exists kind: Kind, n: nat :: u == Token(kind, n) && 1 <= n <= Count(counters, kind)
  }

  /** The two dictionaries are inverse to each other. */
  ghost predicate Inverse(mappings: Mapping, reverse: map<string, string>) {
    && (forall u :: u in mappings ==> mappings[u] in reverse && reverse[mappings[u]] == u)
    && (forall o :: o in reverse ==> reverse[o] in mappings && mappings[reverse[o]] == o)
  }

  /** `order` lists every token of the mapping once. */
  ghost predicate Lists(order: seq<string>, mappings: Mapping) {
    && (forall u :: u in order <==> u in mappings)
    && (forall i, j :: 0 <= i < j < |order| ==> order[i] != order[j])
  }

  ghost predicate AllIssued(mappings: Mapping, counters: Counters) {
    forall u :: u in mappings ==> Issued(counters, u) && IsPii(mappings[u])
  }

  lemma FreshToken(mappings: Mapping, counters: Counters, kind: Kind)
    requires AllIssued(mappings, counters)
    ensures Token(kind, Count(counters, kind) + 1) !in mappings
  {
    var token := Token(kind, Count(counters, kind) + 1);
    if token in mappings {
      assert Issued(counters, token);
      var k: Kind, n: nat :| token == Token(k, n) && 1 <= n <= Count(counters, k);
      TokenInjective(kind, Count(counters, kind) + 1, k, n);
    }
  }

  lemma StillIssued(mappings: Mapping, counters: Counters, kind: Kind, original: string)
    requires AllIssued(mappings, counters) && IsPii(original)
    ensures
      var n := Count(counters, kind) + 1;
      AllIssued(mappings[Token(kind, n) := original], counters[kind := n])
  {
    var n := Count(counters, kind) + 1;
    var more := counters[kind := n];
    forall u | u in mappings
      ensures Issued(more, u)
    {
      assert Issued(counters, u);
      var k: Kind, i: nat :| u == Token(k, i) && 1 <= i <= Count(counters, k);
      assert u == Token(k, i) && 1 <= i <= Count(more, k);
    }
    assert Issued(more, Token(kind, n));
  }

  lemma IssuedNotEmpty(counters: Counters, u: string)
    requires Issued(counters, u)
    ensures u != ""
  {}

  lemma InsertKeepsInverse(mappings: Mapping, reverse: map<string, string>, token: string, original: string)
    requires Inverse(mappings, reverse) && token !in mappings && original !in reverse
    ensures Inverse(mappings[token := original], reverse[original := token])
  {}

  lemma InsertKeepsList(order: seq<string>, mappings: Mapping, token: string, original: string)
    requires Lists(order, mappings) && token !in mappings
    ensures Lists(order + [token], mappings[token := original])
  {
    assert forall i :: 0 <= i < |order| ==> order[i] in order;
  }

  ghost predicate Consistent(mappings: Mapping, order: seq<string>, reverse: map<string, string>, counters: Counters) {
    && AllIssued(mappings, counters)
    && Inverse(mappings, reverse)
    && Lists(order, mappings)
    && |mappings| == |reverse| == |order| == Total(counters)
  }

  /** A new original gets a token that was never issued before, and the tables stay consistent. */
  lemma InsertKeepsTables(
    mappings: Mapping, order: seq<string>, reverse: map<string, string>, counters: Counters,
    kind: Kind, original: string)
    requires Consistent(mappings, order, reverse, counters) && original !in reverse && IsPii(original)
    ensures
      var n := Count(counters, kind) + 1;
      var token := Token(kind, n);
      && token !in mappings
      && Consistent(mappings[token := original], order + [token], reverse[original := token], counters[kind := n])
  {
    var token := Token(kind, Count(counters, kind) + 1);
    FreshToken(mappings, counters, kind);
    StillIssued(mappings, counters, kind, original);
    CountOneMore(counters, kind);
    InsertKeepsInverse(mappings, reverse, token, original);
    InsertKeepsList(order, mappings, token, original);
  }

  lemma KnownToken(mappings: Mapping, reverse: map<string, string>, original: string)
    requires Inverse(mappings, reverse) && original in reverse
    ensures reverse[original] in mappings && mappings[reverse[original]] == original
  {}

  lemma CountOneMore(counters: Counters, kind: Kind)
    ensures Total(counters[kind := Count(counters, kind) + 1]) == Total(counters) + 1
  {}

  lemma IssuedAreWellMapped(mappings: Mapping, counters: Counters)
    requires AllIssued(mappings, counters) && FewTokens(counters)
    ensures WellMapped(mappings)
  {
    forall u | u in mappings
      ensures IsToken(u)
    {
      assert Issued(counters, u);
      var kind: Kind, n: nat :| u == Token(kind, n) && 1 <= n <= Count(counters, kind);
      IssuedIsToken(kind, n);
    }
  }

  // ---------------------------------------------------------------- what masking computes

  /** The dictionaries of a masker. */
  datatype Tables = Tables(mappings: Mapping, order: seq<string>, reverse: map<string, string>, counters: Counters)

  const NO_TABLES := Tables(map[], [], map[], map[])

  /** The tables once `original` has a token. */
  function Enter(t: Tables, kind: Kind, original: string): (r: Tables)
    ensures original in r.reverse
  {
    if original in t.reverse then t
    else
      var n := Count(t.counters, kind) + 1;
      var token := Token(kind, n);
      Tables(t.mappings[token := original], t.order + [token], t.reverse[original := token], t.counters[kind := n])
  }

  datatype Masking = Masking(tables: Tables, text: string)

  /** The guard of the SSN loop: a card token stands where the match was. */
  predicate Guarded(kind: Kind, text: string, m: Match) {
    kind == SSN && Contains(Slice(text, m.start, m.end + 10), "[CC_")
  }

  /** One match of the given kind masked at its first occurrence. */
  function MaskedOne(kind: Kind, g: Masking, m: Match): Masking {
    if Guarded(kind, g.text, m) then g
    else
      var t := Enter(g.tables, kind, m.group);
      Masking(t, ReplaceFirst(g.text, m.group, t.reverse[m.group]))
  }

  function MaskedMatches(kind: Kind, g: Masking, matches: seq<Match>): Masking {
    if matches == [] then g
    else MaskedOne(kind, MaskedMatches(kind, g, matches[..|matches| - 1]), matches[|matches| - 1])
  }

  function MaskedKind(kind: Kind, g: Masking, find: Detector): Masking {
    MaskedMatches(kind, g, find(kind, g.text))
  }

  /** The five kinds in order. */
  function Masked(g: Masking, find: Detector): Masking {
    if g.text == "" then g
    else
      var numbers := MaskedKind(SSN, MaskedKind(CC, g, find), find);
      MaskedKind(IP, MaskedKind(PHONE, MaskedKind(EMAIL, numbers, find), find), find)
  }

  /** The tables are mutually inverse, as large as `detected_count` says, and hold issued tokens only. */
  ghost predicate Ok(t: Tables) {
    Consistent(t.mappings, t.order, t.reverse, t.counters)
  }

  /** `b` follows from `a` for the text that `a` was made from: consistent tables, no token forgotten, the same
    * restored text. */
  ghost predicate Follows(text: string, a: Tables, b: Masking) {
    Ok(b.tables) && Grown(a.mappings, b.tables.mappings) && SameRestored(text, b.text, b.tables.mappings)
  }

  lemma NewEntryOk(t: Tables, kind: Kind, original: string)
    requires Ok(t) && IsPii(original) && original !in t.reverse
    ensures Ok(Enter(t, kind, original)) && Token(kind, Count(t.counters, kind) + 1) !in t.mappings
  {
    InsertKeepsTables(t.mappings, t.order, t.reverse, t.counters, kind, original);
  }

  /** An entry adds to the mapping, unless its token is taken. */
  lemma NewEntryGrows(t: Tables, kind: Kind, original: string)
    requires original !in t.reverse && Token(kind, Count(t.counters, kind) + 1) !in t.mappings
    ensures
      var r := Enter(t, kind, original);
      && Grown(t.mappings, r.mappings)
      && r.reverse[original] in r.mappings && r.mappings[r.reverse[original]] == original
  {}

  lemma EnterKeepsOk(t: Tables, kind: Kind, original: string)
    requires Ok(t) && IsPii(original)
    ensures
      var r := Enter(t, kind, original);
      && Ok(r) && Grown(t.mappings, r.mappings)
      && r.reverse[original] in r.mappings && r.mappings[r.reverse[original]] == original
  {
    if original in t.reverse {
      KnownToken(t.mappings, t.reverse, original);
    } else {
      NewEntryOk(t, kind, original);
      NewEntryGrows(t, kind, original);
    }
  }

  lemma OneFollows(text: string, a: Tables, kind: Kind, g: Masking, m: Match)
    requires Follows(text, a, g) && IsPii(m.group)
    ensures Follows(text, a, MaskedOne(kind, g, m))
  {
    if !Guarded(kind, g.text, m) {
      var t := Enter(g.tables, kind, m.group);
      EnterKeepsOk(g.tables, kind, m.group);
      GrownTrans(a.mappings, g.tables.mappings, t.mappings);
      ReplacedSameRestored(text, g.text, m.group, t.reverse[m.group], g.tables.mappings, t.mappings);
    }
  }

  /** Masking the matches of one kind, although they were found in an older text, keeps what the text restores to. */
  lemma {:induction false} MatchesFollow(text: string, a: Tables, kind: Kind, g: Masking, matches: seq<Match>)
    requires Follows(text, a, g) && forall m :: m in matches ==> IsPii(m.group)
    ensures Follows(text, a, MaskedMatches(kind, g, matches))
  {
    if matches != [] {
      var front, last := matches[..|matches| - 1], matches[|matches| - 1];
      assert last in matches && forall m :: m in front ==> m in matches;
      MatchesFollow(text, a, kind, g, front);
      OneFollows(text, a, kind, MaskedMatches(kind, g, front), last);
    }
  }

  lemma KindFollows(text: string, a: Tables, kind: Kind, g: Masking, find: Detector)
    requires Follows(text, a, g) && Sound(find)
    ensures Follows(text, a, MaskedKind(kind, g, find))
  {
    MatchesFollow(text, a, kind, g, find(kind, g.text));
  }

  /** Masking keeps the tables consistent, forgets no token, and restores to the same text under every later table. */
  lemma MaskedFollows(g: Masking, find: Detector)
    requires Ok(g.tables) && Sound(find)
    ensures Follows(g.text, g.tables, Masked(g, find))
  {
    if g.text != "" {
      var g1 := MaskedKind(CC, g, find);
      KindFollows(g.text, g.tables, CC, g, find);
      var g2 := MaskedKind(SSN, g1, find);
      KindFollows(g.text, g.tables, SSN, g1, find);
      var g3 := MaskedKind(EMAIL, g2, find);
      KindFollows(g.text, g.tables, EMAIL, g2, find);
      KindFollows(g.text, g.tables, PHONE, g3, find);
      KindFollows(g.text, g.tables, IP, MaskedKind(PHONE, g3, find), find);
    }
  }

  // ---------------------------------------------------------------- the masker

  class PIIMasker {
    var mappings: Mapping              // token to original
    var order: seq<string>             // the tokens in the insertion order of the dictionary
    var reverse: map<string, string>   // original to token
    var counters: Counters

    ghost function View(): Tables
      reads this
    {
      Tables(mappings, order, reverse, counters)
    }

    ghost predicate Valid()
      reads this
    {
      Ok(View())
    }

    constructor ()
      ensures Valid() && View() == NO_TABLES
    {
      mappings, order, reverse, counters := map[], [], map[], map[];
    }

    method DetectedCount() returns (n: nat)
      requires Valid()
      ensures n == |mappings| == |reverse|
    {
      n := Total(counters);
    }

    method GetToken(kind: Kind) returns (token: string)
      modifies this`counters
      ensures counters == old(counters)[kind := old(Count(counters, kind)) + 1]
      ensures token == Token(kind, old(Count(counters, kind)) + 1)
    {
      var count := (if kind in counters then counters[kind] else 0) + 1;
      counters := counters[kind := count];
      token := Token(kind, count);
    }

    method MaskMatch(kind: Kind, original: string) returns (token: string)
      modifies this
      ensures View() == Enter(old(View()), kind, original) && token == reverse[original]
    {
      if original in reverse {
        token := reverse[original];
      } else {
        token := GetToken(kind);
        mappings := mappings[token := original];
        order := order + [token];
        reverse := reverse[original := token];
      }
    }

    /** Mask one match at its first occurrence, unless a card token stands in its place. */
    method MaskNext(kind: Kind, text: string, m: Match) returns (result: string)
      modifies this
      ensures Masking(View(), result) == MaskedOne(kind, Masking(old(View()), text), m)
    {
      result := text;
      if !Guarded(kind, result, m) {
        var token := MaskMatch(kind, m.group);
        result := ReplaceFirst(result, m.group, token);
      }
    }

    /** Mask the matches of one kind, each at its first occurrence in the text as masked so far. */
    method MaskKind(kind: Kind, masked: string, find: Detector) returns (result: string)
      modifies this
      ensures Masking(View(), result) == MaskedKind(kind, Masking(old(View()), masked), find)
    {
      result := masked;
      var matches := find(kind, masked);
      ghost var start := Masking(View(), masked);
      for i := 0 to |matches|
        invariant Masking(View(), result) == MaskedMatches(kind, start, matches[..i])
      {
        MatchesNext(kind, start, matches, i);
        result := MaskNext(kind, result, matches[i]);
      }
      assert matches[..|matches|] == matches;
    }

    /** `mask`. */
    method Mask(text: string, find: Detector) returns (result: string)
      modifies this
      ensures Masking(View(), result) == Masked(Masking(old(View()), text), find)
    {
      result := text;
      if text != "" {
        result := MaskKind(CC, result, find);
        result := MaskKind(SSN, result, find);
        result := MaskKind(EMAIL, result, find);
        result := MaskKind(PHONE, result, find);
        result := MaskKind(IP, result, find);
      }
    }

    /** `unmask`: one token after the other, in the order in which the tokens were issued. */
    method Unmask(text: string) returns (result: string)
      requires Valid()
      ensures FewTokens(counters) ==> WellMapped(mappings) && result == Restore(text, mappings)
    {
      result := text;
      ghost var few := FewTokens(counters);
      if few {
        IssuedAreWellMapped(mappings, counters);
      }
      assert mappings - Elems(order[..0]) == mappings;
      for i := 0 to |order|
        invariant few ==> Restore(result, mappings - Elems(order[..i])) == Restore(text, mappings)
      {
        var token := order[i];
        assert token in order && Issued(counters, token);
        IssuedNotEmpty(counters, token);
        if few {
          NextLeft(order, mappings, i);
          ReplaceOneToken(result, token, mappings - Elems(order[..i]));
        }
        result := ReplaceAll(result, token, mappings[token]);
      }
      if few {
        NoneLeft(order, mappings);
        RestoreNothing(result, mappings - Elems(order[..|order|]));
      }
    }
  }

  lemma MatchesNext(kind: Kind, g: Masking, matches: seq<Match>, i: nat)
    requires i < |matches|
    ensures MaskedMatches(kind, g, matches[..i + 1])
      == MaskedOne(kind, MaskedMatches(kind, g, matches[..i]), matches[i])
  {
    assert matches[..i + 1][..i] == matches[..i];
  }

  lemma {:induction false} OneMatch(kind: Kind, g: Masking, m: Match)
    ensures MaskedMatches(kind, g, [m]) == MaskedOne(kind, g, m)
  {
    assert [m][..0] == [];
  }

  lemma NextLeft(order: seq<string>, mappings: Mapping, i: nat)
    requires Lists(order, mappings) && i < |order|
    ensures order[i] in mappings - Elems(order[..i])
    ensures mappings - Elems(order[..i + 1]) == (mappings - Elems(order[..i])) - {order[i]}
  {
    assert order[..i + 1] == order[..i] + [order[i]];
    assert order[i] in order;
  }

  lemma NoneLeft(order: seq<string>, mappings: Mapping)
    requires Lists(order, mappings)
    ensures mappings - Elems(order[..|order|]) == map[]
  {
    assert order[..|order|] == order;
  }

  /** Tokens keep their originals for ever. */
  ghost predicate Grown(before: Mapping, now: Mapping) {
    forall u :: u in before ==> u in now && now[u] == before[u]
  }

  /** Under every later mapping, the masked text restores to the same text as the original does. */
  ghost predicate SameRestored(text: string, masked: string, mappings: Mapping) {
    forall m :: WellMapped(m) && Grown(mappings, m) ==> Restore(masked, m) == Restore(text, m)
  }

  lemma GrownTrans(a: Mapping, b: Mapping, c: Mapping)
    requires Grown(a, b) && Grown(b, c)
    ensures Grown(a, c)
  {}

  lemma SameRestoredTrans(text: string, a: string, b: string, before: Mapping, now: Mapping)
    requires SameRestored(text, a, before) && Grown(before, now) && SameRestored(a, b, now)
    ensures SameRestored(text, b, now)
  {
    forall m | WellMapped(m) && Grown(now, m)
      ensures Restore(b, m) == Restore(text, m)
    {
      GrownTrans(before, now, m);
    }
  }

  lemma ReplacedSameRestored(text: string, a: string, pii: string, token: string, before: Mapping, now: Mapping)
    requires SameRestored(text, a, before) && Grown(before, now)
    requires token in now && now[token] == pii
    ensures SameRestored(text, ReplaceFirst(a, pii, token), now)
  {
    var p := Find(a, pii, 0);
    if p <= |a| {
      SplitAt(a, pii, p);
      TokenSameRestored(text, a[..p], pii, a[p + |pii|..], token, before, now);
    } else {
      SameRestoredTrans(text, a, a, before, now);
    }
  }

  lemma SplitAt(a: string, pii: string, p: nat)
    requires p <= |a| && pii <= a[p..]
    ensures a == a[..p] + pii + a[p + |pii|..]
  {
    assert a[p..][..|pii|] == pii && a[p..][|pii|..] == a[p + |pii|..];
  }

  lemma TokenSameRestored(text: string, x: string, pii: string, y: string, token: string, before: Mapping, now: Mapping)
    requires SameRestored(text, x + pii + y, before) && Grown(before, now)
    requires token in now && now[token] == pii
    ensures SameRestored(text, x + token + y, now)
  {
    forall m | WellMapped(m) && Grown(now, m)
      ensures Restore(x + token + y, m) == Restore(text, m)
    {
      GrownTrans(before, now, m);
      MaskingKeepsRestore(x, pii, y, token, m);
    }
  }

  predicate Contains(s: string, pattern: string) {
    Find(s, pattern, 0) <= |s|
  }

  /** `s[from:to]` with the bounds clamped to the text. */
  function Slice(s: string, from: nat, to: nat): string {
    var hi := if to < |s| then to else |s|;
    if from <= hi then s[from..hi] else ""
  }
}
