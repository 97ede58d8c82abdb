/** When masking and unmasking gives a text back, and when it does not: guardrails/pii_handler.py. */
module MaskingRoundTrip {
  import opened Tokens
  import opened PiiMasker

  ghost predicate NoTokenIn(text: string, mappings: Mapping) {
    forall u :: u in mappings ==> !OccursIn(u, text)
  }

  /** Nothing in the text looks like a token that a masker may issue. */
  ghost predicate HoldsNoToken(text: string) {
    forall kind: Kind, n: nat :: 1 <= n < TOKENS_PER_KIND ==> !OccursIn(Token(kind, n), text)
  }

  /** Masking `text` on a masker with tables `t`, and restoring the result, yields `text`. */
  ghost predicate GivesBack(t: Tables, text: string, find: Detector) {
    var g := Masked(Masking(t, text), find);
    WellMapped(g.tables.mappings) && Restore(g.text, g.tables.mappings) == text
  }

  /** Masking and unmasking gives the text back exactly when none of the tokens issued so far stands in it. */
  method MaskThenUnmask(masker: PIIMasker, text: string, find: Detector) returns (restored: string)
    requires masker.Valid() && Sound(find)
    modifies masker
    ensures masker.Valid() && Grown(old(masker.mappings), masker.mappings)
    ensures masker.View() == Masked(Masking(old(masker.View()), text), find).tables
    ensures FewTokens(masker.counters) ==> (restored == text <==> NoTokenIn(text, masker.mappings))
    ensures FewTokens(masker.counters) ==> (restored == text <==> GivesBack(old(masker.View()), text, find))
    ensures FewTokens(masker.counters) && HoldsNoToken(text) ==> restored == text
    ensures FewTokens(masker.counters) && '[' !in text ==> restored == text
  {
    MaskedFollows(Masking(masker.View(), text), find);
    var masked := masker.Mask(text, find);
    restored := masker.Unmask(masked);
    if FewTokens(masker.counters) {
      RestoreIsIdentityIff(text, masker.mappings);
      if HoldsNoToken(text) {
        NoneIssuedIn(text, masker.mappings, masker.counters);
      }
      if '[' !in text {
        BracketFreeHasNoToken(text, masker.mappings);
      }
    }
  }

  lemma NoneIssuedIn(text: string, mappings: Mapping, counters: Counters)
    requires AllIssued(mappings, counters) && FewTokens(counters) && HoldsNoToken(text)
    ensures NoTokenIn(text, mappings)
  {
    forall u | u in mappings
      ensures !OccursIn(u, text)
    {
      assert Issued(counters, u);
      var kind: Kind, n: nat :| u == Token(kind, n) && 1 <= n <= Count(counters, kind);
    }
  }

  lemma BracketFreeHasNoToken(text: string, mappings: Mapping)
    requires WellMapped(mappings) && '[' !in text
    ensures NoTokenIn(text, mappings)
  {
    forall u | u in mappings
      ensures !OccursIn(u, text)
    {
      forall k | 0 <= k < |text|
        ensures text[k..][0] != '['
      {}
    }
  }

  // ---------------------------------------------------------------- texts that are not given back

  /** A text that is an address as a whole, in these examples: it has an '@' and no brackets. */
  predicate IsAddress(s: string) {
    '@' in s && BracketFree(s)
  }

  /** Detects a whole text of the given kind. */
  function WholeText(kind: Kind): Detector {
    (k, s) => if k == kind && IsAddress(s) then [Match(s, 0, |s|)] else []
  }

  lemma AddressIsPii(s: string)
    requires IsAddress(s)
    ensures IsPii(s)
  {
    assert '@' in s && !TokenChar('@');
  }

  lemma WholeTextIsSound(kind: Kind)
    ensures Sound(WholeText(kind))
  {
    forall k, s, m | m in WholeText(kind)(k, s)
      ensures IsPii(m.group)
    {
      AddressIsPii(s);
    }
  }

  lemma NothingFound(kind: Kind, k: Kind, g: Masking)
    requires k != kind || !IsAddress(g.text)
    ensures MaskedKind(k, g, WholeText(kind)) == g
  {}

  lemma TokenIsNoAddress(kind: Kind, n: nat)
    ensures !IsAddress(Token(kind, n))
  {
    assert Token(kind, n)[0] == '[';
  }

  lemma ReplaceWhole(s: string, u: string)
    ensures ReplaceFirst(s, s, u) == u
  {
    assert s <= s[0..] && Find(s, s, 0) == 0;
  }

  lemma NoCardToken(s: string)
    requires '[' !in s
    ensures !Contains(s, "[CC_")
  {
    forall p | 0 <= p < |s|
      ensures !("[CC_" <= s[p..])
    {
      assert s[p..][0] == s[p];
    }
  }

  lemma {:induction false} AddressIsNotGuarded(kind: Kind, s: string)
    requires IsAddress(s)
    ensures !Guarded(kind, s, Match(s, 0, |s|))
  {
    assert Slice(s, 0, |s| + 10) == s;
    NoCardToken(s);
  }

  lemma {:induction false} AddressFound(t: Tables, kind: Kind, s: string)
    requires IsAddress(s) && s !in t.reverse
    ensures MaskedKind(kind, Masking(t, s), WholeText(kind)) ==
      Masking(Enter(t, kind, s), Token(kind, Count(t.counters, kind) + 1))
  {
    var g, m := Masking(t, s), Match(s, 0, |s|);
    AddressIsNotGuarded(kind, s);
    ReplaceWhole(s, Token(kind, Count(t.counters, kind) + 1));
    assert WholeText(kind)(kind, s) == [m];
    OneMatch(kind, g, m);
  }

  /** A new address masked alone becomes the next token of its kind. */
  lemma {:induction false} AddressBecomesToken(t: Tables, kind: Kind, s: string)
    requires IsAddress(s) && s !in t.reverse
    ensures
      var n := Count(t.counters, kind) + 1;
      Masked(Masking(t, s), WholeText(kind)) == Masking(Enter(t, kind, s), Token(kind, n))
  {
    var find, n := WholeText(kind), Count(t.counters, kind) + 1;
    var g, h := Masking(t, s), Masking(Enter(t, kind, s), Token(kind, n));
    AddressFound(t, kind, s);
    TokenIsNoAddress(kind, n);
    forall k
      ensures MaskedKind(k, g, find) == if k == kind then h else g
      ensures MaskedKind(k, h, find) == h
    {
      NothingFound(kind, k, h);
      if k != kind {
        NothingFound(kind, k, g);
      }
    }
  }

  /** The `j`-th example address. */
  function Address(j: nat): (s: string)
    ensures IsAddress(s)
  {
    DecimalDigits(j);
    assert (Decimal(j) + "@b.co")[|Decimal(j)|] == '@';
    Decimal(j) + "@b.co"
  }

  lemma AddressInjective(i: nat, j: nat)
    requires Address(i) == Address(j)
    ensures i == j
  {
    assert Address(i)[..|Address(i)| - 5] == Decimal(i) && Address(j)[..|Address(j)| - 5] == Decimal(j);
    DecimalRoundTrip(i);
    DecimalRoundTrip(j);
  }

  /** After `n` addresses: as many tokens of the kind, and none of any other. */
  ghost predicate OnlyAddresses(t: Tables, kind: Kind, n: nat) {
    && Count(t.counters, kind) == n
    && (forall k :: k != kind ==> Count(t.counters, k) == 0)
    && (forall o :: o in t.reverse ==> exists i: nat :: i < n && o == Address(i))
  }

  predicate Restores(m: Mapping, token: string, original: string) {
    token in m && m[token] == original
  }

  lemma NewAddress(t: Tables, kind: Kind, n: nat)
    requires OnlyAddresses(t, kind, n)
    ensures Address(n) !in t.reverse && OnlyAddresses(Enter(t, kind, Address(n)), kind, n + 1)
    ensures Restores(Enter(t, kind, Address(n)).mappings, Token(kind, n + 1), Address(n))
  {
    if Address(n) in t.reverse {
      var i: nat :| i < n && Address(n) == Address(i);
      AddressInjective(n, i);
    }
    var r := Enter(t, kind, Address(n));
    forall k | k != kind
      ensures Count(r.counters, k) == 0
    {
      assert Count(t.counters, k) == 0;
    }
    forall o | o in r.reverse
      ensures exists i: nat :: i < n + 1 && o == Address(i)
    {
      if o == Address(n) {
        assert n < n + 1 && o == Address(n);
      } else {
        var i: nat :| i < n && o == Address(i);
        assert i < n + 1 && o == Address(i);
      }
    }
  }

  lemma TokenHolderIsNoAddress(kind: Kind, n: nat, text: string)
    requires OccursIn(Token(kind, n), text)
    ensures !IsAddress(text)
  {
    var k :| 0 <= k <= |text| && Token(kind, n) <= text[k..];
    assert text[k..][0] == '[';
    assert text[k] == '[';
  }

  lemma NothingMasked(kind: Kind, g: Masking)
    requires !IsAddress(g.text)
    ensures Masked(g, WholeText(kind)) == g
  {
    forall k
      ensures MaskedKind(k, g, WholeText(kind)) == g
    {
      NothingFound(kind, k, g);
    }
  }

  /** Mask an address that is new to the masker, alone. */
  method MaskAddress(masker: PIIMasker, kind: Kind, s: string) returns (masked: string)
    requires masker.Valid() && IsAddress(s) && s !in masker.reverse
    modifies masker
    ensures masker.Valid() && masker.View() == Enter(old(masker.View()), kind, s)
  {
    AddressIsPii(s);
    EnterKeepsOk(masker.View(), kind, s);
    AddressBecomesToken(masker.View(), kind, s);
    masked := masker.Mask(s, WholeText(kind));
  }

  /** Mask a text in which nothing is found, and unmask it. */
  method RoundTrip(masker: PIIMasker, kind: Kind, text: string) returns (restored: string)
    requires masker.Valid() && FewTokens(masker.counters) && !IsAddress(text)
    modifies masker
    ensures masker.Valid() && masker.View() == old(masker.View()) && WellMapped(masker.mappings)
    ensures restored == Restore(text, masker.mappings)
  {
    NothingMasked(kind, Masking(masker.View(), text));
    var masked := masker.Mask(text, WholeText(kind));
    restored := masker.Unmask(masked);
  }

  /** A masker that has masked `n` addresses: its last token stands for the last of them. */
  method MaskerOf(kind: Kind, n: nat) returns (masker: PIIMasker)
    requires 1 <= n < TOKENS_PER_KIND
    ensures fresh(masker) && masker.Valid() && FewTokens(masker.counters)
    ensures Restores(masker.mappings, Token(kind, n), Address(n - 1))
  {
    masker := new PIIMasker();
    for j := 0 to n
      invariant fresh(masker) && masker.Valid() && OnlyAddresses(masker.View(), kind, j)
      invariant j > 0 ==> Restores(masker.mappings, Token(kind, j), Address(j - 1))
    {
      NewAddress(masker.View(), kind, j);
      var masked := MaskAddress(masker, kind, Address(j));
    }
  }

  /** Every text that holds a token a masker may issue is lost on some masker: one that has issued the token before. */
  method TokenHolderIsLost(kind: Kind, n: nat, text: string) returns (masker: PIIMasker, restored: string)
    requires 1 <= n < TOKENS_PER_KIND && OccursIn(Token(kind, n), text)
    ensures fresh(masker) && masker.Valid() && FewTokens(masker.counters)
    ensures Restores(masker.mappings, Token(kind, n), Address(n - 1))
    ensures Sound(WholeText(kind)) && !GivesBack(masker.View(), text, WholeText(kind))
    ensures WellMapped(masker.mappings) && restored == Restore(text, masker.mappings) != text
  {
    masker := MaskerOf(kind, n);
    TokenHolderIsNoAddress(kind, n, text);
    restored := RoundTrip(masker, kind, text);
    RestoreIsIdentityIff(text, masker.mappings);
    WholeTextIsSound(kind);
    NothingMasked(kind, Masking(masker.View(), text));
  }

  /** The tables of a masker that has masked `n` addresses. */
  function AddressTables(kind: Kind, n: nat): Tables {
    if n == 0 then NO_TABLES else Enter(AddressTables(kind, n - 1), kind, Address(n - 1))
  }

  lemma {:induction false} AddressTablesOk(kind: Kind, n: nat)
    ensures Ok(AddressTables(kind, n)) && OnlyAddresses(AddressTables(kind, n), kind, n)
    ensures n > 0 ==> Restores(AddressTables(kind, n).mappings, Token(kind, n), Address(n - 1))
  {
    if n > 0 {
      var t := AddressTables(kind, n - 1);
      AddressTablesOk(kind, n - 1);
      AddressIsPii(Address(n - 1));
      EnterKeepsOk(t, kind, Address(n - 1));
      NewAddress(t, kind, n - 1);
    }
  }

  /** The text comes back on every consistent masker and for every detector, as long as few tokens are issued. */
  ghost predicate AlwaysGivenBack(text: string) {
    forall t: Tables, find: Detector {:trigger GivesBack(t, text, find)} ::
      Ok(t) && Sound(find) && FewTokens(Masked(Masking(t, text), find).tables.counters) ==> GivesBack(t, text, find)
  }

  lemma FreeTextIsGivenBack(t: Tables, text: string, find: Detector)
    requires Ok(t) && Sound(find) && FewTokens(Masked(Masking(t, text), find).tables.counters) && HoldsNoToken(text)
    ensures GivesBack(t, text, find)
  {
    var g := Masked(Masking(t, text), find);
    MaskedFollows(Masking(t, text), find);
    IssuedAreWellMapped(g.tables.mappings, g.tables.counters);
    NoneIssuedIn(text, g.tables.mappings, g.tables.counters);
    RestoreIsIdentityIff(text, g.tables.mappings);
  }

  lemma HolderIsNotGivenBack(kind: Kind, n: nat, text: string)
    requires 1 <= n < TOKENS_PER_KIND && OccursIn(Token(kind, n), text)
    ensures !AlwaysGivenBack(text)
  {
    var t, find := AddressTables(kind, n), WholeText(kind);
    AddressTablesOk(kind, n);
    WholeTextIsSound(kind);
    TokenHolderIsNoAddress(kind, n, text);
    NothingMasked(kind, Masking(t, text));
    IssuedAreWellMapped(t.mappings, t.counters);
    RestoreIsIdentityIff(text, t.mappings);
    assert !GivesBack(t, text, find);
  }

  /** A condition on the text alone: it is given back by every masker if and only if no token that may be issued
    * stands in it. */
  lemma AlwaysGivenBackIff(text: string)
    ensures AlwaysGivenBack(text) <==> HoldsNoToken(text)
  {
    if HoldsNoToken(text) {
      forall t, find | Ok(t) && Sound(find) && FewTokens(Masked(Masking(t, text), find).tables.counters)
        ensures GivesBack(t, text, find)
      {
        FreeTextIsGivenBack(t, text, find);
      }
    } else {
      var kind, n: nat :| 1 <= n < TOKENS_PER_KIND && OccursIn(Token(kind, n), text);
      HolderIsNotGivenBack(kind, n, text);
    }
  }

  lemma FirstToken()
    ensures Token(EMAIL, 1) == "[EMAIL_1]" && Address(0) == "0@b.co"
  {}

  lemma RestoreAlone(u: string, m: Mapping)
    requires WellMapped(m) && u in m
    ensures Restore(u, m) == m[u]
  {
    RestoreToken(u, "", m);
    assert u + "" == u && m[u] + "" == m[u];
  }

  /** A masker that has masked one address does not give back a text that is its token: the address comes out. */
  method LiteralTokenIsLost() returns (masker: PIIMasker, text: string, restored: string)
    ensures fresh(masker) && masker.Valid() && FewTokens(masker.counters)
    ensures Sound(WholeText(EMAIL)) && !GivesBack(masker.View(), text, WholeText(EMAIL))
    ensures WellMapped(masker.mappings) && Restore(text, masker.mappings) == restored
    ensures text == "[EMAIL_1]" && restored == "0@b.co"
  {
    FirstToken();
    text := Token(EMAIL, 1);
    assert text <= text[0..] && OccursIn(text, text);
    masker, restored := TokenHolderIsLost(EMAIL, 1, text);
    RestoreAlone(text, masker.mappings);
  }
}
