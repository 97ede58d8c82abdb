/** The brace-matching extraction of agents/output_parser.py and its place among the parsing strategies. */
module BraceScanner {
  import opened Prelude
  import opened Json

  // ---------------------------------------------------------------- the scanner as a machine over characters

  datatype Scan = Scan(depth: int, inString: bool, escapeNext: bool)

  const START := Scan(0, false, false)

  function Next(s: Scan, c: char): Scan {
    if s.escapeNext then s.(escapeNext := false)
    else if c == '\\' then s.(escapeNext := true)
    else if c == '"' then s.(inString := !s.inString)
    else if s.inString then s
    else if c == '{' then s.(depth := s.depth + 1)
    else if c == '}' then s.(depth := s.depth - 1)
    else s
  }

  /** The character is a closing brace that brings the depth back to zero. */
  predicate Closes(s: Scan, c: char) {
    !s.escapeNext && !s.inString && c == '}' && s.depth == 1
  }

  /** The outcome of scanning a text: still open in some state, or closed after a number of characters. */
  datatype Outcome = Open(state: Scan) | Closed(length: nat)

  function Feed(s: Scan, text: string): Outcome
    decreases |text|
  {
    if text == "" then Open(s)
    else if Closes(s, text[0]) then Closed(1)
    else
      match Feed(Next(s, text[0]), text[1..])
      case Open(t) => Open(t)
      case Closed(n) => Closed(n + 1)
  }

  function After(o: Outcome, length: nat, text: string): Outcome {
    match o
    case Closed(n) => Closed(n)
    case Open(s) =>
      match Feed(s, text)
      case Open(t) => Open(t)
      case Closed(n) => Closed(length + n)
  }

  lemma {:induction false} FeedConcat(s: Scan, a: string, b: string)
    ensures Feed(s, a + b) == After(Feed(s, a), |a|, b)
    decreases |a|
  {
    if a == "" {
      assert a + b == b;
    } else {
      assert (a + b)[0] == a[0] && (a + b)[1..] == a[1..] + b;
      FeedConcat(Next(s, a[0]), a[1..], b);
    }
  }

  /** The position of the first '{', or |text| when there is none. */
  function FirstBrace(text: string): (p: nat)
    ensures p <= |text| && (forall k :: 0 <= k < p ==> text[k] != '{') && (p < |text| ==> text[p] == '{')
  {
    if text == "" || text[0] == '{' then 0 else 1 + FirstBrace(text[1..])
  }

  /** The start and end of the candidate text, if the braces that open at the first '{' close again. */
  function Candidate(text: string): Option<(nat, nat)> {
    var start := FirstBrace(text);
    match Feed(START, text[start..])
    case Open(_) => None
    case Closed(n) => Some((start, start + n))
  }

  lemma {:induction false} ClosedInside(s: Scan, text: string)
    ensures Feed(s, text).Closed? ==> 0 < Feed(s, text).length <= |text|
    decreases |text|
  {
    if text != "" {
      ClosedInside(Next(s, text[0]), text[1..]);
    }
  }

  /** Extending a closed text does not move the place where it closed. */
  lemma ClosedStays(s: Scan, a: string, b: string)
    requires Feed(s, a).Closed?
    ensures Feed(s, a + b) == Feed(s, a)
  {
    FeedConcat(s, a, b);
  }

  /** `_try_brace_extraction`; `loads` gives a dictionary when json.loads returns one. */
  method TryBraceExtraction<Dict>(text: string, loads: string -> Option<Dict>) returns (result: Option<Dict>)
    ensures result == match Candidate(text)
      case None => None
      case Some((from, to)) => if from <= to <= |text| then loads(text[from..to]) else None
    ensures Candidate(text).Some? ==> Candidate(text).value.0 <= Candidate(text).value.1 <= |text|
  {
    var start := FirstBrace(text);
    ClosedInside(START, text[start..]);
    if start == |text| {
      return None;
    }
    var scan := START;
    var i := start;
    while i < |text|
      invariant start <= i <= |text|
      invariant After(Open(scan), i - start, text[i..]) == Feed(START, text[start..])
    {
      var c := text[i];
      assert text[i..][0] == c && text[i..][1..] == text[i + 1..];
      if Closes(scan, c) {
        return loads(text[start..i + 1]);
      }
      scan := Next(scan, c);
      i := i + 1;
    }
    return None;
  }

  // ---------------------------------------------------------------- JSON texts leave the scanner where it was

  /** Outside strings, with a brace open. */
  predicate Inside(s: Scan) {
    s.depth >= 1 && !s.inString && !s.escapeNext
  }

  predicate Quiet(text: string) {
    forall c :: c in text ==> c != '"' && c != '\\' && c != '{' && c != '}'
  }

  lemma {:induction false} QuietText(s: Scan, text: string)
    requires Inside(s) && Quiet(text)
    ensures Feed(s, text) == Open(s)
  {
    if text != "" {
      assert text[0] in text && forall c :: c in text[1..] ==> c in text;
      QuietText(s, text[1..]);
    }
  }

  lemma SpaceIsQuiet(text: string)
    requires IsSpace(text)
    ensures Quiet(text)
  {}

  lemma NumberIsQuiet(n: Number)
    requires n.Valid()
    ensures Quiet(n.Text())
  {
    forall c | c in n.Text()
      ensures c == '-' || c == '+' || c == '.' || c == 'e' || c == 'E' || '0' <= c <= '9'
    {
      assert c in n.whole || c in n.fraction || c in n.exponent || c in n.sign || c == n.marker || c == '-' || c == '.';
    }
  }

  lemma CharText(s: Scan, c: Char)
    requires s.inString && !s.escapeNext && c.Valid()
    ensures Feed(s, c.Text()) == Open(s)
  {
    match c
    case Plain(p) =>
      assert c.Text()[1..] == "";
    case Escape(e) =>
      FeedConcat(s, "\\", [e]);
      One(s, '\\');
      One(s.(escapeNext := true), e);
    case Unicode(hex) =>
      FeedConcat(s, "\\u", hex);
      assert "\\u"[1..] == "u" && "u"[1..] == "";
      HexText(s, hex);
  }

  lemma {:induction false} HexText(s: Scan, hex: string)
    requires s.inString && !s.escapeNext && IsHex(hex)
    ensures Feed(s, hex) == Open(s)
  {
    if hex != "" {
      assert hex[0] in hex && forall c :: c in hex[1..] ==> c in hex;
      HexText(s, hex[1..]);
    }
  }

  lemma {:induction false} CharsTextNeutral(s: Scan, chars: seq<Char>)
    requires s.inString && !s.escapeNext && ValidChars(chars)
    ensures Feed(s, CharsText(chars)) == Open(s)
  {
    if chars != [] {
      CharText(s, chars[0]);
      CharsTextNeutral(s, chars[1..]);
      FeedConcat(s, chars[0].Text(), CharsText(chars[1..]));
    }
  }

  lemma One(s: Scan, c: char)
    ensures Feed(s, [c]) == if Closes(s, c) then Closed(1) else Open(Next(s, c))
  {
    assert [c][1..] == "";
  }

  lemma StringNeutral(s: Scan, chars: seq<Char>)
    requires Inside(s) && ValidChars(chars)
    ensures Feed(s, StringText(chars)) == Open(s)
  {
    var t := s.(inString := true);
    One(s, '"');
    One(t, '"');
    CharsTextNeutral(t, chars);
    FeedConcat(s, "\"", CharsText(chars));
    FeedConcat(s, "\"" + CharsText(chars), "\"");
  }

  /** Two texts that each leave the scanner where it was do so together. */
  lemma Then(s: Scan, a: string, b: string)
    requires Feed(s, a) == Open(s) && Feed(s, b) == Open(s)
    ensures Feed(s, a + b) == Open(s)
  {
    FeedConcat(s, a, b);
  }

  /** Scanning a JSON value inside an object ends in the state it began in, whatever braces and quotes its strings
    * hold. */
  lemma {:induction false} ValueNeutral(s: Scan, v: Value)
    requires Inside(s) && Valid(v)
    ensures Feed(s, Text(v)) == Open(s)
    decreases v
  {
    match v
    case False => QuietText(s, Text(v));
    case Null => QuietText(s, Text(v));
    case True => QuietText(s, Text(v));
    case Num(number) =>
      NumberIsQuiet(number);
      QuietText(s, Text(v));
    case Str(chars) => StringNeutral(s, chars);
    case Array(space, items) =>
      ItemsNeutral(s, items);
      ArrayNeutral(s, space, items);
    case Object(space, members) =>
      MembersNeutral(s.(depth := s.depth + 1), members);
      ObjectNeutral(s, space, members);
  }

  lemma {:induction false} ArrayNeutral(s: Scan, space: string, items: Items)
    requires Inside(s) && IsSpace(space) && Feed(s, ItemsText(items)) == Open(s)
    ensures Feed(s, Text(Array(space, items))) == Open(s)
  {
    QuietText(s, "[");
    QuietText(s, space);
    QuietText(s, "]");
    Then(s, ItemsText(items), "]");
    Then(s, space, ItemsText(items) + "]");
    Then(s, "[", space + (ItemsText(items) + "]"));
  }

  /** A pair of braces around a text that leaves the scanner where it was closes the candidate, or does so as well. */
  lemma BracedText(s: Scan, inner: string)
    requires s.depth >= 0 && !s.inString && !s.escapeNext
    requires Feed(s.(depth := s.depth + 1), inner) == Open(s.(depth := s.depth + 1))
    ensures Feed(s, "{" + (inner + "}")) == if s.depth == 0 then Closed(|inner| + 2) else Open(s)
  {
    var t := s.(depth := s.depth + 1);
    One(s, '{');
    One(t, '}');
    FeedConcat(t, inner, "}");
    FeedConcat(s, "{", inner + "}");
  }

  lemma {:induction false} ObjectNeutral(s: Scan, space: string, members: Members)
    requires s.depth >= 0 && !s.inString && !s.escapeNext && IsSpace(space)
    requires Feed(s.(depth := s.depth + 1), MembersText(members)) == Open(s.(depth := s.depth + 1))
    ensures Feed(s, Text(Object(space, members))) ==
      if s.depth == 0 then Closed(|Text(Object(space, members))|) else Open(s)
  {
    var t, inner := s.(depth := s.depth + 1), space + MembersText(members);
    QuietText(t, space);
    Then(t, space, MembersText(members));
    BracedText(s, inner);
    assert Text(Object(space, members)) == "{" + (inner + "}");
  }

  lemma {:induction false} ItemsNeutral(s: Scan, items: Items)
    requires Inside(s) && ValidItems(items)
    ensures Feed(s, ItemsText(items)) == Open(s)
    decreases items
  {
    match items
    case NoItems =>
    case Item(before, value, after, rest) =>
      SpaceIsQuiet(before);
      SpaceIsQuiet(after);
      QuietText(s, before);
      QuietText(s, after);
      ValueNeutral(s, value);
      ItemsNeutral(s, rest);
      QuietText(s, ",");
      Then(s, ",", ItemsText(rest));
      var tail := if rest.NoItems? then "" else "," + ItemsText(rest);
      Then(s, after, tail);
      Then(s, Text(value), after + tail);
      Then(s, before, Text(value) + (after + tail));
  }

  lemma {:induction false} MembersNeutral(s: Scan, members: Members)
    requires Inside(s) && ValidMembers(members)
    ensures Feed(s, MembersText(members)) == Open(s)
    decreases members
  {
    match members
    case NoMembers =>
    case Member(before, name, afterName, beforeValue, value, after, rest) =>
      var colon := afterName + ":" + beforeValue;
      QuietText(s, before);
      QuietText(s, colon);
      QuietText(s, after);
      StringNeutral(s, name);
      ValueNeutral(s, value);
      MembersNeutral(s, rest);
      QuietText(s, ",");
      Then(s, ",", MembersText(rest));
      var tail := if rest.NoMembers? then "" else "," + MembersText(rest);
      Then(s, after, tail);
      Then(s, Text(value), after + tail);
      Then(s, colon, Text(value) + (after + tail));
      Then(s, StringText(name), colon + (Text(value) + (after + tail)));
      Then(s, before, StringText(name) + (colon + (Text(value) + (after + tail))));
  }

  /** From the start state, an object text closes exactly at its last character. */
  lemma ObjectCloses(o: Value)
    requires o.Object? && Valid(o)
    ensures Feed(START, Text(o)) == Closed(|Text(o)|)
  {
    MembersNeutral(START.(depth := 1), o.members);
    ObjectNeutral(START, o.space, o.members);
  }

  // ---------------------------------------------------------------- exactness

  lemma NoBraceIn(prefix: string, rest: string)
    requires '{' !in prefix
    ensures forall k :: 0 <= k < |prefix| ==> (prefix + rest)[k] != '{'
  {}

  lemma FirstBraceOf(prefix: string, rest: string)
    ensures '{' !in prefix && rest != "" && rest[0] == '{' ==> FirstBrace(prefix + rest) == |prefix|
    ensures '{' in prefix ==> FirstBrace(prefix + rest) < |prefix|
  {
    var p := FirstBrace(prefix + rest);
    if '{' in prefix {
      var k :| 0 <= k < |prefix| && prefix[k] == '{';
      assert (prefix + rest)[k] == '{';
    } else if rest != "" && rest[0] == '{' {
      assert (prefix + rest)[|prefix|] == '{';
      NoBraceIn(prefix, rest);
    }
  }

  /** In prefix + object + suffix the candidate is exactly the object text if and only if no '{' comes before it. */
  lemma ExtractionIsExact(prefix: string, o: Value, suffix: string)
    requires o.Object? && Valid(o)
    ensures Candidate(prefix + Text(o) + suffix) == Some((|prefix|, |prefix| + |Text(o)|)) <==> '{' !in prefix
  {
    var text, rest := prefix + Text(o) + suffix, Text(o) + suffix;
    assert text == prefix + rest && rest[0] == '{';
    FirstBraceOf(prefix, rest);
    if '{' !in prefix {
      assert text[|prefix|..] == rest;
      ObjectCloses(o);
      ClosedStays(START, Text(o), suffix);
    }
  }

  /** An object text that is cut off before its end has no candidate. */
  lemma TruncatedObjectIsNotExtracted(prefix: string, o: Value, cut: nat)
    requires o.Object? && Valid(o) && '{' !in prefix && cut < |Text(o)|
    ensures Candidate(prefix + Text(o)[..cut]) == None
  {
    var part := Text(o)[..cut];
    ObjectCloses(o);
    assert part + Text(o)[cut..] == Text(o);
    ClosedInside(START, part);
    if Feed(START, part).Closed? {
      ClosedStays(START, part, Text(o)[cut..]);
    }
    assert part != "" ==> part[0] == '{';
    FirstBraceOf(prefix, part);
    if part == "" {
      assert prefix + part == prefix;
      NoBraceIn(prefix, part);
    } else {
      assert (prefix + part)[|prefix|..] == part;
    }
  }

  /** The documented "first valid JSON object" is missed when a brace group that is not JSON comes first. */
  lemma EarlierBracesHideTheObject()
    ensures Candidate("{x} {}") == Some((0, 3))
    ensures Valid(Object("", NoMembers)) && Text(Object("", NoMembers)) == "{}"
  {
    var t := START.(depth := 1);
    FeedConcat(START, "{", "x} {}");
    One(START, '{');
    FeedConcat(t, "x", "} {}");
    QuietText(t, "x");
    assert "{" + "x} {}" == "{x} {}" && "x" + "} {}" == "x} {}";
    assert "{x} {}"[0..] == "{x} {}";
  }

  /** The first character that is not white space, or a blank if there is none. */
  function FirstSolid(text: string): char {
    if text == "" then ' '
    else if text[0] in " \t\n\r" then FirstSolid(text[1..])
    else text[0]
  }

  lemma {:induction false} SkipSpace(space: string, rest: string)
    requires IsSpace(space)
    ensures FirstSolid(space + rest) == FirstSolid(rest)
  {
    if space == "" {
      assert space + rest == rest;
    } else {
      assert (space + rest)[0] == space[0] && space[0] in space;
      assert (space + rest)[1..] == space[1..] + rest;
      SkipSpace(space[1..], rest);
    }
  }

  /** After the brace that opens an object comes a quote or the closing brace. */
  lemma AfterOpeningBrace(v: Value)
    requires Valid(v) && v.Object?
    ensures Text(v) != "" && FirstSolid(Text(v)[1..]) in "\"}"
  {
    var inner := MembersText(v.members) + "}";
    assert Text(v)[1..] == v.space + inner;
    SkipSpace(v.space, inner);
    if v.members.Member? {
      var m := v.members;
      var rest := inner[|m.before|..];
      assert inner == m.before + rest && rest[0] == '"';
      SkipSpace(m.before, rest);
    }
  }

  lemma OnlyObjectsOpenBraces(v: Value)
    requires Valid(v) && !v.Object?
    ensures Text(v) != "" && Text(v)[0] != '{'
  {
    if v.Num? {
      var n := v.number;
      assert n.whole[0] in n.whole;
      assert n.Text()[0] == if n.negative then '-' else n.whole[0];
    }
  }

  /** The brace group that hides the object is no JSON text. */
  lemma HidingGroupIsNotJson(v: Value)
    requires Valid(v)
    ensures Text(v) != "{x}"
  {
    assert "{x}"[1..] == "x}" && FirstSolid("x}") == 'x';
    if v.Object? {
      AfterOpeningBrace(v);
    } else {
      OnlyObjectsOpenBraces(v);
    }
  }

  // ---------------------------------------------------------------- the strategies in order

  datatype Parse<Dict> = Parsed(dict: Dict) | Error(tried: seq<string>)

  const ALL_STRATEGIES := ["direct_json", "fenced_json", "brace_extraction"]

  /** `parse_agent_output`, with the first two strategies and the model validation as oracles. */
  method ParseAgentOutput<Dict(0)>(
    raw: string, blank: string -> bool, direct: string -> Option<Dict>, fenced: string -> Option<Dict>,
    loads: string -> Option<Dict>, valid: Dict -> bool)
    returns (parse: Parse<Dict>)
    ensures blank(raw) ==> parse == Error([])
    ensures !blank(raw) ==>
      match Extracted(raw, direct, fenced, loads)
      case None => parse == Error(ALL_STRATEGIES)
      case Some(d) =>
        parse == if valid(d) then Parsed(d) else Error(Tried(raw, direct, fenced) + ["pydantic_validation"])
  {
    if blank(raw) {
      return Error([]);
    }
    var tried := ["direct_json"];
    var parsed := direct(raw);
    if parsed.None? {
      tried := tried + ["fenced_json"];
      parsed := fenced(raw);
    }
    if parsed.None? {
      tried := tried + ["brace_extraction"];
      parsed := TryBraceExtraction(raw, loads);
    }
    match parsed
    case None => return Error(tried);
    case Some(d) => return if valid(d) then Parsed(d) else Error(tried + ["pydantic_validation"]);
  }

  /** The strategies up to the first that succeeds; brace extraction is the last resort. */
  function Tried<Dict>(raw: string, direct: string -> Option<Dict>, fenced: string -> Option<Dict>): (r: seq<string>)
    ensures r != [] && r <= ALL_STRATEGIES
  {
    ALL_STRATEGIES[..if direct(raw).Some? then 1 else if fenced(raw).Some? then 2 else 3]
  }

  /** The dictionary that the first successful strategy yields. */
  function Extracted<Dict>(
    raw: string, direct: string -> Option<Dict>, fenced: string -> Option<Dict>, loads: string -> Option<Dict>)
    : Option<Dict>
  {
    if direct(raw).Some? then direct(raw)
    else if fenced(raw).Some? then fenced(raw)
    else
      match Candidate(raw)
      case None => None
      case Some((from, to)) => if from <= to <= |raw| then loads(raw[from..to]) else None
  }

  /** The first strategy that finds a dictionary wins: the whole text, then a fence, then the braces. */
  lemma FirstStrategyWins<Dict>(
    raw: string, direct: string -> Option<Dict>, fenced: string -> Option<Dict>, loads: string -> Option<Dict>)
    ensures
      var found := Extracted(raw, direct, fenced, loads);
      && (direct(raw).Some? ==> found == direct(raw))
      && (direct(raw).None? && fenced(raw).Some? ==> found == fenced(raw))
      && (direct(raw).None? && fenced(raw).None? && Candidate(raw).None? ==> found == None)
      && (direct(raw).None? && fenced(raw).None? && Candidate(raw).Some? ==>
            var (from, to) := Candidate(raw).value;
            from <= to <= |raw| && found == loads(raw[from..to]))
  {
    ClosedInside(START, raw[FirstBrace(raw)..]);
  }

  /** Prose around a JSON object never hides it: unless an earlier strategy already found a dictionary, the object
    * itself is used. */
  lemma EmbeddedObjectIsFound<Dict>(
    prefix: string, o: Value, suffix: string,
    direct: string -> Option<Dict>, fenced: string -> Option<Dict>, loads: string -> Option<Dict>)
    requires o.Object? && Valid(o) && '{' !in prefix && loads(Text(o)).Some?
    ensures
      var raw := prefix + Text(o) + suffix;
      var found := Extracted(raw, direct, fenced, loads);
      found.Some? && (direct(raw).None? && fenced(raw).None? ==> found == loads(Text(o)))
  {
    ExtractionIsExact(prefix, o, suffix);
    assert (prefix + Text(o) + suffix)[|prefix|..|prefix| + |Text(o)|] == Text(o);
  }
}
