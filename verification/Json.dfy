/** JSON texts in the concrete syntax of RFC 8259: values with their white space, number digits and string escapes
  * as written. */
module Json {

  predicate IsSpace(s: string) {
    forall c :: c in s ==> c in " \t\n\r"
  }

  predicate IsDigits(s: string) {
    s != "" && forall c :: c in s ==> '0' <= c <= '9'
  }

  predicate IsHex(s: string) {
    forall c :: c in s ==> '0' <= c <= '9' || 'a' <= c <= 'f' || 'A' <= c <= 'F'
  }

  /** One character of a string, section 7. */
  datatype Char = Plain(c: char) | Escape(c: char) | Unicode(hex: string) {
    predicate Valid() {
      match this
      case Plain(c) => c >= ' ' && c != '"' && c != '\\'
      case Escape(c) => c in "\"\\/bfnrt"
      case Unicode(hex) => |hex| == 4 && IsHex(hex)
    }

    function Text(): string {
      match this
      case Plain(c) => [c]
      case Escape(c) => ['\\', c]
      case Unicode(hex) => "\\u" + hex
    }
  }

  /** A number, section 6: the fraction and the exponent are absent when their digits are. */
  datatype Number = Number(
    negative: bool, whole: string, fraction: string, marker: char, sign: string, exponent: string)
  {
    predicate Valid() {
      && IsDigits(whole) && (|whole| > 1 ==> whole[0] != '0')
      && (fraction == "" || IsDigits(fraction))
      && marker in "eE" && sign in ["", "+", "-"]
      && (exponent == "" || IsDigits(exponent))
    }

    function Text(): string {
      (if negative then "-" else "") + whole
      + (if fraction == "" then "" else "." + fraction)
      + (if exponent == "" then "" else [marker] + sign + exponent)
    }
  }

  datatype Value =
    | False | Null | True
    | Num(number: Number)
    | Str(chars: seq<Char>)
    | Array(space: string, items: Items)
    | Object(space: string, members: Members)

  /** The elements of an array, each with the white space around it. */
  datatype Items = NoItems | Item(before: string, value: Value, after: string, rest: Items)

  /** The members of an object, with the white space around name, colon and value. */
  datatype Members =
    | NoMembers
    | Member(
        before: string, name: seq<Char>, afterName: string, beforeValue: string, value: Value, after: string,
        rest: Members)

  predicate ValidChars(chars: seq<Char>) {
    forall k :: 0 <= k < |chars| ==> chars[k].Valid()
  }

  predicate Valid(v: Value) {
    match v
    case False => true
    case Null => true
    case True => true
    case Num(number) => number.Valid()
    case Str(chars) => ValidChars(chars)
    case Array(space, items) => IsSpace(space) && ValidItems(items)
    case Object(space, members) => IsSpace(space) && ValidMembers(members)
  }

  predicate ValidItems(items: Items) {
    match items
    case NoItems => true
    case Item(before, value, after, rest) => IsSpace(before) && Valid(value) && IsSpace(after) && ValidItems(rest)
  }

  predicate ValidMembers(members: Members) {
    match members
    case NoMembers => true
    case Member(before, name, afterName, beforeValue, value, after, rest) =>
      && IsSpace(before) && ValidChars(name) && IsSpace(afterName)
      && IsSpace(beforeValue) && Valid(value) && IsSpace(after)
      && ValidMembers(rest)
  }

  function CharsText(chars: seq<Char>): string {
    if chars == [] then "" else chars[0].Text() + CharsText(chars[1..])
  }

  function StringText(chars: seq<Char>): string {
    "\"" + CharsText(chars) + "\""
  }

  function Text(v: Value): string {
    match v
    case False => "false"
    case Null => "null"
    case True => "true"
    case Num(number) => number.Text()
    case Str(chars) => StringText(chars)
    case Array(space, items) => "[" + (space + (ItemsText(items) + "]"))
    case Object(space, members) => "{" + (space + (MembersText(members) + "}"))
  }

  function ItemsText(items: Items): string {
    match items
    case NoItems => ""
    case Item(before, value, after, rest) =>
      before + (Text(value) + (after + (if rest.NoItems? then "" else "," + ItemsText(rest))))
  }

  function MembersText(members: Members): string {
    match members
    case NoMembers => ""
    case Member(before, name, afterName, beforeValue, value, after, rest) =>
      before + (StringText(name) + ((afterName + ":" + beforeValue)
        + (Text(value) + (after + (if rest.NoMembers? then "" else "," + MembersText(rest))))))
  }
}
