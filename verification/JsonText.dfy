/** JSON texts as trees that remember their layout (RFC 8259, sections 2 to 7), and their printer.
    The layout is free: any whitespace around any token, any of the string escapes. */
module JsonText {

  /** One character of a string literal (section 7). */
  datatype StringPart =
    | Plain(c: char)
    | Escape(c: char)
    | Unicode(hex: string)

  datatype Json =
    | Literal(text: string)  // a number, true, false or null
    | Text(parts: seq<StringPart>)
    | Array(blank: string, elements: seq<Element>)
    | Object(blank: string, members: seq<Member>)

  datatype Element = Element(before: string, value: Json, after: string)

  datatype Member = Member(before: string, name: seq<StringPart>, colon: string, element: Element)

  // ---------- which trees are JSON ----------

  /** Insignificant whitespace (section 2). */
  predicate IsLayout(s: string) {
    forall i :: 0 <= i < |s| ==> s[i] in " \t\n\r"
  }

  /** Free of the three characters that carry structure; all of `true`, `false`, `null` and every number are. */
  predicate IsPlainToken(s: string) {
    '"' !in s && '{' !in s && '}' !in s
  }

  predicate ValidPart(p: StringPart) {
    match p
    case Plain(c) => c != '"' && c != '\\' && ' ' <= c
    case Escape(c) => c in "\"\\/bfnrt"
    case Unicode(hex) => |hex| == 4 && forall i :: 0 <= i < 4 ==> hex[i] in "0123456789abcdefABCDEF"
  }

  predicate ValidParts(parts: seq<StringPart>) {
    forall i :: 0 <= i < |parts| ==> ValidPart(parts[i])
  }

  predicate Valid(v: Json)
    decreases v
  {
    match v
    case Literal(text) => text != "" && IsPlainToken(text)
    case Text(parts) => ValidParts(parts)
    case Array(blank, elements) =>
      IsLayout(blank) && forall i :: 0 <= i < |elements| ==> ValidElement(elements[i])
    case Object(blank, members) =>
      IsLayout(blank) && forall i :: 0 <= i < |members| ==> ValidMember(members[i])
  }

  predicate ValidElement(e: Element)
    decreases e
  {
    IsLayout(e.before) && Valid(e.value) && IsLayout(e.after)
  }

  predicate ValidMember(m: Member)
    decreases m
  {
    IsLayout(m.before) && ValidParts(m.name) && IsLayout(m.colon) && ValidElement(m.element)
  }

  // ---------- printing ----------

  function PrintPart(p: StringPart): string {
    match p
    case Plain(c) => [c]
    case Escape(c) => ['\\', c]
    case Unicode(hex) => "\\u" + hex
  }

  function PrintParts(parts: seq<StringPart>): string {
    if parts == [] then "" else PrintPart(parts[0]) + PrintParts(parts[1..])
  }

  function Quote(parts: seq<StringPart>): string {
    "\"" + PrintParts(parts) + "\""
  }

  function Print(v: Json): string
    decreases v, 2
  {
    match v
    case Literal(text) => text
    case Text(parts) => Quote(parts)
    case Array(blank, elements) => "[" + blank + PrintElements(elements) + "]"
    case Object(blank, members) => "{" + blank + PrintMembers(members) + "}"
  }

  function PrintElement(e: Element): string
    decreases e, 1
  {
    e.before + Print(e.value) + e.after
  }

  function PrintMember(m: Member): string
    decreases m, 1
  {
    m.before + Quote(m.name) + m.colon + ":" + PrintElement(m.element)
  }

  function PrintElements(es: seq<Element>): string
    decreases es, 0
  {
    if es == [] then ""
    else PrintElement(es[0]) + (if |es| == 1 then "" else ",") + PrintElements(es[1..])
  }

  function PrintMembers(ms: seq<Member>): string
    decreases ms, 0
  {
    if ms == [] then ""
    else PrintMember(ms[0]) + (if |ms| == 1 then "" else ",") + PrintMembers(ms[1..])
  }
}
