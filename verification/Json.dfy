/**
The part of JSON (RFC 8259) that output messages need, without insignificant white space: strings as section 7 defines
them, and objects as section 4 does.
*/
module Json {
  import opened Wrappers

  datatype Value = Text(text: string) | Object(members: seq<(string, Value)>)

  // ----- Strings -----

  function HexValue(c: char): (r: Option<nat>)
    ensures r.Some? ==> r.value < 0x10
  {
    if '0' <= c <= '9' then Some(c as int - '0' as int)
    else if 'a' <= c <= 'f' then Some(c as int - 'a' as int + 10)
    else if 'A' <= c <= 'F' then Some(c as int - 'A' as int + 10)
    else None
  }

  /** The value of the four hexadecimal digits at the start of `t`. */
  function Hex4(t: string): (r: Option<nat>)
    ensures r.Some? ==> r.value < 0x10000 && 4 <= |t|
  {
    if |t| < 4 then None
    else
      match (HexValue(t[0]), HexValue(t[1]), HexValue(t[2]), HexValue(t[3]))
      case (Some(a), Some(b), Some(c), Some(d)) => Some(((a * 0x10 + b) * 0x10 + c) * 0x10 + d)
      case _ => None
  }

  /** The character written by the `\u` escape whose digits start `t`, and how much of `t` it takes. */
  function ReadUnicodeEscape(t: string): (r: Option<(char, nat)>)
    ensures r.Some? ==> 0 < r.value.1 <= |t|
  {
    match Hex4(t)
    case None => None
    case Some(v) =>
      if v < 0xD800 || 0xE000 <= v then Some((v as char, 4))
      else if v < 0xDC00 && |t| >= 6 && t[4..6] == "\\u" then
        match Hex4(t[6..])
        case Some(w) =>
          if 0xDC00 <= w < 0xE000 then Some(((0x10000 + (v - 0xD800) * 0x400 + (w - 0xDC00)) as char, 10)) else None
        case None => None
      else None
  }

  /** The first character of a string body, and the length of its representation. */
  function ReadChar(t: string): (r: Option<(char, nat)>)
    requires t != []
    ensures r.Some? ==> 0 < r.value.1 <= |t|
  {
    if t[0] != '\\' then
      if t[0] < ' ' then None else Some((t[0], 1))
    else if |t| == 1 then None
    else
      match t[1]
      case '"' => Some(('"', 2))
      case '\\' => Some(('\\', 2))
      case '/' => Some(('/', 2))
      case 'b' => Some(('\U{8}', 2))
      case 'f' => Some(('\U{C}', 2))
      case 'n' => Some(('\n', 2))
      case 'r' => Some(('\r', 2))
      case 't' => Some(('\t', 2))
      case 'u' =>
        (match ReadUnicodeEscape(t[2..])
         case Some((c, n)) => Some((c, n + 2))
         case None => None)
      case _ => None
  }

  /** Reads a string up to its first unescaped quote; returns the text and what follows the quote. */
  function ReadString(t: string): (r: Option<(string, string)>)
    ensures r.Some? ==> |r.value.1| < |t|
    decreases |t|
  {
    if t == [] then None
    else if t[0] == '"' then Some(([], t[1..]))
    else
      match ReadChar(t)
      case None => None
      case Some((c, n)) =>
        match ReadString(t[n..])
        case None => None
        case Some((s, rest)) => Some(([c] + s, rest))
  }

  // ----- Values -----

  /** Reads a value at the start of `t`; returns it and what follows. */
  function ReadValue(t: string): (r: Option<(Value, string)>)
    ensures r.Some? ==> |r.value.1| < |t|
    decreases |t|
  {
    if t == [] then None
    else if t[0] == '"' then
      match ReadString(t[1..])
      case Some((s, rest)) => Some((Text(s), rest))
      case None => None
    else if t[0] == '{' then
      if |t| > 1 && t[1] == '}' then Some((Object([]), t[2..]))
      else
        match ReadMembers(t[1..])
        case Some((members, rest)) => Some((Object(members), rest))
        case None => None
    else None
  }

  /** Reads the members of an object up to its closing brace. */
  function ReadMembers(t: string): (r: Option<(seq<(string, Value)>, string)>)
    ensures r.Some? ==> |r.value.1| < |t|
    decreases |t|
  {
    match ReadMember(t)
    case None => None
    case Some((member, rest)) =>
      if rest == [] then None
      else if rest[0] == '}' then Some(([member], rest[1..]))
      else if rest[0] == ',' then
        match ReadMembers(rest[1..])
        case Some((more, after)) => Some(([member] + more, after))
        case None => None
      else None
  }

  function ReadMember(t: string): (r: Option<((string, Value), string)>)
    ensures r.Some? ==> |r.value.1| < |t|
    decreases |t|, 0
  {
    if t == [] || t[0] != '"' then None
    else
      match ReadString(t[1..])
      case None => None
      case Some((key, rest)) =>
        if rest == [] || rest[0] != ':' then None
        else
          match ReadValue(rest[1..])
          case Some((value, after)) => Some(((key, value), after))
          case None => None
  }

  /** The value of the first member with the given name. */
  function Member(v: Value, name: string): Option<Value> {
    if v.Object? then Lookup(v.members, name) else None
  }

  function Lookup(members: seq<(string, Value)>, name: string): Option<Value> {
    if members == [] then None
    else if members[0].0 == name then Some(members[0].1)
    else Lookup(members[1..], name)
  }

  lemma ReadsText(body: string, text: string, rest: string)
    requires ReadString(body) == Some((text, rest))
    ensures ReadValue("\"" + body) == Some((Text(text), rest))
  {
    assert ("\"" + body)[1..] == body;
  }

  lemma ReadsMember(body: string, key: string, after: string, value: Value, rest: string)
    requires ReadString(body) == Some((key, ":" + after)) && ReadValue(after) == Some((value, rest))
    ensures ReadMember("\"" + body) == Some(((key, value), rest))
  {
    assert ("\"" + body)[1..] == body;
    assert (":" + after)[1..] == after;
  }

  lemma ReadsLastMember(t: string, member: (string, Value), rest: string)
    requires ReadMember(t) == Some((member, "}" + rest))
    ensures ReadMembers(t) == Some(([member], rest))
  {
    assert ("}" + rest)[1..] == rest;
  }

  lemma ReadsFirstMember(t: string, member: (string, Value), after: string, more: seq<(string, Value)>, rest: string)
    requires ReadMember(t) == Some((member, "," + after)) && ReadMembers(after) == Some((more, rest))
    ensures ReadMembers(t) == Some(([member] + more, rest))
  {
    assert ("," + after)[1..] == after;
  }

  lemma ReadsObject(t: string, members: seq<(string, Value)>, rest: string)
    requires t != [] && t[0] == '"' && ReadMembers(t) == Some((members, rest))
    ensures ReadValue("{" + t) == Some((Object(members), rest))
  {
    assert ("{" + t)[1..] == t;
  }
}
