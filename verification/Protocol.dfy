/**
The hand-written serialization of output messages in `src/protocol.rs`, with the reading of JSON as its partner.
*/
module Protocol {
  import opened Wrappers
  import opened Utf8
  import opened Json

  const TYPE_KEY: string := "\"" + "type" + "\":"
  const OUTPUT: string := "\"" + "output" + "\""
  const DATA_KEY: string := "\"" + "data" + "\":"
  const PAYLOAD_KEY: string := "\"" + "payload" + "\":"

  const PREFIX: string := "{" + (TYPE_KEY + (OUTPUT + ("," + (DATA_KEY + ("{" + (PAYLOAD_KEY + "\""))))))
  const SUFFIX: string := "\"" + ("}" + "}")
  const DIGITS: string := "0123456789abcdef"

  // ----- Writing -----

  function EscapeChar(c: char): (e: string)
    ensures e != [] && e[0] != '"'
  {
    if c == '"' then "\\\""
    else if c == '\\' then "\\\\"
    else if c == '\U{8}' then "\\b"
    else if c == '\U{C}' then "\\f"
    else if c == '\n' then "\\n"
    else if c == '\r' then "\\r"
    else if c == '\t' then "\\t"
    else if c < ' ' then
      var v := c as int;
      "\\u00" + [DIGITS[v / 0x10], DIGITS[v % 0x10]]
    else [c]
  }

  function Escape(s: string): string {
    if s == [] then [] else EscapeChar(s[0]) + Escape(s[1..])
  }

  lemma {:induction false} EscapeSnoc(s: string, c: char)
    ensures Escape(s + [c]) == Escape(s) + EscapeChar(c)
  {
    if s == [] {
      assert [] + [c] == [c] && [c][1..] == [];
    } else {
      assert (s + [c])[1..] == s[1..] + [c];
      EscapeSnoc(s[1..], c);
    }
  }

  method EscapeJsonPayload(buffer: string, s: string) returns (out: string)
    ensures out == buffer + Escape(s)
  {
    out := buffer;
    for i := 0 to |s|
      invariant out == buffer + Escape(s[..i])
    {
      assert s[..i + 1] == s[..i] + [s[i]];
      EscapeSnoc(s[..i], s[i]);
      Regroup(buffer, Escape(s[..i]), EscapeChar(s[i]));
      out := PushEscaped(out, s[i]);
    }
    assert s[..|s|] == s;
  }

  /** One round of the loop: appends the representation of `c`. */
  method PushEscaped(buffer: string, c: char) returns (out: string)
    ensures out == buffer + EscapeChar(c)
  {
    match c
    case '"' => out := buffer + "\\\"";
    case '\\' => out := buffer + "\\\\";
    case '\U{8}' => out := buffer + "\\b";
    case '\U{C}' => out := buffer + "\\f";
    case '\n' => out := buffer + "\\n";
    case '\r' => out := buffer + "\\r";
    case '\t' => out := buffer + "\\t";
    case _ =>
      if c as int < 0x20 {
        var v := c as int;
        out := buffer + "\\u";
        out := out + [DIGITS[v / 0x1000]];
        out := out + [DIGITS[v / 0x100]];
        out := out + [DIGITS[v / 0x10]];
        out := out + [DIGITS[v % 0x10]];
      } else {
        out := buffer + [c];
      }
  }

  /** Sends a burst of terminal bytes as one JSON text that reads back as the decoded text. */
  method OutputJson(payload: seq<byte>) returns (out: string)
    ensures out == PREFIX + Escape(Decode(payload)) + SUFFIX
    ensures ReadOutput(out) == Some(Decode(payload))
  {
    var text := Decode(payload);
    out := PREFIX;
    out := EscapeJsonPayload(out, text);
    out := out + SUFFIX;
    OutputReadsBack(text);
  }

  // ----- Reading -----

  /** What a client reads: the payload of a message of type "output". */
  function ReadOutput(json: string): Option<string> {
    match ReadValue(json)
    case Some((message, "")) => PayloadOf(message)
    case _ => None
  }

  function PayloadOf(message: Value): Option<string> {
    if Member(message, "type") != Some(Text("output")) then None
    else
      match Member(message, "data")
      case Some(data) =>
        (match Member(data, "payload")
         case Some(Text(text)) => Some(text)
         case _ => None)
      case None => None
  }

  // ----- Round trip -----

  lemma HexOfDigit(v: nat)
    requires v < 0x10
    ensures HexValue(DIGITS[v]) == Some(v)
  {
    assert DIGITS[v] as int == if v < 10 then '0' as int + v else 'a' as int + (v - 10);
  }

  lemma ReadCharOfEscape(c: char, more: string)
    ensures ReadChar(EscapeChar(c) + more) == Some((c, |EscapeChar(c)|))
  {
    var t := EscapeChar(c) + more;
    if c < ' ' && c !in {'\U{8}', '\U{C}', '\n', '\r', '\t'} {
      var v := c as int;
      HexOfDigit(v / 0x10);
      HexOfDigit(v % 0x10);
      var u := t[2..];
      assert u[0] == '0' && u[1] == '0' && u[2] == DIGITS[v / 0x10] && u[3] == DIGITS[v % 0x10];
      assert Hex4(u) == Some(v);
      assert ReadUnicodeEscape(u) == Some((c, 4));
    }
  }

  /** Reading an escaped text up to the first unescaped quote returns the text and leaves what follows. */
  lemma {:induction false} EscapeReadsBack(s: string, rest: string)
    ensures ReadString(Escape(s) + "\"" + rest) == Some((s, rest))
  {
    if s == [] {
      assert Escape(s) + "\"" + rest == ['"'] + rest;
    } else {
      var e, more := EscapeChar(s[0]), Escape(s[1..]) + "\"" + rest;
      assert Escape(s) + "\"" + rest == e + more;
      ReadCharOfEscape(s[0], more);
      assert (e + more)[|e|..] == more;
      EscapeReadsBack(s[1..], rest);
      assert [s[0]] + s[1..] == s;
    }
  }

  lemma {:induction false} PlainEscape(s: string)
    requires forall c | c in s :: EscapeChar(c) == [c]
    ensures Escape(s) == s
  {
    if s != [] {
      assert s[0] in s && forall c | c in s[1..] :: c in s;
      PlainEscape(s[1..]);
    }
  }

  predicate IsPlain(name: string) {
    forall c | c in name :: EscapeChar(c) == [c]
  }

  lemma TextReadsBack(text: string, rest: string)
    ensures ReadValue("\"" + (Escape(text) + ("\"" + rest))) == Some((Text(text), rest))
  {
    EscapeReadsBack(text, rest);
    Regroup(Escape(text), "\"", rest);
    ReadsText(Escape(text) + ("\"" + rest), text, rest);
  }

  lemma MemberReadsBack(key: string, name: string, after: string, value: Value, rest: string)
    requires key == "\"" + name + "\":" && IsPlain(name) && ReadValue(after) == Some((value, rest))
    ensures ReadMember(key + after) == Some(((name, value), rest))
  {
    PlainEscape(name);
    EscapeReadsBack(name, ":" + after);
    var body := name + "\"" + (":" + after);
    ReadsMember(body, name, after, value, rest);
    KeyApart(name, after);
  }

  lemma KeyApart(name: string, after: string)
    ensures "\"" + name + "\":" + after == "\"" + (name + "\"" + (":" + after))
  {
  }

  lemma TypeIsPlain()
    ensures IsPlain("type")
  {
    var s := "type";
    assert forall c | c in s :: c in {'t', 'y', 'p', 'e'};
  }

  lemma DataIsPlain()
    ensures IsPlain("data")
  {
    var s := "data";
    assert forall c | c in s :: c in {'d', 'a', 't'};
  }

  lemma PayloadIsPlain()
    ensures IsPlain("payload")
  {
    var s := "payload";
    assert forall c | c in s :: c in {'p', 'a', 'y', 'l', 'o', 'd'};
  }

  lemma OutputIsPlain()
    ensures IsPlain("output")
  {
    var s := "output";
    assert forall c | c in s :: c in {'o', 'u', 't', 'p'};
  }

  /** The data object, with the text as its payload. */
  lemma DataReadsBack(key: string, name: string, text: string, rest: string)
    requires key == "\"" + name + "\":" && IsPlain(name)
    ensures ReadValue("{" + (key + ("\"" + (Escape(text) + ("\"" + ("}" + rest))))))
            == Some((Object([(name, Text(text))]), rest))
  {
    var value := "\"" + (Escape(text) + ("\"" + ("}" + rest)));
    TextReadsBack(text, "}" + rest);
    MemberReadsBack(key, name, value, Text(text), "}" + rest);
    ReadsLastMember(key + value, (name, Text(text)), rest);
    ReadsObject(key + value, [(name, Text(text))], rest);
  }

  lemma TwoMembersReadBack(first: string, name: string, kind: string, kindText: string, second: string, other: string,
                           data: string, value: Value)
    requires first == "\"" + name + "\":" && IsPlain(name) && second == "\"" + other + "\":" && IsPlain(other)
    requires kindText == "\"" + kind + "\"" && IsPlain(kind) && ReadValue(data) == Some((value, "}"))
    ensures ReadValue("{" + (first + (kindText + ("," + (second + data)))))
            == Some((Object([(name, Text(kind)), (other, value)]), ""))
  {
    MemberReadsBack(second, other, data, value, "}");
    assert "}" + "" == "}";
    ReadsLastMember(second + data, (other, value), "");
    var after := "," + (second + data);
    KindReadsBack(kindText, kind, after);
    MemberReadsBack(first, name, kindText + after, Text(kind), after);
    ReadsFirstMember(first + (kindText + after), (name, Text(kind)), second + data, [(other, value)], "");
    assert [(name, Text(kind))] + [(other, value)] == [(name, Text(kind)), (other, value)];
    ReadsObject(first + (kindText + after), [(name, Text(kind)), (other, value)], "");
  }

  lemma KindReadsBack(kindText: string, kind: string, rest: string)
    requires kindText == "\"" + kind + "\"" && IsPlain(kind)
    ensures ReadValue(kindText + rest) == Some((Text(kind), rest))
  {
    PlainEscape(kind);
    TextReadsBack(kind, rest);
    Regroup("\"" + kind, "\"", rest);
    Regroup("\"", kind, "\"" + rest);
  }

  lemma Regroup(a: string, b: string, c: string)
    ensures (a + b) + c == a + (b + c)
  {
  }

  lemma RegroupAll(a: string, b: string, c: string, d: string, e: string, f: string, g: string, h: string, x: string)
    ensures (a + (b + (c + (d + (e + (f + (g + h))))))) + x == a + (b + (c + (d + (e + (f + (g + (h + x)))))))
  {
    Regroup(g, h, x);
    Regroup(f, g + h, x);
    Regroup(e, f + (g + h), x);
    Regroup(d, e + (f + (g + h)), x);
    Regroup(c, d + (e + (f + (g + h))), x);
    Regroup(b, c + (d + (e + (f + (g + h)))), x);
    Regroup(a, b + (c + (d + (e + (f + (g + h))))), x);
  }

  /** The whole message: an object of type "output" whose data has the text as its payload. */
  lemma MessageReadsBack(text: string)
    ensures ReadValue(PREFIX + Escape(text) + SUFFIX)
            == Some((Object([("type", Text("output")), ("data", Object([("payload", Text(text))]))]), ""))
  {
    var tail := Escape(text) + SUFFIX;
    TypeIsPlain();
    DataIsPlain();
    PayloadIsPlain();
    OutputIsPlain();
    DataReadsBack(PAYLOAD_KEY, "payload", text, "}");
    var data := "{" + (PAYLOAD_KEY + ("\"" + tail));
    TwoMembersReadBack(TYPE_KEY, "type", "output", OUTPUT, DATA_KEY, "data", data, Object([("payload", Text(text))]));
    Regroup(PREFIX, Escape(text), SUFFIX);
    RegroupAll("{", TYPE_KEY, OUTPUT, ",", DATA_KEY, "{", PAYLOAD_KEY, "\"", tail);
  }

  lemma OutputReadsBack(text: string)
    ensures ReadOutput(PREFIX + Escape(text) + SUFFIX) == Some(text)
  {
    MessageReadsBack(text);
    var data := Object([("payload", Text(text))]);
    assert Lookup(data.members, "payload") == Some(Text(text));
    var message := Object([("type", Text("output")), ("data", data)]);
    assert message.members[1..] == [("data", data)];
    assert Lookup(message.members[1..], "data") == Some(data);
  }

  predicate HasShortEscape(c: char) {
    c in {'"', '\\', '\U{8}', '\U{C}', '\n', '\r', '\t'}
  }

  /** Only what must be escaped is: by two characters where JSON has a short form,
    else by six with lower-case digits. */
  lemma EscapesExactly(c: char)
    ensures var e := EscapeChar(c);
            if HasShortEscape(c) then |e| == 2 && e[0] == '\\'
            else if c < ' ' then |e| == 6 && e[..4] == "\\u00" && e[4] in "01" && e[5] in DIGITS
            else e == [c]
  {
    if c < ' ' && !HasShortEscape(c) {
      var e := EscapeChar(c);
      assert e[4] == DIGITS[c as int / 0x10];
      assert DIGITS[0] == '0' && DIGITS[1] == '1';
    }
  }

  lemma EscapeIsInjective(s: string, s': string)
    requires Escape(s) == Escape(s')
    ensures s == s'
  {
    EscapeReadsBack(s, []);
    EscapeReadsBack(s', []);
  }

  /**
  Two payloads are sent as the same message exactly if they decode to the same text; well-formed ones, if they are
  equal.
  */
  lemma OutputIsInjective(p: seq<byte>, p': seq<byte>)
    ensures var same := PREFIX + Escape(Decode(p)) + SUFFIX == PREFIX + Escape(Decode(p')) + SUFFIX;
            && (same <==> Decode(p) == Decode(p'))
            && (Valid(p) && Valid(p') ==> (same <==> p == p'))
  {
    OutputReadsBack(Decode(p));
    OutputReadsBack(Decode(p'));
    if Valid(p) && Valid(p') {
      ValidReencodes(p);
      ValidReencodes(p');
    }
  }
}
