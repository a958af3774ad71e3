/**
 * XML output of gtest (gtest.cc): EscapeXml and OutputXmlCDataSection against a reader of XML 1.0 content and
 * attribute values. A `char` is one byte; `signed` says whether bytes from 0x80 on compare as negative numbers.
 */
module XmlText {
  import opened CStrings
  import opened Helpers

  // ---- the writer

  predicate IsNormalizableWhitespace(c: char) {
    c == '\t' || c == '\n' || c == '\r'
  }

  predicate IsValidXmlCharacter(signed: bool, c: char) {
    IsNormalizableWhitespace(c) || (c as int >= 0x20 && !(signed && c as int >= 0x80))
  }

  function HexDigit(d: int): char
    requires 0 <= d < 16
  {
    "0123456789ABCDEF"[d]
  }

  /** "&#x%02X;" */
  function CharReference(c: char): string
    requires c as int < 0x100
  {
    "&#x" + [HexDigit(c as int / 16), HexDigit(c as int % 16), ';']
  }

  /** What one character becomes; nothing, if it is invalid. */
  function EscapedChar(signed: bool, attribute: bool, c: char): string {
    match c
    case '<' => "&lt;"
    case '>' => "&gt;"
    case '&' => "&amp;"
    case '\'' => if attribute then "&apos;" else "'"
    case '"' => if attribute then "&quot;" else "\""
    case _ =>
      if !IsValidXmlCharacter(signed, c) then ""
      else if attribute && IsNormalizableWhitespace(c) then CharReference(c)
      else [c]
  }

  function Escaped(signed: bool, attribute: bool, s: string): string {
    if s == "" then "" else EscapedChar(signed, attribute, s[0]) + Escaped(signed, attribute, s[1..])
  }

  function ValidOnly(signed: bool, s: string): string {
    if s == "" then ""
    else if IsValidXmlCharacter(signed, s[0]) then [s[0]] + ValidOnly(signed, s[1..])
    else ValidOnly(signed, s[1..])
  }

  method EscapeXml(signed: bool, str: CString, attribute: bool) returns (m: string)
    ensures m == if str.Null? then "" else Escaped(signed, attribute, str.s)
  {
    hide EscapedChar;
    m := "";
    if str.Chars? {
      var s := str.s;
      assert s[0..] == s;
      for i := 0 to |s|
        invariant m + Escaped(signed, attribute, s[i..]) == Escaped(signed, attribute, s)
      {
        assert s[i..][1..] == s[i + 1..];
        m := m + EscapedChar(signed, attribute, s[i]);
      }
    }
  }

  method RemoveInvalidXmlCharacters(signed: bool, str: string) returns (output: string)
    ensures output == ValidOnly(signed, str)
  {
    output := "";
    assert str[0..] == str;
    for i := 0 to |str|
      invariant output + ValidOnly(signed, str[i..]) == ValidOnly(signed, str)
    {
      assert str[i..][1..] == str[i + 1..];
      if IsValidXmlCharacter(signed, str[i]) {
        output := output + [str[i]];
      }
    }
  }

  /** `s` starts with `t`. */
  predicate Starts(s: string, t: string) {
    |s| >= |t| && s[..|t|] == t
  }

  const CDATA_START := "<![CDATA["
  const CDATA_END := "]]>"
  const CDATA_BREAK := "]]>]]&gt;<![CDATA["

  /** What follows the opening of the section: every end mark in the data is split over two sections. */
  function SectionBody(data: string): string
    decreases |data|
  {
    if data == "" then CDATA_END
    else if Starts(data, CDATA_END) then CDATA_BREAK + SectionBody(data[3..])
    else [data[0]] + SectionBody(data[1..])
  }

  function Section(data: string): string {
    CDATA_START + SectionBody(data)
  }

  /** strstr for the end mark: its first position, or the length. */
  function FindEnd(s: string): (n: nat)
    ensures n <= |s|
    ensures n < |s| ==> Starts(s[n..], CDATA_END)
    decreases |s|
  {
    if s == "" || Starts(s, CDATA_END) then 0
    else
      var n := FindEnd(s[1..]);
      assert s[1..][n..] == s[n + 1..];
      n + 1
  }

  lemma {:induction false} SectionBodyByFind(s: string)
    ensures
      var n := FindEnd(s);
      SectionBody(s) == s[..n] + if n < |s| then CDATA_BREAK + SectionBody(s[n..][3..]) else CDATA_END
    decreases |s|
  {
    hide Starts;
    if s == "" || Starts(s, CDATA_END) {
      assert s[0..] == s && s[..0] == "";
    } else {
      var n := FindEnd(s[1..]);
      SectionBodyByFind(s[1..]);
      assert s[..n + 1] == [s[0]] + s[1..][..n];
      assert s[1..][n..] == s[n + 1..];
    }
  }

  /** The loop from end mark to end mark. */
  method OutputXmlCDataSection(data: string) returns (stream: string)
    ensures stream == Section(data)
  {
    hide SectionBody, Starts;
    var segment := data;
    stream := CDATA_START;
    while true
      invariant stream + SectionBody(segment) == Section(data)
      decreases |segment|
    {
      SectionBodyByFind(segment);
      var next := FindEnd(segment);
      if next < |segment| {
        stream := stream + segment[..next];
        stream := stream + CDATA_BREAK;
        EndHasThree(segment[next..]);
        segment := segment[next..][3..];
      } else {
        stream := stream + segment;
        break;
      }
    }
    stream := stream + CDATA_END;
  }

  lemma EndHasThree(s: string)
    requires Starts(s, CDATA_END)
    ensures |s| >= 3
  {
  }

  // ---- a reader of XML 1.0

  /** Section 2.2, production [2], byte by byte: bytes from 0x80 on belong to characters that are allowed. */
  predicate IsXmlChar(c: int) {
    c == 0x9 || c == 0xA || c == 0xD || c >= 0x20
  }

  predicate AllXml(s: string) {
    forall i :: 0 <= i < |s| ==> IsXmlChar(s[i] as int)
  }

  /** Section 2.11: line ends are a single line feed before anything else is read. */
  function LineEnds(t: string): string
    decreases |t|
  {
    if t == "" then ""
    else if t[0] == '\r' then ['\n'] + LineEnds(if |t| > 1 && t[1] == '\n' then t[2..] else t[1..])
    else [t[0]] + LineEnds(t[1..])
  }

  function HexValue(c: char): Option<int> {
    if '0' <= c <= '9' then Some(c as int - '0' as int)
    else if 'A' <= c <= 'F' then Some(c as int - 'A' as int + 10)
    else if 'a' <= c <= 'f' then Some(c as int - 'a' as int + 10)
    else None
  }

  /** The digits of a character reference up to the semicolon: the value and how many characters it takes. */
  function ReadHex(t: string, value: int): (r: Option<(int, nat)>)
    ensures r.Some? ==> 1 <= r.value.1 <= |t|
  {
    if t == "" then None
    else if t[0] == ';' then Some((value, 1))
    else
      match HexValue(t[0])
      case None => None
      case Some(d) =>
        match ReadHex(t[1..], 16 * value + d)
        case None => None
        case Some((v, n)) => Some((v, n + 1))
  }

  /** Sections 4.1 and 4.6: a character reference or a predefined entity, and its length. */
  function ReadReference(t: string): (r: Option<(char, nat)>)
    ensures r.Some? ==> 1 <= r.value.1 <= |t|
  {
    if Starts(t, "&lt;") then Some(('<', 4))
    else if Starts(t, "&gt;") then Some(('>', 4))
    else if Starts(t, "&amp;") then Some(('&', 5))
    else if Starts(t, "&apos;") then Some(('\'', 6))
    else if Starts(t, "&quot;") then Some(('"', 6))
    else if Starts(t, "&#x") then
      match ReadHex(t[3..], 0)
      case None => None
      case Some((v, n)) => if v < 0x100 && IsXmlChar(v) then Some((v as char, n + 3)) else None
    else None
  }

  function Prepend(c: string, r: Option<string>): Option<string> {
    if r.Some? then Some(c + r.value) else None
  }

  /** Section 3.3.3: the value of an attribute in double quotes. */
  function AttributeValue(t: string): Option<string>
    decreases |t|
  {
    if t == "" then Some("")
    else if t[0] == '<' || t[0] == '"' || !IsXmlChar(t[0] as int) then None
    else if t[0] == '&' then
      match ReadReference(t)
      case None => None
      case Some((c, n)) => Prepend([c], AttributeValue(t[n..]))
    else if IsNormalizableWhitespace(t[0]) then Prepend(" ", AttributeValue(t[1..]))
    else Prepend([t[0]], AttributeValue(t[1..]))
  }

  /** Sections 2.4 and 2.7: text with references and CDATA sections, but no markup; `inside` a section or not. */
  function Content(t: string, inside: bool): Option<string>
    decreases |t|
  {
    if t == "" then if inside then None else Some("")
    else if inside then
      if Starts(t, CDATA_END) then Content(t[3..], false)
      else if !IsXmlChar(t[0] as int) then None
      else Prepend([t[0]], Content(t[1..], true))
    else if Starts(t, CDATA_START) then Content(t[9..], true)
    else if t[0] == '<' || Starts(t, CDATA_END) || !IsXmlChar(t[0] as int) then None
    else if t[0] == '&' then
      match ReadReference(t)
      case None => None
      case Some((c, n)) => Prepend([c], Content(t[n..], false))
    else Prepend([t[0]], Content(t[1..], false))
  }

  // ---- reading undoes escaping

  lemma StartsWith(a: string, rest: string)
    ensures Starts(a + rest, a) && (a + rest)[|a|..] == rest
  {
  }

  lemma StartsEnd(s: string)
    ensures Starts(s, CDATA_END) <==> |s| >= 3 && s[0] == ']' && s[1] == ']' && s[2] == '>'
  {
    if |s| >= 3 {
      assert s[..3] == [s[0], s[1], s[2]];
    }
  }

  lemma ReadTwoDigits(d: char, v: int, rest: string)
    requires HexValue(d) == Some(v) && d != ';'
    ensures ReadHex(['0', d, ';'] + rest, 0) == Some((v, 3))
  {
    var t := ['0', d, ';'] + rest;
    assert t[1..] == [d, ';'] + rest;
    assert t[1..][1..] == [';'] + rest;
    assert ReadHex(t[1..][1..], v) == Some((v, 1));
    assert ReadHex(t[1..], 0) == Some((v, 2));
  }

  lemma ReferenceRead(c: char, rest: string)
    requires IsNormalizableWhitespace(c)
    ensures ReadReference(CharReference(c) + rest) == Some((c, 6))
    ensures |CharReference(c)| == 6 && CharReference(c)[0] == '&'
  {
    hide ReadHex;
    var t, d := CharReference(c) + rest, HexDigit(c as int % 16);
    assert t[3..] == ['0', d, ';'] + rest;
    ReadTwoDigits(d, c as int % 16, rest);
    StartsWith("&#x", t[3..]);
    assert t == "&#x" + t[3..];
    SecondChar(t, "&lt;");
    SecondChar(t, "&gt;");
    SecondChar(t, "&amp;");
    SecondChar(t, "&apos;");
    SecondChar(t, "&quot;");
  }

  lemma FirstChar(s: string, t: string)
    requires t != ""
    ensures Starts(s, t) ==> s[0] == t[0]
  {
    if Starts(s, t) {
      assert s[0] == s[..|t|][0];
    }
  }

  lemma SecondChar(s: string, t: string)
    requires |t| >= 2
    ensures Starts(s, t) ==> s[1] == t[1]
  {
    if Starts(s, t) {
      assert s[1] == s[..|t|][1];
    }
  }

  /** Is `c` written as an entity, in attributes or everywhere? */
  predicate IsEntity(attribute: bool, c: char) {
    c == '<' || c == '>' || c == '&' || (attribute && (c == '\'' || c == '"'))
  }

  lemma EntityRead(signed: bool, attribute: bool, c: char, rest: string)
    requires IsEntity(attribute, c)
    ensures var e := EscapedChar(signed, attribute, c); ReadReference(e + rest) == Some((c, |e|)) && e[0] == '&'
  {
    var e := EscapedChar(signed, attribute, c);
    StartsWith(e, rest);
    assert (e + rest)[1] == e[1] && (e + rest)[2] == e[2];
  }

  /** One escaped character of an attribute is read as the character, or as nothing if it is invalid. */
  lemma AttributeCharRead(signed: bool, c: char, rest: string)
    ensures AttributeValue(EscapedChar(signed, true, c) + rest)
      == if IsValidXmlCharacter(signed, c) then Prepend([c], AttributeValue(rest)) else AttributeValue(rest)
  {
    hide ReadReference;
    var e := EscapedChar(signed, true, c);
    StartsWith(e, rest);
    if IsEntity(true, c) {
      EntityRead(signed, true, c, rest);
    } else if !IsValidXmlCharacter(signed, c) {
      assert e + rest == rest;
    } else if IsNormalizableWhitespace(c) {
      ReferenceRead(c, rest);
    } else {
      assert e == [c];
    }
  }

  /** Reading an escaped attribute gives the text without its invalid characters; white space survives, too. */
  lemma {:induction false} AttributeIsPreserved(signed: bool, s: string)
    ensures AttributeValue(Escaped(signed, true, s)) == Some(ValidOnly(signed, s))
  {
    hide EscapedChar;
    if s != "" {
      AttributeCharRead(signed, s[0], Escaped(signed, true, s[1..]));
      AttributeIsPreserved(signed, s[1..]);
    }
  }

  lemma EscapedCharHasNo(signed: bool, attribute: bool, c: char, bad: char)
    requires bad in "<>" || (attribute && bad in "'\"\t\n\r")
    ensures forall i :: 0 <= i < |EscapedChar(signed, attribute, c)| ==> EscapedChar(signed, attribute, c)[i] != bad
  {
  }

  /** No raw mark of a tag is left, and in attributes no raw quote and no raw white space other than blanks. */
  lemma {:induction false} EscapedHasNo(signed: bool, attribute: bool, s: string, bad: char)
    requires bad in "<>" || (attribute && bad in "'\"\t\n\r")
    ensures forall i :: 0 <= i < |Escaped(signed, attribute, s)| ==> Escaped(signed, attribute, s)[i] != bad
  {
    hide EscapedChar;
    if s != "" {
      EscapedCharHasNo(signed, attribute, s[0], bad);
      EscapedHasNo(signed, attribute, s[1..], bad);
    }
  }

  /** An ordinary character of text. */
  lemma CharIsRead(c: char, rest: string)
    requires IsXmlChar(c as int) && c != '<' && c != '&' && (|rest| >= 2 && c == rest[0] == ']' ==> rest[1] != '>')
    ensures Content([c] + rest, false) == Prepend([c], Content(rest, false))
  {
    hide Starts, ReadReference;
    var t := [c] + rest;
    StartsEnd(t);
    FirstChar(t, CDATA_START);
    assert t[1..] == rest && t[0] == c;
  }

  /** A reference in text. */
  lemma ReferenceIsRead(t: string, c: char, n: nat)
    requires t != "" && t[0] == '&' && ReadReference(t) == Some((c, n))
    ensures Content(t, false) == Prepend([c], Content(t[n..], false))
  {
    hide ReadReference;
    StartsEnd(t);
    FirstChar(t, CDATA_START);
  }

  lemma TextCharRead(signed: bool, c: char, rest: string)
    requires forall i :: 0 <= i < |rest| ==> rest[i] != '>'
    ensures Content(EscapedChar(signed, false, c) + rest, false)
      == if IsValidXmlCharacter(signed, c) then Prepend([c], Content(rest, false)) else Content(rest, false)
  {
    hide ReadReference, Content;
    var e := EscapedChar(signed, false, c);
    StartsWith(e, rest);
    if IsEntity(false, c) {
      EntityRead(signed, false, c, rest);
      ReferenceIsRead(e + rest, c, |e|);
    } else if !IsValidXmlCharacter(signed, c) {
      assert e + rest == rest;
    } else {
      assert e == [c];
      CharIsRead(c, rest);
    }
  }

  /** Reading escaped text gives the text without its invalid characters. */
  lemma {:induction false} TextIsPreserved(signed: bool, s: string)
    ensures Content(Escaped(signed, false, s), false) == Some(ValidOnly(signed, s))
  {
    hide EscapedChar;
    if s != "" {
      EscapedHasNo(signed, false, s[1..], '>');
      TextCharRead(signed, s[0], Escaped(signed, false, s[1..]));
      TextIsPreserved(signed, s[1..]);
    }
  }

  // ---- reading undoes the CDATA sections

  lemma BodyStart(d: string)
    ensures SectionBody(d) != "" && (SectionBody(d)[0] == ']' || (d != "" && SectionBody(d)[0] == d[0]))
    ensures SectionBody(d)[0] == '>' ==> d != "" && d[0] == '>'
  {
  }

  /** A copied character does not make an end mark with what follows it. */
  lemma NoEarlyEnd(d: string)
    requires d != "" && !Starts(d, CDATA_END)
    ensures !Starts(SectionBody(d), CDATA_END)
  {
    hide SectionBody, Starts;
    BodyNext(d);
    BodyNext(d[1..]);
    StartsEnd(d);
    StartsEnd(d[1..]);
    StartsEnd(SectionBody(d));
    if |d| >= 2 {
      BodyStart(d[1..][1..]);
    }
  }

  lemma BodyNext(d: string)
    ensures
      SectionBody(d)
      == if d == "" then CDATA_END
         else if Starts(d, CDATA_END) then CDATA_BREAK + SectionBody(d[3..])
         else [d[0]] + SectionBody(d[1..])
  {
  }

  /** What is read of a section: its data, whatever end marks that holds, unless some character is forbidden. */
  function ReadBack(d: string): Option<string> {
    if AllXml(d) then Some(d) else None
  }

  lemma ReadBackParts(a: string, rest: string)
    ensures AllXml(a) ==> ReadBack(a + rest) == Prepend(a, ReadBack(rest))
    ensures !AllXml(a) ==> ReadBack(a + rest) == None
  {
    hide IsXmlChar;
    assert forall i :: 0 <= i < |a| ==> (a + rest)[i] == a[i];
    assert forall i :: 0 <= i < |rest| ==> (a + rest)[|a| + i] == rest[i];
  }

  lemma EndIsXml()
    ensures AllXml(CDATA_END) && AllXml(CDATA_BREAK) && AllXml(CDATA_START)
  {
  }

  lemma {:induction false} BodyIsRead(d: string)
    ensures Content(SectionBody(d), true) == ReadBack(d)
    decreases |d|
  {
    hide SectionBody, Starts, Content, ReadBack, AllXml;
    BodyNext(d);
    if d == "" {
      EmptyIsRead();
    } else if Starts(d, CDATA_END) {
      EndThenRest(d);
      BodyIsRead(d[3..]);
      BreakIsRead(SectionBody(d[3..]));
      EndIsXml();
      ReadBackParts(CDATA_END, d[3..]);
    } else {
      NoEarlyEnd(d);
      BodyIsRead(d[1..]);
      InsideIsRead(d[0], SectionBody(d[1..]));
      OneXml(d[0]);
      ReadBackParts([d[0]], d[1..]);
      assert d == [d[0]] + d[1..];
    }
  }

  lemma EmptyIsRead()
    ensures Content(CDATA_END, true) == Some("") == ReadBack("")
  {
    EndIsRead("");
    assert CDATA_END + "" == CDATA_END;
  }

  lemma OneXml(c: char)
    ensures AllXml([c]) <==> IsXmlChar(c as int)
  {
    assert [c][0] == c;
  }

  /** A character inside a section. */
  lemma InsideIsRead(c: char, rest: string)
    requires !Starts([c] + rest, CDATA_END)
    ensures Content([c] + rest, true) == if IsXmlChar(c as int) then Prepend([c], Content(rest, true)) else None
  {
    hide Starts;
    assert ([c] + rest)[1..] == rest;
  }

  lemma EndThenRest(d: string)
    requires Starts(d, CDATA_END)
    ensures |d| >= 3 && d == CDATA_END + d[3..]
  {
  }

  lemma GreaterIsRead(rest: string)
    ensures Content("&gt;" + rest, false) == Prepend(">", Content(rest, false))
  {
    hide ReadReference, Content;
    EntityRead(false, false, '>', rest);
    ReferenceIsRead("&gt;" + rest, '>', 4);
    assert ("&gt;" + rest)[4..] == rest;
  }

  lemma StartIsRead(rest: string)
    ensures Content(CDATA_START + rest, false) == Content(rest, true)
  {
    StartsWith(CDATA_START, rest);
  }

  lemma EndIsRead(rest: string)
    ensures Content(CDATA_END + rest, true) == Content(rest, false)
  {
    StartsWith(CDATA_END, rest);
  }

  /** Between two sections stands an escaped end mark. */
  lemma BreakIsRead(rest: string)
    ensures Content(CDATA_BREAK + rest, true) == Prepend(CDATA_END, Content(rest, true))
  {
    hide Content;
    var t3 := CDATA_START + rest;
    var t2 := "&gt;" + t3;
    var t1 := [']'] + t2;
    var t0 := [']'] + t1;
    assert CDATA_BREAK + rest == CDATA_END + t0;
    EndIsRead(t0);
    CharIsRead(']', t1);
    CharIsRead(']', t2);
    GreaterIsRead(t3);
    StartIsRead(rest);
    PrependThree("]", "]", ">", Content(rest, true));
    assert "]" + "]" + ">" == CDATA_END;
  }

  lemma PrependThree(a: string, b: string, c: string, r: Option<string>)
    ensures Prepend(a, Prepend(b, Prepend(c, r))) == Prepend(a + b + c, r)
  {
    if r.Some? {
      assert a + (b + (c + r.value)) == a + b + c + r.value;
    }
  }

  /** Reading a section gives its data back exactly if all of that are XML characters; otherwise nothing is read. */
  lemma SectionIsRead(d: string)
    ensures Content(Section(d), false) == if AllXml(d) then Some(d) else None
  {
    hide SectionBody, Content, AllXml;
    StartIsRead(SectionBody(d));
    BodyIsRead(d);
  }

  // ---- line ends

  predicate Plain(s: string) {
    forall i :: 0 <= i < |s| ==> s[i] != '\r'
  }

  lemma {:induction false} LineEndsPlain(a: string, rest: string)
    requires Plain(a)
    ensures LineEnds(a + rest) == a + LineEnds(rest)
  {
    if a == "" {
      assert a + rest == rest;
    } else {
      LineEndsPlain(a[1..], rest);
      assert (a + rest)[1..] == a[1..] + rest;
    }
  }

  /** Line ends are kept exactly if there is no carriage return. */
  lemma {:induction false} LineEndsIff(s: string)
    ensures LineEnds(s) == s <==> Plain(s)
    ensures Plain(LineEnds(s))
    decreases |s|
  {
    if s == "" {
    } else if s[0] == '\r' {
      LineEndsIff(if |s| > 1 && s[1] == '\n' then s[2..] else s[1..]);
    } else {
      LineEndsIff(s[1..]);
      assert s == [s[0]] + s[1..];
      assert Plain(s) <==> Plain(s[1..]);
    }
  }

  lemma StartsKept(d: string)
    requires !Starts(d, CDATA_END)
    ensures !Starts(LineEnds(d), CDATA_END)
  {
    hide Starts;
    StartsEnd(d);
    StartsEnd(LineEnds(d));
    if d != "" && d[0] == ']' {
      var d1 := d[1..];
      assert LineEnds(d) == [']'] + LineEnds(d1);
      if d1 != "" && d1[0] == ']' {
        assert LineEnds(d1) == [']'] + LineEnds(d1[1..]);
      }
    }
  }

  /** A section is normalized as its data is. */
  lemma {:induction false} SectionLineEnds(d: string)
    ensures LineEnds(SectionBody(d)) == SectionBody(LineEnds(d))
    decreases |d|
  {
    hide SectionBody, Starts, LineEnds;
    BodyNext(d);
    BodyNext(LineEnds(d));
    NextLineEnd(d);
    if d == "" {
      LineEndsPlain(CDATA_END, "");
      assert CDATA_END + "" == CDATA_END;
      NextLineEnd("");
    } else if Starts(d, CDATA_END) {
      EndThenRest(d);
      var rest := d[3..];
      SectionLineEnds(rest);
      LineEndsPlain(CDATA_END, rest);
      LineEndsPlain(CDATA_BREAK, SectionBody(rest));
      StartsWith(CDATA_END, LineEnds(rest));
    } else {
      StartsEnd(d);
      StartsKept(d);
      NextLineEnd(SectionBody(d));
      var n := if d[0] == '\r' && |d| > 1 && d[1] == '\n' then 2 else 1;
      SectionLineEnds(d[n..]);
      StartsEnd(d[1..]);
      BodyNext(d[1..]);
      assert LineEnds(d)[1..] == LineEnds(d[n..]);
      assert SectionBody(d)[1..] == SectionBody(d[1..]);
      if n == 2 {
        assert d[1..][1..] == d[2..];
        assert SectionBody(d)[2..] == SectionBody(d[1..])[1..] == SectionBody(d[2..]);
      } else {
        BodyStart(d[1..]);
        assert |SectionBody(d)| > 1 && SectionBody(d)[1] == SectionBody(d[1..])[0];
      }
    }
  }

  lemma NextLineEnd(t: string)
    ensures
      LineEnds(t)
      == if t == "" then ""
         else if t[0] != '\r' then [t[0]] + LineEnds(t[1..])
         else if |t| > 1 && t[1] == '\n' then ['\n'] + LineEnds(t[2..])
         else ['\n'] + LineEnds(t[1..])
  {
  }

  lemma {:induction false} LineEndsXml(s: string)
    ensures AllXml(LineEnds(s)) <==> AllXml(s)
    decreases |s|
  {
    hide AllXml;
    if s == "" {
    } else {
      var n := if s[0] == '\r' && |s| > 1 && s[1] == '\n' then 2 else 1;
      LineEndsXml(s[n..]);
      assert s == s[..n] + s[n..];
      XmlParts(s[..n], s[n..]);
      XmlParts(LineEnds(s)[..1], LineEnds(s[n..]));
      FirstXml(s, n);
    }
  }

  lemma XmlParts(a: string, b: string)
    ensures AllXml(a + b) <==> AllXml(a) && AllXml(b)
  {
    hide IsXmlChar;
    assert forall i :: 0 <= i < |a| ==> (a + b)[i] == a[i];
    assert forall i :: 0 <= i < |b| ==> (a + b)[|a| + i] == b[i];
  }

  lemma FirstXml(s: string, n: nat)
    requires s != "" && n == if s[0] == '\r' && |s| > 1 && s[1] == '\n' then 2 else 1
    ensures LineEnds(s) == LineEnds(s)[..1] + LineEnds(s[n..])
    ensures AllXml(LineEnds(s)[..1]) <==> AllXml(s[..n])
  {
    hide LineEnds, AllXml;
    var c := if s[0] == '\r' then '\n' else s[0];
    NextLineEnd(s);
    assert LineEnds(s)[..1] == [c];
    assert n == 1 ==> s[..n] == [s[0]];
    assert n == 2 ==> s[..n] == "\r\n";
    LineEndXml();
  }

  lemma LineEndXml()
    ensures AllXml("\r") && AllXml("\n") && AllXml("\r\n")
  {
  }

  /** An XML reader gets the data of a section back exactly if they are XML characters without a carriage return. */
  lemma SectionSurvivesIff(d: string)
    ensures Content(LineEnds(Section(d)), false) == if AllXml(d) then Some(LineEnds(d)) else None
    ensures Content(LineEnds(Section(d)), false) == Some(d) <==> Plain(d) && AllXml(d)
  {
    hide SectionBody, Content, LineEnds, Plain, AllXml;
    NoReturnInMarks();
    LineEndsPlain(CDATA_START, SectionBody(d));
    SectionLineEnds(d);
    SectionIsRead(LineEnds(d));
    LineEndsIff(d);
    LineEndsXml(d);
  }

  /** The program writes what is valid of a message: always readable, and unchanged exactly without a carriage return. */
  lemma MessageSurvivesIff(signed: bool, message: string)
    ensures
      var d := ValidOnly(signed, message);
      && Content(LineEnds(Section(d)), false) == Some(LineEnds(d))
      && (Content(LineEnds(Section(d)), false) == Some(d) <==> Plain(message))
      && (Content(LineEnds(Section(d)), false) == Some(message)
          <==> Plain(message) && forall i :: 0 <= i < |message| ==> IsValidXmlCharacter(signed, message[i]))
  {
    hide Section, Content, LineEnds, Plain, AllXml, IsValidXmlCharacter;
    var d := ValidOnly(signed, message);
    SectionSurvivesIff(d);
    ValidOnlyXml(signed, message);
    ValidOnlyPlain(signed, message);
    ValidOnlyIff(signed, message);
    LineEndsIff(d);
  }

  lemma {:induction false} ValidOnlyXml(signed: bool, s: string)
    ensures AllXml(ValidOnly(signed, s))
  {
    hide AllXml;
    if s == "" {
      NothingIsXml();
    } else {
      ValidOnlyXml(signed, s[1..]);
      XmlParts([s[0]], ValidOnly(signed, s[1..]));
      OneXml(s[0]);
    }
  }

  lemma NothingIsXml()
    ensures AllXml("")
  {
  }

  lemma {:induction false} ValidOnlyPlain(signed: bool, s: string)
    ensures Plain(ValidOnly(signed, s)) <==> Plain(s)
  {
    if s != "" {
      ValidOnlyPlain(signed, s[1..]);
      assert s == [s[0]] + s[1..];
      PlainParts([s[0]], s[1..]);
      PlainParts([s[0]], ValidOnly(signed, s[1..]));
    }
  }

  lemma PlainParts(a: string, b: string)
    ensures Plain(a + b) <==> Plain(a) && Plain(b)
  {
    assert forall i :: 0 <= i < |a| ==> (a + b)[i] == a[i];
    assert forall i :: 0 <= i < |b| ==> (a + b)[|a| + i] == b[i];
  }

  /** What is written consists of XML characters only, escaped or not. */
  lemma {:induction false} EscapedIsXml(signed: bool, attribute: bool, s: string)
    ensures AllXml(Escaped(signed, attribute, s))
  {
    hide AllXml, EscapedChar;
    if s == "" {
      NothingIsXml();
    } else {
      EscapedIsXml(signed, attribute, s[1..]);
      EscapedCharIsXml(signed, attribute, s[0]);
      XmlParts(EscapedChar(signed, attribute, s[0]), Escaped(signed, attribute, s[1..]));
    }
  }

  lemma EscapedCharIsXml(signed: bool, attribute: bool, c: char)
    ensures AllXml(EscapedChar(signed, attribute, c))
  {
  }

  lemma NoReturnInMarks()
    ensures Plain(CDATA_START) && Plain(CDATA_END) && Plain(CDATA_BREAK)
  {
  }

  /** The reader's line ends do not touch an escaped attribute. */
  lemma AttributeSurvives(signed: bool, s: string)
    ensures AttributeValue(LineEnds(Escaped(signed, true, s))) == Some(ValidOnly(signed, s))
  {
    hide Escaped, AttributeValue, LineEnds;
    EscapedHasNo(signed, true, s, '\r');
    LineEndsIff(Escaped(signed, true, s));
    AttributeIsPreserved(signed, s);
  }

  /** What is removed: nothing exactly if every character is valid in the sense of the program. */
  lemma {:induction false} ValidOnlyIff(signed: bool, s: string)
    ensures ValidOnly(signed, s) == s <==> forall i :: 0 <= i < |s| ==> IsValidXmlCharacter(signed, s[i])
    ensures |ValidOnly(signed, s)| <= |s|
  {
    hide IsValidXmlCharacter;
    if s != "" {
      ValidOnlyIff(signed, s[1..]);
      assert s == [s[0]] + s[1..];
    }
  }

  /** XML characters are all kept exactly if `char` is unsigned or they are all below 0x80. */
  lemma XmlIsKeptIff(signed: bool, s: string)
    requires AllXml(s)
    ensures ValidOnly(signed, s) == s <==> !signed || forall i :: 0 <= i < |s| ==> s[i] as int < 0x80
  {
    ValidOnlyIff(signed, s);
    assert forall i :: 0 <= i < |s| ==> IsXmlChar(s[i] as int);
  }

  /** The first byte of an umlaut in UTF-8 is an XML character and is dropped where `char` is signed. */
  lemma UmlautIsDropped()
    ensures AllXml("\U{C3}") && ValidOnly(true, "\U{C3}") == "" && ValidOnly(false, "\U{C3}") == "\U{C3}"
  {
  }
}
