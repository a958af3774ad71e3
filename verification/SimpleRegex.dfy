/**
 * The simple regular expressions of gtest (gtest-port.cc): what ValidateRegex accepts and what the backtracking
 * matcher decides, against a grammar and a language defined on syntax trees.
 */
module SimpleRegex {
  import opened CStrings

  // ---- character classes

  predicate IsInSet(ch: char, str: string) {
    ch != '\0' && ch in str
  }

  predicate IsAsciiDigit(ch: char) {
    '0' <= ch <= '9'
  }

  predicate IsAsciiPunct(ch: char) {
    IsInSet(ch, "^-!\"#$%&'()*+,./:;<=>?@[\\]_`{|}~")
  }

  predicate IsRepeat(ch: char) {
    IsInSet(ch, "?*+")
  }

  predicate IsUnsupported(ch: char) {
    IsInSet(ch, "()[]{}|")
  }

  predicate IsAnchorOrRepeat(ch: char) {
    IsInSet(ch, "^$?*+")
  }

  lemma CharClasses(ch: char)
    ensures IsRepeat(ch) <==> ch == '?' || ch == '*' || ch == '+'
    ensures IsAnchorOrRepeat(ch) <==> ch == '^' || ch == '$' || IsRepeat(ch)
    ensures IsUnsupported(ch) ==> !IsAnchorOrRepeat(ch) && ch != '\\'
    ensures IsAnchorOrRepeat(ch) || IsUnsupported(ch) ==> ch != '\0'
  {
  }

  predicate IsAsciiWhiteSpace(ch: char) {
    IsInSet(ch, " \U{0C}\n\r\t\U{0B}")
  }

  predicate IsAsciiWordChar(ch: char) {
    'a' <= ch <= 'z' || 'A' <= ch <= 'Z' || '0' <= ch <= '9' || ch == '_'
  }

  predicate IsValidEscape(c: char) {
    IsAsciiPunct(c) || IsInSet(c, "dDfnrsStvwW")
  }

  predicate AtomMatchesChar(escaped: bool, patternChar: char, ch: char) {
    if escaped then
      match patternChar
      case 'd' => IsAsciiDigit(ch)
      case 'D' => !IsAsciiDigit(ch)
      case 'f' => ch == '\U{0C}'
      case 'n' => ch == '\n'
      case 'r' => ch == '\r'
      case 's' => IsAsciiWhiteSpace(ch)
      case 'S' => !IsAsciiWhiteSpace(ch)
      case 't' => ch == '\t'
      case 'v' => ch == '\U{0B}'
      case 'w' => IsAsciiWordChar(ch)
      case 'W' => !IsAsciiWordChar(ch)
      case _ => IsAsciiPunct(patternChar) && patternChar == ch
    else
      (patternChar == '.' && ch != '\n') || patternChar == ch
  }

  // ---- syntax trees: ^?(atom[?*+]?)*$?

  datatype Atom = Atom(escaped: bool, c: char)

  datatype Repeat = Once | Optional | Star | Plus

  datatype Item = Item(atom: Atom, rep: Repeat)

  datatype Regex = Regex(anchored: bool, items: seq<Item>, ended: bool)

  predicate AtomOk(a: Atom) {
    if a.escaped then IsValidEscape(a.c) else a.c != '\0' && a.c != '\\' && !IsAnchorOrRepeat(a.c) && !IsUnsupported(a.c)
  }

  predicate ItemsOk(items: seq<Item>) {
    forall i :: 0 <= i < |items| ==> AtomOk(items[i].atom)
  }

  function PrintAtom(a: Atom): string {
    if a.escaped then ['\\', a.c] else [a.c]
  }

  function PrintRepeat(r: Repeat): string {
    match r
    case Once => ""
    case Optional => "?"
    case Star => "*"
    case Plus => "+"
  }

  function PrintItems(items: seq<Item>): string {
    if items == [] then "" else PrintAtom(items[0].atom) + (PrintRepeat(items[0].rep) + PrintItems(items[1..]))
  }

  function PrintEnd(ended: bool): string {
    if ended then "$" else ""
  }

  function Print(r: Regex): string {
    (if r.anchored then "^" else "") + (PrintItems(r.items) + PrintEnd(r.ended))
  }

  // ---- validation

  /**
   * The rest `s` of a valid regex, at its start (`first`) or not, when the previous token was repeatable (`prev`)
   * or was not.
   */
  predicate ValidRest(s: string, first: bool, prev: bool)
    decreases |s|
  {
    if s == [] then true
    else if s[0] == '\\' then |s| > 1 && IsValidEscape(s[1]) && ValidRest(s[2..], false, true)
    else
      && (s[0] == '^' ==> first)
      && (s[0] == '$' ==> |s| == 1)
      && !IsUnsupported(s[0])
      && (IsRepeat(s[0]) ==> prev)
      && ValidRest(s[1..], false, !IsAnchorOrRepeat(s[0]))
  }

  lemma ValidAfterChar(c: char, rest: string, first: bool, prev: bool)
    requires c != '\\' && c != '^' && c != '$' && !IsUnsupported(c) && (IsRepeat(c) ==> prev)
    ensures ValidRest([c] + rest, first, prev) == ValidRest(rest, false, !IsAnchorOrRepeat(c))
  {
    assert ([c] + rest)[1..] == rest;
  }

  lemma ValidAfterEscape(c: char, rest: string, first: bool, prev: bool)
    requires IsValidEscape(c)
    ensures ValidRest(['\\', c] + rest, first, prev) == ValidRest(rest, false, true)
  {
    assert (['\\', c] + rest)[2..] == rest;
  }

  /** What prints a repetition (only after a repeatable token), items and an optional end is valid. */
  lemma {:induction false} PrintedIsValid(first: bool, prev: bool, rep: Repeat, items: seq<Item>, ended: bool)
    requires ItemsOk(items) && (rep != Once ==> prev)
    ensures ValidRest(PrintRepeat(rep) + (PrintItems(items) + PrintEnd(ended)), first, prev)
    decreases |items|, rep != Once
  {
    hide IsUnsupported, IsValidEscape, IsRepeat, IsAnchorOrRepeat, ValidRest;
    var rest := PrintItems(items) + PrintEnd(ended);
    if rep != Once {
      var c := PrintRepeat(rep)[0];
      CharClasses(c);
      RepeatChar(rep);
      assert "" + rest == rest;
      PrintedIsValid(false, false, Once, items, ended);
      ValidAfterChar(c, rest, first, prev);
    } else if items != [] {
      var a, tail := items[0].atom, PrintRepeat(items[0].rep) + (PrintItems(items[1..]) + PrintEnd(ended));
      assert "" + rest == PrintAtom(a) + tail;
      PrintedIsValid(false, true, items[0].rep, items[1..], ended);
      CharClasses(a.c);
      if a.escaped {
        ValidAfterEscape(a.c, tail, first, prev);
      } else {
        ValidAfterChar(a.c, tail, first, prev);
      }
    } else {
      assert "" + rest == PrintEnd(ended);
      ValidEnd(ended, first, prev);
    }
  }

  lemma RepeatChar(rep: Repeat)
    requires rep != Once
    ensures PrintRepeat(rep) == [PrintRepeat(rep)[0]] && PrintRepeat(rep)[0] in {'?', '*', '+'}
  {
  }

  lemma ValidEnd(ended: bool, first: bool, prev: bool)
    ensures ValidRest(PrintEnd(ended), first, prev)
  {
    CharClasses('$');
  }

  /** Conversely, what is valid and does not start with the anchor has such a parse. */
  lemma {:induction false} ValidHasParse(s: string, first: bool, prev: bool)
    returns (rep: Repeat, items: seq<Item>, ended: bool)
    requires IsCString(s) && ValidRest(s, first, prev) && (first ==> At(s, 0) != '^')
    ensures ItemsOk(items) && (rep != Once ==> prev)
    ensures s == PrintRepeat(rep) + (PrintItems(items) + PrintEnd(ended))
    decreases |s|
  {
    hide IsRepeat, IsAnchorOrRepeat, IsUnsupported, IsValidEscape, PrintItems, PrintEnd, PrintRepeat;
    rep, items, ended := Once, [], false;
    EmptyPrints();
    if s != [] {
      CharClasses(s[0]);
      if s[0] == '\\' {
        var rep1, items1, ended1 := ValidHasParse(s[2..], false, true);
        items, ended := [Item(Atom(true, s[1]), rep1)] + items1, ended1;
        FirstItem(s, Atom(true, s[1]), rep1, items1, ended1);
      } else if s[0] == '$' {
        ended := true;
        assert s == "$";
      } else {
        var rep1, items1, ended1 := ValidHasParse(s[1..], false, !IsAnchorOrRepeat(s[0]));
        if IsRepeat(s[0]) {
          rep := RepeatOf(s[0]);
          items, ended := items1, ended1;
          assert s == [s[0]] + s[1..];
        } else {
          items, ended := [Item(Atom(false, s[0]), rep1)] + items1, ended1;
          FirstItem(s, Atom(false, s[0]), rep1, items1, ended1);
        }
      }
    }
  }

  lemma FirstItem(s: string, a: Atom, rep: Repeat, items: seq<Item>, ended: bool)
    requires |s| >= |PrintAtom(a)| && s[..|PrintAtom(a)|] == PrintAtom(a)
    requires s[|PrintAtom(a)|..] == PrintRepeat(rep) + (PrintItems(items) + PrintEnd(ended))
    ensures s == PrintRepeat(Once) + (PrintItems([Item(a, rep)] + items) + PrintEnd(ended))
  {
    hide PrintAtom, PrintRepeat, PrintEnd, PrintItems;
    PrintFirst(a, rep, items);
    assert s == s[..|PrintAtom(a)|] + s[|PrintAtom(a)|..];
    EmptyPrints();
  }

  lemma PrintFirst(a: Atom, rep: Repeat, items: seq<Item>)
    ensures PrintItems([Item(a, rep)] + items) == PrintAtom(a) + (PrintRepeat(rep) + PrintItems(items))
  {
    assert ([Item(a, rep)] + items)[1..] == items;
  }

  lemma EmptyPrints()
    ensures PrintRepeat(Once) == "" && PrintItems([]) == "" && PrintEnd(false) == "" && PrintEnd(true) == "$"
  {
  }

  lemma RepeatOf(c: char) returns (rep: Repeat)
    requires IsRepeat(c)
    ensures rep != Once && PrintRepeat(rep) == [c]
  {
    CharClasses(c);
    rep := if c == '?' then Optional else if c == '*' then Star else Plus;
  }

  /** The grammar of simple regular expressions: what some well-formed syntax tree prints. */
  ghost predicate InGrammar(s: string) {
    exists r: Regex :: ItemsOk(r.items) && s == Print(r)
  }

  lemma ValidIffInGrammar(s: string)
    requires IsCString(s)
    ensures ValidRest(s, true, false) <==> InGrammar(s)
  {
    if ValidRest(s, true, false) {
      ValidIsInGrammar(s);
    }
    if InGrammar(s) {
      var r: Regex :| ItemsOk(r.items) && s == Print(r);
      PrintIsValid(r);
    }
  }

  lemma ValidIsInGrammar(s: string)
    requires IsCString(s) && ValidRest(s, true, false)
    ensures InGrammar(s)
  {
    hide *;
    var anchored, rest := AnchorApart(s);
    var rep, items, ended := ValidHasParse(rest, !anchored, false);
    TreePrints(anchored, items, ended, rest);
    TreeIsInGrammar(Regex(anchored, items, ended));
  }

  lemma AnchorApart(s: string) returns (anchored: bool, rest: string)
    requires IsCString(s) && ValidRest(s, true, false)
    ensures IsCString(rest) && ValidRest(rest, !anchored, false) && (!anchored ==> At(rest, 0) != '^')
    ensures s == (if anchored then "^" else "") + rest
  {
    hide ValidRest;
    anchored := At(s, 0) == '^';
    rest := if anchored then s[1..] else s;
    if anchored {
      AfterAnchor(s);
    }
  }

  lemma AfterAnchor(s: string)
    requires ValidRest(s, true, false) && At(s, 0) == '^'
    ensures ValidRest(s[1..], false, false)
  {
    CharClasses('^');
  }

  lemma TreePrints(anchored: bool, items: seq<Item>, ended: bool, rest: string)
    requires rest == PrintRepeat(Once) + (PrintItems(items) + PrintEnd(ended))
    ensures Print(Regex(anchored, items, ended)) == (if anchored then "^" else "") + rest
  {
    hide PrintItems, PrintEnd, PrintRepeat;
    EmptyPrints();
    assert rest == PrintItems(items) + PrintEnd(ended);
  }

  lemma TreeIsInGrammar(r: Regex)
    requires ItemsOk(r.items)
    ensures InGrammar(Print(r))
  {
  }

  lemma PrintIsValid(r: Regex)
    requires ItemsOk(r.items)
    ensures ValidRest(Print(r), true, false)
  {
    hide IsRepeat, IsAnchorOrRepeat, IsUnsupported, IsValidEscape, PrintItems;
    var rest := PrintItems(r.items) + PrintEnd(r.ended);
    assert "" + rest == rest;
    PrintedIsValid(!r.anchored, false, Once, r.items, r.ended);
    CharClasses('^');
    if r.anchored {
      assert Print(r)[1..] == rest;
    }
  }

  /** The same, by position in the regex. */
  predicate ValidFrom(s: string, i: nat, prev: bool)
    requires i <= |s|
  {
    ValidRest(s[i..], i == 0, prev)
  }

  lemma ValidFromChar(s: string, i: nat, prev: bool)
    requires IsCString(s) && i < |s| && s[i] != '\\'
    ensures ValidFrom(s, i, prev) <==>
      && (s[i] == '^' ==> i == 0) && (s[i] == '$' ==> At(s, i + 1) == '\0') && !IsUnsupported(s[i])
      && (IsRepeat(s[i]) ==> prev) && ValidFrom(s, i + 1, !IsAnchorOrRepeat(s[i]))
  {
    assert s[i..][1..] == s[i + 1..];
  }

  lemma ValidFromEscape(s: string, i: nat, prev: bool)
    requires IsCString(s) && i < |s| && s[i] == '\\'
    ensures ValidFrom(s, i, prev) <==>
      At(s, i + 1) != '\0' && IsValidEscape(s[i + 1]) && ValidFrom(s, i + 2, true)
  {
    if i + 1 < |s| {
      assert s[i..][2..] == s[i + 2..];
    }
  }

  lemma ValidFromEnd(s: string, i: nat, prev: bool)
    requires IsCString(s) && i <= |s| && At(s, i) == '\0'
    ensures ValidFrom(s, i, prev)
  {
  }

  lemma ValidFromStart(s: string)
    requires IsCString(s)
    ensures ValidFrom(s, 0, false) <==> InGrammar(s)
  {
    assert s[0..] == s;
    ValidIffInGrammar(s);
  }

  /** The validation loop; error messages are left out, the verdict is not. */
  method ValidateRegex(regex: CString) returns (ok: bool)
    requires regex.Chars? ==> IsCString(regex.s)
    ensures ok <==> regex.Chars? && InGrammar(regex.s)
  {
    hide IsRepeat, IsAnchorOrRepeat, IsUnsupported, IsValidEscape, InGrammar, ValidFrom;
    if regex.Null? {
      return false;
    }
    var s := regex.s;
    ValidFromStart(s);
    var isValid := true;
    var prevRepeatable := false;
    var i := 0;
    while At(s, i) != '\0'
      invariant i <= |s|
      invariant InGrammar(s) <==> isValid && ValidFrom(s, i, prevRepeatable)
      decreases |s| - i
    {
      if s[i] == '\\' {
        ValidFromEscape(s, i, prevRepeatable);
        i := i + 1;
        if At(s, i) == '\0' {
          return false;
        }
        if !IsValidEscape(s[i]) {
          isValid := false;
        }
        prevRepeatable := true;
      } else {
        ValidFromChar(s, i, prevRepeatable);
        var ch := s[i];
        if ch == '^' && i > 0 {
          isValid := false;
        } else if ch == '$' && At(s, i + 1) != '\0' {
          isValid := false;
        } else if IsUnsupported(ch) {
          isValid := false;
        } else if IsRepeat(ch) && !prevRepeatable {
          isValid := false;
        }
        prevRepeatable := !IsAnchorOrRepeat(ch);
      }
      i := i + 1;
    }
    ValidFromEnd(s, i, prevRepeatable);
    return isValid;
  }

  // ---- the language of a regex

  const DIGITS := "0123456789"
  const LOWER := "abcdefghijklmnopqrstuvwxyz"
  const UPPER := "ABCDEFGHIJKLMNOPQRSTUVWXYZ"
  const BLANKS := " \t\n\r\U{0B}\U{0C}"
  const PUNCTUATION := "!\"#$%&'()*+,-./:;<=>?@[\\]^_`{|}~"

  predicate IsWordChar(ch: char) {
    ch in LOWER || ch in UPPER || ch in DIGITS || ch == '_'
  }

  /** The characters of an atom, class by class. */
  predicate Accepts(a: Atom, ch: char) {
    if !a.escaped then
      if a.c == '.' then ch != '\n' else ch == a.c
    else
      match a.c
      case 'd' => ch in DIGITS
      case 'D' => ch !in DIGITS
      case 's' => ch in BLANKS
      case 'S' => ch !in BLANKS
      case 'w' => IsWordChar(ch)
      case 'W' => !IsWordChar(ch)
      case 'f' => ch == '\U{0C}'
      case 'n' => ch == '\n'
      case 'r' => ch == '\r'
      case 't' => ch == '\t'
      case 'v' => ch == '\U{0B}'
      case _ => ch == a.c
  }

  /** The test of the program decides the class of every well-formed atom, for every character. */
  lemma AtomMatchesIff(a: Atom, ch: char)
    requires AtomOk(a)
    ensures AtomMatchesChar(a.escaped, a.c, ch) <==> Accepts(a, ch)
  {
    hide IsUnsupported, IsAnchorOrRepeat, IsAsciiPunct, IsValidEscape;
    hide IsAsciiDigit, IsAsciiWhiteSpace, IsAsciiWordChar, IsWordChar;
    if a.escaped {
      ClassesAgree(ch);
      EscapesApart(a.c);
    }
  }

  lemma ClassesAgree(ch: char)
    ensures IsAsciiDigit(ch) <==> ch in DIGITS
    ensures IsAsciiWhiteSpace(ch) <==> ch in BLANKS
    ensures IsAsciiWordChar(ch) <==> IsWordChar(ch)
  {
    DigitsAre(ch);
    LowerAre(ch);
    UpperAre(ch);
  }

  lemma DigitsAre(ch: char)
    ensures ch in DIGITS <==> '0' <= ch <= '9'
  {
    if '0' <= ch <= '9' {
      assert DIGITS[ch as int - '0' as int] == ch;
    }
  }

  lemma LowerAre(ch: char)
    ensures ch in LOWER <==> 'a' <= ch <= 'z'
  {
    forall i | 0 <= i < 26 ensures LOWER[i] as int == 'a' as int + i {
      LowerAt(i);
    }
    if 'a' <= ch <= 'z' {
      assert LOWER[ch as int - 'a' as int] == ch;
    }
  }

  lemma LowerAt(i: nat)
    requires i < 26
    ensures LOWER[i] as int == 'a' as int + i
  {
  }

  lemma UpperAre(ch: char)
    ensures ch in UPPER <==> 'A' <= ch <= 'Z'
  {
    forall i | 0 <= i < 26 ensures UPPER[i] as int == 'A' as int + i {
      UpperAt(i);
    }
    if 'A' <= ch <= 'Z' {
      assert UPPER[ch as int - 'A' as int] == ch;
    }
  }

  lemma UpperAt(i: nat)
    requires i < 26
    ensures UPPER[i] as int == 'A' as int + i
  {
  }

  lemma EscapesApart(c: char)
    requires IsValidEscape(c)
    ensures IsAsciiPunct(c)
      || c == 'd' || c == 'D' || c == 'f' || c == 'n' || c == 'r' || c == 's' || c == 'S' || c == 't' || c == 'v'
      || c == 'w' || c == 'W'
  {
    hide IsAsciiPunct;
  }

  /** What may be written as an atom, character by character. */
  predicate InAlphabet(a: Atom) {
    if a.escaped then a.c in PUNCTUATION || a.c in "dDsSwWfnrtv" else a.c !in "\0\\^$?*+()[]{}|"
  }

  lemma AtomOkIff(a: Atom)
    ensures AtomOk(a) <==> InAlphabet(a)
  {
    hide IsAsciiPunct, IsUnsupported, IsAnchorOrRepeat;
    PunctuationIs(a.c);
    MarksAre(a.c);
  }

  lemma PunctuationIs(c: char)
    ensures IsAsciiPunct(c) <==> c in PUNCTUATION
  {
  }

  lemma MarksAre(c: char)
    ensures c != '\\' && !IsAnchorOrRepeat(c) && !IsUnsupported(c) && c != '\0' <==> c !in "\0\\^$?*+()[]{}|"
  {
  }

  /** An atom with each of its repetitions: the text, and the words that it stands for. */
  lemma RepetitionMeans(a: Atom, w: string)
    ensures PrintItems([Item(a, Once)]) == PrintAtom(a)
    ensures PrintItems([Item(a, Optional)]) == PrintAtom(a) + "?"
    ensures PrintItems([Item(a, Star)]) == PrintAtom(a) + "*"
    ensures PrintItems([Item(a, Plus)]) == PrintAtom(a) + "+"
    ensures InLanguage([Item(a, Once)], w) <==> AcceptsAll(a, w) && |w| == 1
    ensures InLanguage([Item(a, Optional)], w) <==> AcceptsAll(a, w) && |w| <= 1
    ensures InLanguage([Item(a, Star)], w) <==> AcceptsAll(a, w)
    ensures InLanguage([Item(a, Plus)], w) <==> AcceptsAll(a, w) && |w| >= 1
  {
    hide PrintAtom, AcceptsAll, InLanguage;
    OnePrints(a, Once);
    OnePrints(a, Optional);
    OnePrints(a, Star);
    OnePrints(a, Plus);
    OneItem(a, Once, w);
    OneItem(a, Optional, w);
    OneItem(a, Star, w);
    OneItem(a, Plus, w);
  }

  lemma OnePrints(a: Atom, rep: Repeat)
    ensures PrintItems([Item(a, rep)]) == PrintAtom(a) + PrintRepeat(rep)
  {
    PrintFirst(a, rep, []);
    EmptyPrints();
    assert [Item(a, rep)] + [] == [Item(a, rep)];
  }

  lemma OneItem(a: Atom, rep: Repeat, w: string)
    ensures InLanguage([Item(a, rep)], w) <==> AcceptsAll(a, w) && Count(rep, |w|)
  {
    hide AcceptsAll, Count;
    OnePart(w);
    if AcceptsAll(a, w) && Count(rep, |w|) {
      assert Splits([Item(a, rep)], [w]);
    }
    if parts :| Splits([Item(a, rep)], parts) && Concat(parts) == w {
      OnePart(parts[0]);
      assert parts == [parts[0]];
    }
  }

  lemma OnePart(w: string)
    ensures Concat([w]) == w
  {
    assert [w][1..] == [];
  }

  predicate AcceptsAll(a: Atom, w: string) {
    forall i :: 0 <= i < |w| ==> Accepts(a, w[i])
  }

  predicate Count(rep: Repeat, n: nat) {
    match rep
    case Once => n == 1
    case Optional => n <= 1
    case Star => true
    case Plus => n >= 1
  }

  /** `parts` is one word for each item: repetitions of its atom, as many as its repetition allows. */
  predicate Splits(items: seq<Item>, parts: seq<string>) {
    |parts| == |items|
    && forall k :: 0 <= k < |items| ==> AcceptsAll(items[k].atom, parts[k]) && Count(items[k].rep, |parts[k]|)
  }

  ghost predicate InLanguage(items: seq<Item>, w: string) {
    exists parts :: Splits(items, parts) && Concat(parts) == w
  }

  /** The substring of `s` from `a` to `b` is in the language, where the anchors allow it. */
  ghost predicate MatchesAt(r: Regex, s: string, a: int, b: int) {
    && 0 <= a <= b <= |s| && (r.anchored ==> a == 0) && (r.ended ==> b == |s|)
    && InLanguage(r.items, s[a..b])
  }

  ghost predicate MatchesSomewhere(r: Regex, s: string) {
    exists a, b :: MatchesAt(r, s, a, b)
  }

  /** A prefix of `w` (all of it, if `ended`) is in the language: as the matcher unfolds it, item by item. */
  predicate Head(items: seq<Item>, ended: bool, w: string)
    decreases |items|, 1
  {
    if items == [] then ended ==> w == ""
    else exists n :: 0 <= n <= |w| && Step(items, ended, w, n)
  }

  /** The first item takes the first `n` characters. */
  predicate Step(items: seq<Item>, ended: bool, w: string, n: nat)
    requires items != [] && n <= |w|
    decreases |items|, 0
  {
    Count(items[0].rep, n) && AcceptsAll(items[0].atom, w[..n]) && Head(items[1..], ended, w[n..])
  }

  lemma {:induction false} HeadIsLanguage(items: seq<Item>, ended: bool, w: string, k: nat)
    requires k <= |w| && (ended ==> k == |w|) && InLanguage(items, w[..k])
    ensures Head(items, ended, w)
    decreases |items|
  {
    hide Concat, AcceptsAll, Count;
    var parts :| Splits(items, parts) && Concat(parts) == w[..k];
    if items == [] {
      NoParts(parts);
    } else {
      var n := |parts[0]|;
      FirstPart(parts);
      assert w[..n] == w[..k][..n] == parts[0];
      assert w[n..][..k - n] == w[..k][n..] == Concat(parts[1..]);
      assert Splits(items[1..], parts[1..]);
      HeadIsLanguage(items[1..], ended, w[n..], k - n);
      assert Step(items, ended, w, n);
    }
  }

  lemma NoParts(parts: seq<string>)
    requires parts == []
    ensures Concat(parts) == ""
  {
  }

  lemma FirstPart(parts: seq<string>)
    requires parts != []
    ensures Concat(parts) == parts[0] + Concat(parts[1..])
  {
  }

  lemma {:induction false} LanguageOfHead(items: seq<Item>, ended: bool, w: string) returns (k: nat)
    requires Head(items, ended, w)
    ensures k <= |w| && (ended ==> k == |w|) && InLanguage(items, w[..k])
    decreases |items|
  {
    if items == [] {
      k := if ended then |w| else 0;
      assert Splits([], []) && Concat([]) == w[..k];
    } else {
      var n :| 0 <= n <= |w| && Step(items, ended, w, n);
      var j := LanguageOfHead(items[1..], ended, w[n..]);
      k := n + j;
      var rest :| Splits(items[1..], rest) && Concat(rest) == w[n..][..j];
      var parts := [w[..n]] + rest;
      assert parts[1..] == rest;
      assert w[..k] == w[..n] + w[n..][..j];
      assert Splits(items, parts) by {
        forall i | 0 <= i < |items| ensures AcceptsAll(items[i].atom, parts[i]) && Count(items[i].rep, |parts[i]|) {
          if i > 0 {
            assert items[i] == items[1..][i - 1] && parts[i] == rest[i - 1];
          }
        }
      }
      assert InLanguage(items, w[..k]);
    }
  }

  // ---- the matcher

  const SIZE_MAX: int := 0xFFFF_FFFF_FFFF_FFFF

  /** The shape of the text of a regex whose first item is given. */
  lemma FirstOfPrinted(items: seq<Item>, ended: bool)
    requires ItemsOk(items) && items != []
    ensures
      var s := PrintItems(items) + PrintEnd(ended);
      var a := items[0].atom;
      var n := |PrintAtom(a)|;
      && |s| >= n && s[..n] == PrintAtom(a) && (s[0] == '\\' <==> a.escaped) && s[0] != '$'
      && (IsRepeat(At(s, n)) <==> items[0].rep != Once)
      && (items[0].rep == Once ==> s[n..] == PrintItems(items[1..]) + PrintEnd(ended))
      && (items[0].rep != Once ==>
           [At(s, n)] == PrintRepeat(items[0].rep) && s[n + 1..] == PrintItems(items[1..]) + PrintEnd(ended))
  {
    hide IsValidEscape, IsRepeat, IsAnchorOrRepeat, IsUnsupported, PrintItems, PrintEnd, PrintAtom;
    var s := PrintItems(items) + PrintEnd(ended);
    var a, rep, rest := items[0].atom, items[0].rep, PrintItems(items[1..]) + PrintEnd(ended);
    var n, tail := |PrintAtom(a)|, PrintRepeat(rep) + rest;
    PrintFirst(a, rep, items[1..]);
    assert [Item(a, rep)] + items[1..] == items;
    Regroup(PrintAtom(a), PrintRepeat(rep), PrintItems(items[1..]), PrintEnd(ended));
    AtomText(a);
    TailOf(PrintAtom(a), tail);
    if rep == Once {
      TailOf("", rest);
      FirstCharIsNoRepeat(items[1..], ended);
    } else {
      RepeatChar(rep);
      TailOf(PrintRepeat(rep), rest);
      CharClasses(PrintRepeat(rep)[0]);
      assert s[n + 1..] == s[n..][1..];
    }
  }

  lemma Regroup(a: string, b: string, c: string, d: string)
    ensures (a + (b + c)) + d == a + (b + (c + d))
  {
  }

  lemma TailOf(a: string, t: string)
    ensures (a + t)[..|a|] == a && (a + t)[|a|..] == t && At(a + t, |a|) == At(t, 0)
  {
  }

  lemma AtomText(a: Atom)
    requires AtomOk(a)
    ensures |PrintAtom(a)| > 0 && (PrintAtom(a)[0] == '\\' <==> a.escaped) && PrintAtom(a)[0] != '$'
  {
    hide IsValidEscape, IsUnsupported;
    CharClasses(a.c);
  }

  lemma FirstCharIsNoRepeat(items: seq<Item>, ended: bool)
    requires ItemsOk(items)
    ensures !IsRepeat(At(PrintItems(items) + PrintEnd(ended), 0))
  {
    hide IsValidEscape, IsRepeat, IsAnchorOrRepeat, IsUnsupported;
    CharClasses('$');
    CharClasses('\\');
    CharClasses('\0');
    if items != [] {
      CharClasses(items[0].atom.c);
      assert PrintItems(items)[0] == PrintAtom(items[0].atom)[0];
    }
  }

  /** The loop over the number of repetitions; `regex` is what follows the repetition. */
  method MatchRepetitionAndRegexAtHead(
      escaped: bool, c: char, repeat: char, regex: string, str: string, ghost items: seq<Item>, ghost ended: bool)
    returns (matched: bool)
    requires items != [] && ItemsOk(items) && items[0].rep != Once
    requires items[0].atom == Atom(escaped, c) && [repeat] == PrintRepeat(items[0].rep)
    requires regex == PrintItems(items[1..]) + PrintEnd(ended)
    requires IsCString(str) && |str| < SIZE_MAX
    ensures matched <==> Head(items, ended, str)
    decreases |items|, 0
  {
    hide AtomMatchesChar, IsRepeat, PrintItems, AtomOk;
    var minCount := if repeat == '+' then 1 else 0;
    var maxCount := if repeat == '?' then 1 else SIZE_MAX - 1;
    var i := 0;
    while i <= maxCount
      invariant 0 <= i <= |str| + 1 && i <= maxCount + 1
      invariant i <= |str| ==> AcceptsAll(items[0].atom, str[..i])
      invariant forall n :: 0 <= n < i && n <= |str| ==> !Step(items, ended, str, n)
      invariant i <= |str|
      decreases |str| - i
    {
      if i >= minCount {
        var tail := MatchRegexAtHead(regex, str[i..], items[1..], ended);
        if tail {
          assert Step(items, ended, str, i);
          return true;
        }
      }
      assert !Step(items, ended, str, i);
      AtomMatchesIff(items[0].atom, At(str, i));
      if At(str, i) == '\0' || !AtomMatchesChar(escaped, c, At(str, i)) {
        forall n | i < n <= |str| ensures !Step(items, ended, str, n) {
          assert str[..n][i] == str[i];
        }
        return false;
      }
      assert str[..i + 1] == str[..i] + [str[i]];
      i := i + 1;
    }
    assert repeat == '?';
    forall n | 0 <= n <= |str| ensures !Step(items, ended, str, n) {
    }
    return false;
  }

  /** The same, by position in the regex. */
  lemma PatternHead(regex: string, items: seq<Item>, ended: bool)
    requires ItemsOk(items) && regex == PrintItems(items) + PrintEnd(ended)
    ensures At(regex, 0) == '\0' <==> items == [] && !ended
    ensures At(regex, 0) == '$' <==> items == [] && ended
    ensures items != [] ==>
      var k := if items[0].atom.escaped then 1 else 0;
      && (regex[0] == '\\' <==> items[0].atom.escaped)
      && |regex| > k && regex[k] == items[0].atom.c && (IsRepeat(At(regex, k + 1)) <==> items[0].rep != Once)
      && (items[0].rep == Once ==> regex[k + 1..] == PrintItems(items[1..]) + PrintEnd(ended))
      && (items[0].rep != Once ==> |regex| > k + 1 && [regex[k + 1]] == PrintRepeat(items[0].rep)
                                   && regex[k + 2..] == PrintItems(items[1..]) + PrintEnd(ended))
  {
    hide IsRepeat, PrintItems, IsValidEscape, IsUnsupported;
    NothingPrinted(ended);
    CharClasses('\0');
    CharClasses('$');
    if items != [] {
      FirstOfPrinted(items, ended);
      var n := |PrintAtom(items[0].atom)|;
      assert regex[..n][n - 1] == PrintAtom(items[0].atom)[n - 1];
      assert regex[0] == regex[..n][0];
    }
  }

  /** Does `regex`, the text of `items` and `ended`, match a prefix of `str`? */
  method MatchRegexAtHead(regex: string, str: string, ghost items: seq<Item>, ghost ended: bool) returns (matched: bool)
    requires ItemsOk(items) && regex == PrintItems(items) + PrintEnd(ended)
    requires IsCString(str) && |str| < SIZE_MAX
    ensures matched <==> Head(items, ended, str)
    decreases |items|, 1
  {
    hide AtomMatchesChar, IsRepeat, PrintItems, PrintEnd, PrintRepeat, AtomOk;
    PatternHead(regex, items, ended);
    if At(regex, 0) == '\0' {
      return true;
    }
    if regex[0] == '$' {
      return At(str, 0) == '\0';
    }
    var escaped := regex[0] == '\\';
    var k := if escaped then 1 else 0;
    if IsRepeat(At(regex, k + 1)) {
      matched := MatchRepetitionAndRegexAtHead(escaped, regex[k], regex[k + 1], regex[k + 2..], str, items, ended);
    } else {
      AtomMatchesIff(items[0].atom, At(str, 0));
      if At(str, 0) == '\0' || !AtomMatchesChar(escaped, regex[k], At(str, 0)) {
        return false;
      }
      matched := MatchRegexAtHead(regex[k + 1..], str[1..], items[1..], ended);
      if matched {
        assert Step(items, ended, str, 1);
      }
    }
  }

  /** Matching at the head of the rest from `a`, in terms of the language. */
  lemma HeadIsMatch(r: Regex, s: string, a: nat)
    requires a <= |s| && (r.anchored ==> a == 0)
    ensures Head(r.items, r.ended, s[a..]) <==> exists b :: MatchesAt(r, s, a, b)
  {
    hide Head, InLanguage;
    var w := s[a..];
    if Head(r.items, r.ended, w) {
      var k := LanguageOfHead(r.items, r.ended, w);
      assert w[..k] == s[a..a + k];
      assert MatchesAt(r, s, a, a + k);
    }
    if exists b :: MatchesAt(r, s, a, b) {
      var b :| MatchesAt(r, s, a, b);
      assert w[..b - a] == s[a..b];
      HeadIsLanguage(r.items, r.ended, w, b - a);
    }
  }

  lemma PrintedStart(r: Regex)
    requires ItemsOk(r.items)
    ensures At(Print(r), 0) == '^' <==> r.anchored
    ensures r.anchored ==> Print(r)[1..] == PrintItems(r.items) + PrintEnd(r.ended)
    ensures !r.anchored ==> Print(r) == PrintItems(r.items) + PrintEnd(r.ended)
  {
    hide IsValidEscape, IsUnsupported;
    if r.anchored {
      assert Print(r)[1..] == PrintItems(r.items) + PrintEnd(r.ended);
    } else if r.items != [] {
      CharClasses('^');
      FirstOfPrinted(r.items, r.ended);
    }
  }

  /** Does the pattern `regex`, the text of `r`, match some substring of `str`? */
  method MatchRegexAnywhere(regex: CString, str: CString, ghost r: Regex) returns (matched: bool)
    requires regex.Chars? ==> ItemsOk(r.items) && regex.s == Print(r)
    requires str.Chars? ==> IsCString(str.s) && |str.s| < SIZE_MAX
    ensures matched <==> regex.Chars? && str.Chars? && MatchesSomewhere(r, str.s)
  {
    hide Print, PrintItems, PrintEnd, Head, InLanguage, ItemsOk;
    if regex.Null? || str.Null? {
      return false;
    }
    PrintedStart(r);
    var s := str.s;
    if At(regex.s, 0) == '^' {
      matched := MatchRegexAtHead(regex.s[1..], s, r.items, r.ended);
      HeadIsMatch(r, s, 0);
      assert s[0..] == s;
      return;
    }
    var i := 0;
    while true
      invariant i <= |s|
      invariant forall a, b :: a < i ==> !MatchesAt(r, s, a, b)
      decreases |s| - i
    {
      matched := MatchRegexAtHead(regex.s, s[i..], r.items, r.ended);
      HeadIsMatch(r, s, i);
      if matched {
        return;
      }
      if At(s, i) == '\0' {
        return false;
      }
      i := i + 1;
    }
  }

  // ---- the RE class

  lemma NothingPrinted(ended: bool)
    ensures PrintItems([]) + PrintEnd(ended) == PrintEnd(ended)
    ensures PrintItems([]) == ""
  {
  }

  lemma SameFirstItem(a: seq<Item>, aEnded: bool, b: seq<Item>, bEnded: bool)
    requires a != [] && b != [] && ItemsOk(a) && ItemsOk(b)
    requires PrintItems(a) + PrintEnd(aEnded) == PrintItems(b) + PrintEnd(bEnded)
    ensures a[0] == b[0]
    ensures PrintItems(a[1..]) + PrintEnd(aEnded) == PrintItems(b[1..]) + PrintEnd(bEnded)
  {
    hide ItemsOk, IsRepeat, PrintItems, PrintEnd;
    FirstOfPrinted(a, aEnded);
    FirstOfPrinted(b, bEnded);
    var s := PrintItems(a) + PrintEnd(aEnded);
    var n := |PrintAtom(a[0].atom)|;
    assert s[..n] == PrintAtom(a[0].atom) == PrintAtom(b[0].atom);
    assert PrintAtom(a[0].atom)[n - 1] == PrintAtom(b[0].atom)[n - 1];
  }

  lemma {:induction false} PrintItemsInjective(a: seq<Item>, aEnded: bool, b: seq<Item>, bEnded: bool)
    requires ItemsOk(a) && ItemsOk(b) && PrintItems(a) + PrintEnd(aEnded) == PrintItems(b) + PrintEnd(bEnded)
    ensures a == b && aEnded == bEnded
    decreases |a|
  {
    hide IsRepeat, PrintItems, AtomOk, PrintRepeat;
    NothingPrinted(aEnded);
    NothingPrinted(bEnded);
    if a != [] && b != [] {
      SameFirstItem(a, aEnded, b, bEnded);
      PrintItemsInjective(a[1..], aEnded, b[1..], bEnded);
      assert a == [a[0]] + a[1..] && b == [b[0]] + b[1..];
    } else if a != [] {
      FirstOfPrinted(a, aEnded);
    } else if b != [] {
      FirstOfPrinted(b, bEnded);
    } else {
      assert PrintEnd(aEnded) == PrintEnd(bEnded);
    }
  }

  /** A pattern has one syntax tree, so its language is well defined. */
  lemma PrintInjective(a: Regex, b: Regex)
    requires ItemsOk(a.items) && ItemsOk(b.items) && Print(a) == Print(b)
    ensures a == b
  {
    hide Print, PrintItems, PrintEnd, ItemsOk;
    PrintedStart(a);
    PrintedStart(b);
    PrintItemsInjective(a.items, a.ended, b.items, b.ended);
  }

  predicate EndsInEscapedDollar(items: seq<Item>) {
    items != [] && items[|items| - 1] == Item(Atom(true, '$'), Once)
  }

  /** The syntax tree of the pattern that FullMatch runs. */
  function FullRegex(r: Regex): Regex {
    Regex(true, r.items, r.ended || !EndsInEscapedDollar(r.items))
  }

  lemma {:induction false} LastPrinted(items: seq<Item>)
    requires ItemsOk(items)
    ensures PrintItems(items) == "" <==> items == []
    ensures items == [] ==> !EndsInEscapedDollar(items)
    ensures items != [] ==> (PrintItems(items)[|PrintItems(items)| - 1] == '$' <==> EndsInEscapedDollar(items))
  {
    hide IsValidEscape, IsUnsupported;
    if items != [] {
      CharClasses(items[0].atom.c);
      LastPrinted(items[1..]);
      var first := PrintAtom(items[0].atom) + PrintRepeat(items[0].rep);
      assert PrintItems(items) == first + PrintItems(items[1..]);
      if |items| > 1 {
        assert items[1..][|items| - 2] == items[|items| - 1];
      }
    }
  }

  class RE {
    var pattern: CString
    var fullPattern: CString
    var isValid: bool

    ghost predicate Valid()
      reads this
    {
      && (pattern.Chars? ==> IsCString(pattern.s))
      && (isValid <==> pattern.Chars? && InGrammar(pattern.s))
      && (isValid ==> forall r: Regex :: ItemsOk(r.items) && Print(r) == pattern.s ==>
                        fullPattern == Chars(Print(FullRegex(r))))
    }

    constructor Init(regex: CString)
      requires regex.Chars? ==> IsCString(regex.s)
      ensures Valid() && pattern == regex
    {
      hide IsCString, InGrammar, Print, FullRegex, ItemsOk;
      pattern := regex;
      fullPattern := Null;
      new;
      isValid := ValidateRegex(regex);
      if !isValid {
        return;
      }
      var len := |regex.s|;
      var buffer := "";
      if At(regex.s, 0) != '^' {
        buffer := "^";
      }
      buffer := buffer + regex.s;
      if len == 0 || regex.s[len - 1] != '$' {
        buffer := buffer + "$";
      }
      fullPattern := Chars(buffer);
      forall r: Regex | ItemsOk(r.items) && Print(r) == regex.s ensures buffer == Print(FullRegex(r)) {
        FullPatternText(r);
      }
    }

    /** Does the regex match the whole of `str`? */
    method FullMatch(str: CString) returns (matched: bool)
      requires Valid() && (str.Chars? ==> IsCString(str.s) && |str.s| < SIZE_MAX)
      ensures matched ==> isValid && str.Chars?
      ensures isValid && str.Chars? ==> forall r: Regex :: ItemsOk(r.items) && Print(r) == pattern.s ==>
        (matched <==> MatchesSomewhere(FullRegex(r), str.s))
    {
      hide MatchesSomewhere, Print, ItemsOk, IsCString, FullRegex;
      if !isValid {
        return false;
      }
      ghost var r: Regex :| ItemsOk(r.items) && pattern.s == Print(r);
      FullRegexOk(r);
      matched := MatchRegexAnywhere(fullPattern, str, FullRegex(r));
      forall q: Regex | ItemsOk(q.items) && Print(q) == pattern.s ensures q == r {
        PrintInjective(q, r);
      }
    }

    /** Does the regex match some substring of `str`? */
    method PartialMatch(str: CString) returns (matched: bool)
      requires Valid() && (str.Chars? ==> IsCString(str.s) && |str.s| < SIZE_MAX)
      ensures matched ==> isValid && str.Chars?
      ensures isValid && str.Chars? ==> forall r: Regex :: ItemsOk(r.items) && Print(r) == pattern.s ==>
        (matched <==> MatchesSomewhere(r, str.s))
    {
      hide MatchesSomewhere, Print, ItemsOk, IsCString, FullRegex;
      if !isValid {
        return false;
      }
      ghost var r: Regex :| ItemsOk(r.items) && pattern.s == Print(r);
      matched := MatchRegexAnywhere(pattern, str, r);
      forall q: Regex | ItemsOk(q.items) && Print(q) == pattern.s ensures q == r {
        PrintInjective(q, r);
      }
    }
  }

  lemma FullRegexOk(r: Regex)
    requires ItemsOk(r.items)
    ensures ItemsOk(FullRegex(r).items)
  {
  }

  lemma PatternEnd(r: Regex)
    requires ItemsOk(r.items)
    ensures var p := Print(r); (p == "" || p[|p| - 1] != '$') <==> (!r.ended && !EndsInEscapedDollar(r.items))
  {
    hide PrintItems, ItemsOk, EndsInEscapedDollar;
    LastPrinted(r.items);
    NothingPrinted(r.ended);
    var body := PrintItems(r.items);
    if r.items != [] && !r.ended {
      assert Print(r)[|Print(r)| - 1] == body[|body| - 1];
    }
  }

  /** The text that RE::Init builds is that of the full regex. */
  lemma FullPatternText(r: Regex)
    requires ItemsOk(r.items)
    ensures
      var p := Print(r);
      var anchored := if At(p, 0) != '^' then "^" + p else p;
      Print(FullRegex(r)) == if p == "" || p[|p| - 1] != '$' then anchored + "$" else anchored
  {
    hide PrintItems, EndsInEscapedDollar, ItemsOk;
    var p := Print(r);
    PrintedStart(r);
    LastPrinted(r.items);
    var body := PrintItems(r.items);
    PatternEnd(r);
    var anchored := if At(p, 0) != '^' then "^" + p else p;
    assert anchored == "^" + (body + PrintEnd(r.ended));
    Regroup("^", body, "", "$");
  }

  // ---- when FullMatch means a match of the whole string

  function SampleChar(a: Atom): char {
    if !a.escaped then a.c
    else
      match a.c
      case 'd' => '0'
      case 'D' => 'x'
      case 'f' => '\U{0C}'
      case 'n' => '\n'
      case 'r' => '\r'
      case 's' => ' '
      case 'S' => 'x'
      case 't' => '\t'
      case 'v' => '\U{0B}'
      case 'w' => 'x'
      case 'W' => '.'
      case _ => a.c
  }

  lemma SampleMatches(a: Atom)
    requires AtomOk(a)
    ensures SampleChar(a) != '\0' && AtomMatchesChar(a.escaped, a.c, SampleChar(a))
  {
  }

  lemma SampleAccepted(a: Atom)
    requires AtomOk(a)
    ensures SampleChar(a) != '\0' && Accepts(a, SampleChar(a))
  {
    hide AtomOk, SampleChar, AtomMatchesChar, Accepts;
    SampleMatches(a);
    AtomMatchesIff(a, SampleChar(a));
  }

  /** Every well-formed list of items has a word. */
  lemma {:induction false} SampleWord(items: seq<Item>) returns (w: string)
    requires ItemsOk(items)
    ensures IsCString(w) && InLanguage(items, w)
  {
    if items == [] {
      w := "";
      assert Splits([], []) && Concat([]) == w;
    } else {
      var rest := SampleWord(items[1..]);
      var c := SampleChar(items[0].atom);
      SampleAccepted(items[0].atom);
      w := [c] + rest;
      var parts :| Splits(items[1..], parts) && Concat(parts) == rest;
      PrependPart(items, [c], parts);
    }
  }

  lemma PrependPart(items: seq<Item>, part: string, parts: seq<string>)
    requires items != [] && Splits(items[1..], parts)
    requires AcceptsAll(items[0].atom, part) && Count(items[0].rep, |part|)
    ensures InLanguage(items, part + Concat(parts))
  {
    var all := [part] + parts;
    assert all[1..] == parts;
    forall i | 0 <= i < |items| ensures AcceptsAll(items[i].atom, all[i]) && Count(items[i].rep, |all[i]|) {
      if i > 0 {
        assert items[i] == items[1..][i - 1] && all[i] == parts[i - 1];
      }
    }
    assert Splits(items, all) && Concat(all) == part + Concat(parts);
  }

  /** A word of items that end in an escaped dollar ends in a dollar. */
  lemma {:induction false} EndsInDollar(items: seq<Item>, parts: seq<string>)
    requires Splits(items, parts) && EndsInEscapedDollar(items)
    ensures var w := Concat(parts); w != "" && w[|w| - 1] == '$'
    decreases |items|
  {
    var w := Concat(parts);
    assert w == parts[0] + Concat(parts[1..]);
    if |items| == 1 {
      assert Concat(parts[1..]) == "" && w == parts[0];
      assert AcceptsAll(items[0].atom, w) && |w| == 1;
      assert Accepts(items[0].atom, w[0]);
    } else {
      assert Splits(items[1..], parts[1..]);
      assert items[1..][|items| - 2] == items[|items| - 1];
      EndsInDollar(items[1..], parts[1..]);
    }
  }

  /** FullMatch decides membership of the whole string in the language of the pattern's items. */
  ghost predicate FullMatchIsExact(r: Regex) {
    forall s | IsCString(s) :: MatchesSomewhere(FullRegex(r), s) <==> InLanguage(r.items, s)
  }

  /**
   * It does exactly if the pattern does not end in an escaped dollar: RE::Init looks at the last character only and
   * takes the escaped dollar for the anchor.
   */
  lemma FullMatchExactIff(r: Regex)
    requires ItemsOk(r.items)
    ensures FullMatchIsExact(r) <==> r.ended || !EndsInEscapedDollar(r.items)
  {
    hide InLanguage, ItemsOk;
    var full := FullRegex(r);
    if full.ended {
      forall s | IsCString(s) ensures MatchesSomewhere(full, s) <==> InLanguage(r.items, s) {
        assert s[0..|s|] == s;
        assert MatchesAt(full, s, 0, |s|) <==> InLanguage(r.items, s);
      }
    } else {
      var s := EscapedDollarWitness(r);
      assert !FullMatchIsExact(r);
    }
  }

  lemma EscapedDollarWitness(r: Regex) returns (s: string)
    requires ItemsOk(r.items) && !r.ended && EndsInEscapedDollar(r.items)
    ensures IsCString(s) && MatchesSomewhere(FullRegex(r), s) && !InLanguage(r.items, s)
  {
    hide ItemsOk, IsValidEscape, AtomMatchesChar;
    var w := SampleWord(r.items);
    s := w + "a";
    assert s[0..|w|] == w;
    assert MatchesAt(FullRegex(r), s, 0, |w|);
    if InLanguage(r.items, s) {
      var parts :| Splits(r.items, parts) && Concat(parts) == s;
      EndsInDollar(r.items, parts);
    }
  }
}
