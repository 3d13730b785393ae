/** The string-aware bracket matcher that cuts a JSON array out of a page (quant/src/quant/events.py), and
    the JSON printer it undoes. */
module Brackets {
  import opened Text

  datatype Scan = Scan(depth: int, inString: bool, escape: bool)

  const START := Scan(0, false, false)

  /** Outside strings, a closing bracket that brings the depth back to zero ends the search. */
  predicate Closes(st: Scan, c: char, open: char, close: char) {
    !st.inString && c != '"' && c != open && c == close && st.depth - 1 == 0
  }

  function Step(st: Scan, c: char, open: char, close: char): Scan {
    if st.inString then
      if st.escape then st.(escape := false)
      else if c == '\\' then st.(escape := true)
      else if c == '"' then st.(inString := false)
      else st
    else if c == '"' then st.(inString := true)
    else if c == open then st.(depth := st.depth + 1)
    else if c == close then st.(depth := st.depth - 1)
    else st
  }

  function Bump(n: nat, found: Option<nat>): Option<nat> {
    if found.Some? then Some(n + found.value) else None
  }

  /** How many characters of `s`, read in state `st`, end with the matching bracket. */
  function Seek(s: string, st: Scan, open: char, close: char): Option<nat> {
    if s == "" then None
    else if Closes(st, s[0], open, close) then Some(1)
    else Bump(1, Seek(s[1..], Step(st, s[0], open, close), open, close))
  }

  /** The end of the bracket that opens at or after `start`; None where the program raises. */
  method FindMatchingBracket(text: string, start: nat, open: char, close: char) returns (end: Option<nat>)
    ensures end == if start <= |text| then Bump(start, Seek(text[start..], START, open, close)) else None
  {
    var depth, inString, escape := 0, false, false;
    var index := start;
    while index < |text|
      invariant start <= |text| ==> index <= |text|
      invariant start <= |text| ==>
                  Bump(start, Seek(text[start..], START, open, close))
                  == Bump(index, Seek(text[index..], Scan(depth, inString, escape), open, close))
    {
      var ch := text[index];
      assert text[index..][1..] == text[index + 1..];
      if inString {
        if escape {
          escape := false;
        } else if ch == '\\' {
          escape := true;
        } else if ch == '"' {
          inString := false;
        }
      } else {
        if ch == '"' {
          inString := true;
        } else if ch == open {
          depth := depth + 1;
        } else if ch == close {
          depth := depth - 1;
          if depth == 0 {
            return Some(index + 1);
          }
        }
      }
      index := index + 1;
    }
    end := None;
  }

  // ----- What the search finds in any text -----

  /** The state after reading `p`. */
  function After(st: Scan, p: string): Scan
    decreases p
  {
    if p == "" then st else After(Step(st, p[0], '[', ']'), p[1..])
  }

  /** No bracket of `p` ends the search. */
  predicate NoClose(st: Scan, p: string)
    decreases p
  {
    p == "" || (!Closes(st, p[0], '[', ']') && NoClose(Step(st, p[0], '[', ']'), p[1..]))
  }

  lemma {:induction false} SeekPast(p: string, rest: string, st: Scan)
    requires NoClose(st, p)
    ensures Seek(p + rest, st, '[', ']') == Bump(|p|, Seek(rest, After(st, p), '[', ']'))
  {
    if p == "" {
      assert p + rest == rest;
    } else {
      assert (p + rest)[1..] == p[1..] + rest;
      SeekPast(p[1..], rest, Step(st, p[0], '[', ']'));
    }
  }

  /** The search finds the first bracket that closes, and nothing when none does. */
  lemma {:induction false} SeekFindsFirst(s: string, st: Scan)
    ensures match Seek(s, st, '[', ']')
            case Some(k) => 1 <= k <= |s| && NoClose(st, s[..k - 1])
                            && Closes(After(st, s[..k - 1]), s[k - 1], '[', ']')
            case None => NoClose(st, s)
  {
    if s != "" && !Closes(st, s[0], '[', ']') {
      SeekFindsFirst(s[1..], Step(st, s[0], '[', ']'));
      var found := Seek(s[1..], Step(st, s[0], '[', ']'), '[', ']');
      if found.Some? {
        assert s[..found.value][1..] == s[1..][..found.value - 1];
      }
    }
  }

  lemma {:induction false} ReadConcat(st: Scan, p: string, q: string)
    ensures After(st, p + q) == After(After(st, p), q)
    ensures NoClose(st, p + q) <==> NoClose(st, p) && NoClose(After(st, p), q)
    decreases p
  {
    if p == "" {
      assert p + q == q;
    } else {
      assert (p + q)[1..] == p[1..] + q;
      ReadConcat(Step(st, p[0], '[', ']'), p[1..], q);
    }
  }

  // ----- Printed JSON -----

  /** One character of a string as section 7 of RFC 8259 writes it: itself, a two-character escape, or a
      `\u` escape. */
  datatype StrChar = Plain(c: char) | Escaped(c: char) | Unicode(hex: string)

  /** A JSON text with its layout: `Spaced` puts white space around a value, `gap` is the white space behind
      an opening bracket. */
  datatype Json =
    | Atom(text: string)
    | Str(chars: seq<StrChar>)
    | Arr(gap: string, items: seq<Json>)
    | Obj(gap: string, members: seq<Member>)
    | Spaced(before: string, value: Json, after: string)

  datatype Member = Member(before: string, key: seq<StrChar>, between: string, value: Json)

  predicate IsQuiet(s: string) {
    forall i :: 0 <= i < |s| ==> s[i] != '"' && s[i] != '[' && s[i] != ']'
  }

  predicate IsStrChar(x: StrChar) {
    match x
    case Plain(c) => c != '"' && c != '\\'
    case Escaped(c) => true
    case Unicode(hex) => |hex| == 4 && forall i :: 0 <= i < 4 ==> hex[i] != '"' && hex[i] != '\\'
  }

  predicate IsString(chars: seq<StrChar>) {
    forall i :: 0 <= i < |chars| ==> IsStrChar(chars[i])
  }

  /** Numbers, literals and white space hold no quotes and brackets, and strings are written with escapes. */
  predicate IsJson(j: Json)
    decreases j, 0
  {
    match j
    case Atom(text) => IsQuiet(text)
    case Str(chars) => IsString(chars)
    case Arr(gap, items) => IsQuiet(gap) && AreJson(items)
    case Obj(gap, members) => IsQuiet(gap) && AreMembers(members)
    case Spaced(before, value, after) => IsQuiet(before) && IsJson(value) && IsQuiet(after)
  }

  predicate AreJson(items: seq<Json>)
    decreases items, 1
  {
    items == [] || (IsJson(items[0]) && AreJson(items[1..]))
  }

  predicate AreMembers(members: seq<Member>)
    decreases members, 1
  {
    members == [] || (IsMember(members[0]) && AreMembers(members[1..]))
  }

  predicate IsMember(m: Member)
    decreases m, 1
  {
    IsQuiet(m.before) && IsString(m.key) && IsQuiet(m.between) && IsJson(m.value)
  }

  function PrintChar(x: StrChar): string {
    match x
    case Plain(c) => [c]
    case Escaped(c) => ['\\', c]
    case Unicode(hex) => "\\u" + hex
  }

  function PrintChars(chars: seq<StrChar>): string {
    if chars == [] then "" else PrintChar(chars[0]) + PrintChars(chars[1..])
  }

  function PrintString(chars: seq<StrChar>): string {
    "\"" + PrintChars(chars) + "\""
  }

  function Print(j: Json): string
    decreases j, 0
  {
    match j
    case Atom(text) => text
    case Str(chars) => PrintString(chars)
    case Arr(gap, items) => "[" + (gap + PrintItems(items)) + "]"
    case Obj(gap, members) => "{" + (gap + PrintMembers(members)) + "}"
    case Spaced(before, value, after) => before + Print(value) + after
  }

  function PrintItems(items: seq<Json>): string
    decreases items, 1
  {
    if items == [] then "" else Print(items[0]) + ((if |items| == 1 then "" else ",") + PrintItems(items[1..]))
  }

  function PrintMember(m: Member): string
    decreases m, 1
  {
    m.before + PrintString(m.key) + (m.between + ":" + Print(m.value))
  }

  function PrintMembers(members: seq<Member>): string
    decreases members, 1
  {
    if members == [] then ""
    else PrintMember(members[0]) + ((if |members| == 1 then "" else ",") + PrintMembers(members[1..]))
  }

  /** Items are separated by commas, and so are members; characters are written one after the other. */
  lemma PrintedInTurn(x: Json, items: seq<Json>, m: Member, members: seq<Member>, c: StrChar, chars: seq<StrChar>)
    ensures PrintItems([]) == "" && PrintMembers([]) == "" && PrintChars([]) == ""
    ensures PrintItems([x] + items) == if items == [] then Print(x) else Print(x) + ("," + PrintItems(items))
    ensures PrintMembers([m] + members)
            == if members == [] then PrintMember(m) else PrintMember(m) + ("," + PrintMembers(members))
    ensures PrintChars([c] + chars) == PrintChar(c) + PrintChars(chars)
  {
    assert ([x] + items)[1..] == items && ([m] + members)[1..] == members && ([c] + chars)[1..] == chars;
    assert Print(x) + "" == Print(x) && PrintMember(m) + "" == PrintMember(m);
  }

  // ----- Reading printed JSON back -----

  /** Reading `p` inside a bracket leaves the state as it was and never ends the search. */
  predicate PassesOver(st: Scan, p: string) {
    NoClose(st, p) && After(st, p) == st
  }

  predicate Inside(st: Scan) {
    st.depth >= 1 && !st.inString && !st.escape
  }

  lemma PassesOverBoth(st: Scan, p: string, q: string)
    requires PassesOver(st, p) && PassesOver(st, q)
    ensures PassesOver(st, p + q)
  {
    ReadConcat(st, p, q);
  }

  lemma {:induction false} QuietPasses(st: Scan, s: string)
    requires !st.inString && IsQuiet(s)
    ensures PassesOver(st, s)
  {
    if s == "" {
    } else {
      QuietPasses(st, s[1..]);
    }
  }

  /** Inside a string every printed character, escaped or not, leaves the state as it was. */
  lemma CharPasses(st: Scan, x: StrChar)
    requires st.inString && !st.escape && IsStrChar(x)
    ensures PassesOver(st, PrintChar(x))
  {
    var escaping := st.(escape := true);
    OneChar(st, '\\');
    match x
    case Plain(c) =>
      OneChar(st, c);
    case Escaped(c) =>
      OneChar(escaping, c);
      ReadConcat(st, ['\\'], [c]);
      assert PrintChar(x) == ['\\'] + [c];
    case Unicode(hex) =>
      OneChar(escaping, 'u');
      ReadConcat(st, ['\\'], ['u']);
      PlainTextPasses(st, hex);
      ReadConcat(st, ['\\'] + ['u'], hex);
      assert PrintChar(x) == ['\\'] + ['u'] + hex;
  }

  lemma {:induction false} PlainTextPasses(st: Scan, s: string)
    requires st.inString && !st.escape && forall i :: 0 <= i < |s| ==> s[i] != '"' && s[i] != '\\'
    ensures PassesOver(st, s)
  {
    if s == "" {
    } else {
      PlainTextPasses(st, s[1..]);
    }
  }

  lemma {:induction false} CharsPass(st: Scan, chars: seq<StrChar>)
    requires st.inString && !st.escape && IsString(chars)
    ensures PassesOver(st, PrintChars(chars))
  {
    if chars == [] {
    } else {
      CharPasses(st, chars[0]);
      CharsPass(st, chars[1..]);
      PassesOverBoth(st, PrintChar(chars[0]), PrintChars(chars[1..]));
    }
  }

  lemma OneChar(st: Scan, c: char)
    ensures After(st, [c]) == Step(st, c, '[', ']')
    ensures NoClose(st, [c]) <==> !Closes(st, c, '[', ']')
  {
    assert [c][1..] == "";
  }

  lemma StringPasses(st: Scan, chars: seq<StrChar>)
    requires Inside(st) && IsString(chars)
    ensures PassesOver(st, PrintString(chars))
  {
    var inner := st.(inString := true);
    CharsPass(inner, chars);
    OneChar(st, '"');
    OneChar(inner, '"');
    ReadConcat(st, "\"", PrintChars(chars));
    ReadConcat(st, "\"" + PrintChars(chars), "\"");
  }

  /** A bracket pair around text that passes passes too. */
  lemma BracketPasses(st: Scan, body: string)
    requires Inside(st) && PassesOver(st.(depth := st.depth + 1), body)
    ensures PassesOver(st, "[" + body + "]")
  {
    var inner := st.(depth := st.depth + 1);
    OneChar(st, '[');
    OneChar(inner, ']');
    ReadConcat(st, "[", body);
    ReadConcat(st, "[" + body, "]");
  }

  /** Every printed value passes inside a bracket, whatever brackets and quotes it holds. */
  lemma {:induction false} ValuePasses(st: Scan, j: Json)
    requires Inside(st) && IsJson(j)
    ensures PassesOver(st, Print(j))
    decreases j, 0
  {
    match j
    case Atom(text) =>
      QuietPasses(st, text);
    case Str(chars) =>
      StringPasses(st, chars);
    case Arr(gap, items) =>
      var inner := st.(depth := st.depth + 1);
      QuietPasses(inner, gap);
      ItemsPass(inner, items);
      PassesOverBoth(inner, gap, PrintItems(items));
      BracketPasses(st, gap + PrintItems(items));
    case Obj(gap, members) =>
      QuietPasses(st, "{");
      QuietPasses(st, gap);
      MembersPass(st, members);
      QuietPasses(st, "}");
      PassesOverBoth(st, gap, PrintMembers(members));
      PassesOverBoth(st, "{", gap + PrintMembers(members));
      PassesOverBoth(st, "{" + (gap + PrintMembers(members)), "}");
    case Spaced(before, value, after) =>
      QuietPasses(st, before);
      ValuePasses(st, value);
      QuietPasses(st, after);
      PassesOverBoth(st, before, Print(value));
      PassesOverBoth(st, before + Print(value), after);
  }

  lemma {:induction false} ItemsPass(st: Scan, items: seq<Json>)
    requires Inside(st) && AreJson(items)
    ensures PassesOver(st, PrintItems(items))
    decreases items, 1
  {
    if items == [] {
    } else {
      var comma := if |items| == 1 then "" else ",";
      ValuePasses(st, items[0]);
      QuietPasses(st, comma);
      ItemsPass(st, items[1..]);
      PassesOverBoth(st, comma, PrintItems(items[1..]));
      PassesOverBoth(st, Print(items[0]), comma + PrintItems(items[1..]));
    }
  }

  lemma {:induction false} MemberPasses(st: Scan, m: Member)
    requires Inside(st) && IsMember(m)
    ensures PassesOver(st, PrintMember(m))
    decreases m, 1
  {
    QuietPasses(st, m.before);
    StringPasses(st, m.key);
    QuietPasses(st, m.between);
    QuietPasses(st, ":");
    ValuePasses(st, m.value);
    PassesOverBoth(st, m.before, PrintString(m.key));
    PassesOverBoth(st, m.between, ":");
    PassesOverBoth(st, m.between + ":", Print(m.value));
    PassesOverBoth(st, m.before + PrintString(m.key), m.between + ":" + Print(m.value));
  }

  lemma {:induction false} MembersPass(st: Scan, members: seq<Member>)
    requires Inside(st) && AreMembers(members)
    ensures PassesOver(st, PrintMembers(members))
    decreases members, 1
  {
    if members == [] {
    } else {
      var comma := if |members| == 1 then "" else ",";
      MemberPasses(st, members[0]);
      QuietPasses(st, comma);
      MembersPass(st, members[1..]);
      PassesOverBoth(st, comma, PrintMembers(members[1..]));
      PassesOverBoth(st, PrintMember(members[0]), comma + PrintMembers(members[1..]));
    }
  }

  /** The matcher undoes the printer: for every JSON array and any text behind it, the search ends exactly
      at the end of the printed array. */
  lemma FindsEndOfPrintedArray(gap: string, items: seq<Json>, rest: string)
    requires IsQuiet(gap) && AreJson(items)
    ensures Seek(Print(Arr(gap, items)) + rest, START, '[', ']') == Some(|Print(Arr(gap, items))|)
  {
    var inner := Scan(1, false, false);
    var body := gap + PrintItems(items);
    QuietPasses(inner, gap);
    ItemsPass(inner, items);
    PassesOverBoth(inner, gap, PrintItems(items));
    OneChar(START, '[');
    ReadConcat(START, "[", body);
    assert Print(Arr(gap, items)) + rest == ("[" + body) + ("]" + rest);
    SeekPast("[" + body, "]" + rest, START);
  }

  // ----- Cutting the array out of a page -----

  const NEEDLE := "days: ["

  predicate OccursAt(hay: string, needle: string, i: nat) {
    i + |needle| <= |hay| && hay[i..i + |needle|] == needle
  }

  /** The first occurrence of `needle` from `i` on. */
  function FindFrom(hay: string, needle: string, i: nat): (at: Option<nat>)
    ensures at.Some? ==> i <= at.value && OccursAt(hay, needle, at.value)
    ensures forall j: nat :: i <= j && OccursAt(hay, needle, j) ==> at.Some? && at.value <= j
    decreases |hay| - i
  {
    if OccursAt(hay, needle, i) then Some(i) else if i >= |hay| then None else FindFrom(hay, needle, i + 1)
  }

  lemma FindsFirst(hay: string, needle: string, n: nat)
    requires OccursAt(hay, needle, n) && forall i: nat :: i < n ==> !OccursAt(hay, needle, i)
    ensures FindFrom(hay, needle, 0) == Some(n)
  {
  }

  /** The text handed to the JSON parser; None where the program raises before that. */
  function DaysPayload(html: string): Option<string> {
    var start := FindFrom(html, NEEDLE, 0);
    if start.None? then None
    else
      var end := Bump(start.value + 5, Seek(html[start.value + 5..], START, '[', ']'));
      if end.None? || end.value < start.value + 6 || end.value > |html| then None
      else Some(html[start.value + 6..end.value])
  }

  method ExtractDays(html: string) returns (blob: Option<string>)
    ensures blob == DaysPayload(html)
  {
    var start := FindFrom(html, NEEDLE, 0);
    if start.None? {
      return None;
    }
    var end := FindMatchingBracket(html, start.value + |"days: "| - 1, '[', ']');
    if end.None? {
      return None;
    }
    SeekFindsFirst(html[start.value + 5..], START);
    blob := Some(html[start.value + |"days: "|..end.value]);
  }

  /** Where the printed text stands in the page. */
  lemma PlaceInPage(html: string, pre: string, printed: string, post: string)
    requires printed != "" && printed[0] == '[' && html == pre + ("days: " + (printed + post))
    ensures OccursAt(html, NEEDLE, |pre|)
    ensures html[|pre| + 5..] == " " + (printed + post)
    ensures |pre| + 6 + |printed| <= |html| && html[|pre| + 6..|pre| + 6 + |printed|] == printed
  {
    assert html[|pre|..|pre| + 7] == NEEDLE;
  }

  /** The search that begins at the space before a printed array ends at the array's end. */
  lemma FindsEndBehindSpace(gap: string, items: seq<Json>, post: string)
    requires IsQuiet(gap) && AreJson(items)
    ensures Seek(" " + (Print(Arr(gap, items)) + post), START, '[', ']') == Some(1 + |Print(Arr(gap, items))|)
  {
    FindsEndOfPrintedArray(gap, items, post);
    QuietPasses(START, " ");
    SeekPast(" ", Print(Arr(gap, items)) + post, START);
  }

  /** From a page whose first `days: [` begins a printed array, exactly that array is cut out. */
  lemma ExtractsPrintedArray(html: string, pre: string, gap: string, items: seq<Json>, post: string)
    requires IsQuiet(gap) && AreJson(items)
    requires html == pre + ("days: " + (Print(Arr(gap, items)) + post))
    requires forall i: nat :: i < |pre| ==> !OccursAt(html, NEEDLE, i)
    ensures DaysPayload(html) == Some(Print(Arr(gap, items)))
  {
    PlaceInPage(html, pre, Print(Arr(gap, items)), post);
    FindsFirst(html, NEEDLE, |pre|);
    FindsEndBehindSpace(gap, items, post);
  }
}
