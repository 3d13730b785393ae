/** The string helpers every component normalises its keys with: trimming Unicode white space and
    mapping case character by character. */
module Text {

  datatype Option<+T> = None | Some(value: T)

  /** White space as Go's `unicode.IsSpace` defines it. */
  predicate IsSpace(c: char) {
    || '\t' <= c <= '\r' || c == ' ' || c == '\U{85}' || c == '\U{A0}' || c == '\U{1680}'
    || '\U{2000}' <= c <= '\U{200A}' || c == '\U{2028}' || c == '\U{2029}' || c == '\U{202F}'
    || c == '\U{205F}' || c == '\U{3000}'
  }

  /** Lower case of one character. Besides A-Z, the Kelvin sign and the dotted capital I are the only
      characters whose lower case is an ASCII letter. */
  function LowerChar(c: char): char {
    if 'A' <= c <= 'Z' then c + 32 as char
    else if c == '\U{212A}' then 'k'
    else if c == '\U{130}' then 'i'
    else c
  }

  /** Upper case of one character; the dotless i and the long s are the only non-ASCII characters
      whose upper case is an ASCII letter. */
  function UpperChar(c: char): char {
    if 'a' <= c <= 'z' then c - 32 as char
    else if c == '\U{131}' then 'I'
    else if c == '\U{17F}' then 'S'
    else c
  }

  function MapChars(f: char -> char, s: string): (r: string)
    ensures |r| == |s|
    ensures forall i :: 0 <= i < |s| ==> r[i] == f(s[i])
  {
    seq(|s|, i requires 0 <= i < |s| => f(s[i]))
  }

  function Lower(s: string): string {
    MapChars(LowerChar, s)
  }

  function Upper(s: string): string {
    MapChars(UpperChar, s)
  }

  function TrimLeft(s: string): string {
    if s != "" && IsSpace(s[0]) then TrimLeft(s[1..]) else s
  }

  function TrimRight(s: string): string {
    if s != "" && IsSpace(s[|s| - 1]) then TrimRight(s[..|s| - 1]) else s
  }

  function Trim(s: string): string {
    TrimRight(TrimLeft(s))
  }

  function NormalizeExchange(exchange: string): string {
    Lower(Trim(exchange))
  }

  function NormalizeSymbol(symbol: string): string {
    Upper(Trim(symbol))
  }

  /** Neither end of the string is white space. */
  predicate IsTrimmed(s: string) {
    s != "" ==> !IsSpace(s[0]) && !IsSpace(s[|s| - 1])
  }

  lemma TrimLeftStops(s: string)
    ensures TrimLeft(s) != "" ==> !IsSpace(TrimLeft(s)[0])
  {
  }

  lemma TrimRightStops(s: string)
    ensures TrimRight(s) <= s
    ensures TrimRight(s) != "" ==> !IsSpace(TrimRight(s)[|TrimRight(s)| - 1])
    ensures s != "" && !IsSpace(s[0]) ==> TrimRight(s) != ""
  {
  }

  lemma TrimIsTrimmed(s: string)
    ensures IsTrimmed(Trim(s))
  {
    TrimLeftStops(s);
    TrimRightStops(TrimLeft(s));
  }

  lemma TrimIdempotent(s: string)
    ensures Trim(Trim(s)) == Trim(s)
  {
    TrimIsTrimmed(s);
  }

  lemma {:induction false} TrimLeftOfMap(f: char -> char, s: string)
    requires forall c :: IsSpace(f(c)) <==> IsSpace(c)
    ensures TrimLeft(MapChars(f, s)) == MapChars(f, TrimLeft(s))
  {
    if s != "" && IsSpace(s[0]) {
      TrimLeftOfMap(f, s[1..]);
      assert MapChars(f, s)[1..] == MapChars(f, s[1..]);
    }
  }

  lemma {:induction false} TrimRightOfMap(f: char -> char, s: string)
    requires forall c :: IsSpace(f(c)) <==> IsSpace(c)
    ensures TrimRight(MapChars(f, s)) == MapChars(f, TrimRight(s))
  {
    if s != "" && IsSpace(s[|s| - 1]) {
      TrimRightOfMap(f, s[..|s| - 1]);
      assert MapChars(f, s)[..|s| - 1] == MapChars(f, s[..|s| - 1]);
    }
  }

  /** Trimming and a case mapping commute. */
  lemma TrimOfMap(f: char -> char, s: string)
    requires forall c :: IsSpace(f(c)) <==> IsSpace(c)
    ensures Trim(MapChars(f, s)) == MapChars(f, Trim(s))
  {
    TrimLeftOfMap(f, s);
    TrimRightOfMap(f, TrimLeft(s));
  }

  lemma LowerIdempotent(s: string)
    ensures Lower(Lower(s)) == Lower(s)
  {
  }

  lemma UpperIdempotent(s: string)
    ensures Upper(Upper(s)) == Upper(s)
  {
  }

  lemma NormalizeExchangeIdempotent(e: string)
    ensures NormalizeExchange(NormalizeExchange(e)) == NormalizeExchange(e)
  {
    TrimOfMap(LowerChar, Trim(e));
    TrimIdempotent(e);
    LowerIdempotent(Trim(e));
  }

  lemma NormalizeSymbolIdempotent(s: string)
    ensures NormalizeSymbol(NormalizeSymbol(s)) == NormalizeSymbol(s)
  {
    TrimOfMap(UpperChar, Trim(s));
    TrimIdempotent(s);
    UpperIdempotent(Trim(s));
  }

  /** Byte order of strings. */
  predicate Precedes(a: string, b: string) {
    b != "" && (a == "" || a[0] < b[0] || (a[0] == b[0] && Precedes(a[1..], b[1..])))
  }

  lemma {:induction false} PrecedesTotal(a: string, b: string)
    ensures a != b ==> (Precedes(a, b) <==> !Precedes(b, a))
    ensures !Precedes(a, a)
  {
    if a != "" && b != "" {
      PrecedesTotal(a[1..], b[1..]);
      assert a == [a[0]] + a[1..] && b == [b[0]] + b[1..];
    }
    if a != "" {
      PrecedesTotal(a[1..], a[1..]);
    }
  }

  lemma {:induction false} PrecedesTransitive(a: string, b: string, c: string)
    requires Precedes(a, b) && Precedes(b, c)
    ensures Precedes(a, c)
  {
    if a != "" && a[0] == b[0] == c[0] {
      PrecedesTransitive(a[1..], b[1..], c[1..]);
    }
  }

  predicate ColonFree(s: string) {
    ':' !in s
  }

  /** The last colon separates. */
  lemma SplitAtLastColon(a: string, e: string, b: string, f: string)
    requires a + ":" + e == b + ":" + f && ColonFree(e) && ColonFree(f)
    ensures a == b && e == f
  {
    var s, t := a + ":" + e, b + ":" + f;
    assert s[|a|] == ':' && t[|b|] == ':';
    assert e == s[|a| + 1..] && f == t[|b| + 1..];
    assert a == s[..|a|] && b == t[..|b|];
  }

  // ----- What trimming and the case mappings are -----

  predicate AllSpace(s: string) {
    forall i :: 0 <= i < |s| ==> IsSpace(s[i])
  }

  lemma {:induction false} TrimLeftCuts(s: string) returns (lead: string)
    ensures s == lead + TrimLeft(s) && AllSpace(lead)
  {
    if s != "" && IsSpace(s[0]) {
      lead := TrimLeftCuts(s[1..]);
      lead := [s[0]] + lead;
    } else {
      lead := "";
    }
  }

  lemma {:induction false} TrimRightCuts(s: string) returns (tail: string)
    ensures s == TrimRight(s) + tail && AllSpace(tail)
  {
    if s != "" && IsSpace(s[|s| - 1]) {
      var n := |s| - 1;
      tail := TrimRightCuts(s[..n]);
      tail := tail + [s[n]];
    } else {
      tail := "";
    }
  }

  /** Trimming cuts white space off both ends and nothing else. */
  lemma TrimCuts(s: string) returns (lead: string, tail: string)
    ensures s == lead + Trim(s) + tail && AllSpace(lead) && AllSpace(tail) && IsTrimmed(Trim(s))
  {
    lead := TrimLeftCuts(s);
    tail := TrimRightCuts(TrimLeft(s));
    TrimIsTrimmed(s);
  }

  /** Among the ASCII characters, white space is tab to carriage return and the blank; the case mappings exchange
      the letters at the same place in the alphabet and leave the other characters alone. */
  lemma AsciiCharacters(c: char)
    requires c < '\U{80}'
    ensures IsSpace(c) <==> c == ' ' || c == '\t' || c == '\n' || c == '\U{0B}' || c == '\U{0C}' || c == '\r'
    ensures 'A' <= c <= 'Z' ==> 'a' <= LowerChar(c) <= 'z' && LowerChar(c) - 'a' == c - 'A' && UpperChar(c) == c
    ensures 'a' <= c <= 'z' ==> 'A' <= UpperChar(c) <= 'Z' && UpperChar(c) - 'A' == c - 'a' && LowerChar(c) == c
    ensures !('A' <= c <= 'Z') && !('a' <= c <= 'z') ==> LowerChar(c) == c == UpperChar(c)
  {
  }
}
