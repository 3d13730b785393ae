/** Text normalisation for news matching (engine/news/ai/rules.go), and the token lists it stands for. */
module Tokens {
  import opened Text

  predicate IsWordChar(c: char) {
    'a' <= c <= 'z' || '0' <= c <= '9'
  }

  predicate IsNonWord(c: char) {
    !IsWordChar(c)
  }

  /** The class `\s` of Go's regular expressions. */
  predicate IsBlank(c: char) {
    c == '\t' || c == '\n' || c == '\U{0C}' || c == '\r' || c == ' '
  }

  function DropRun(member: char -> bool, s: string): (r: string)
    ensures |r| <= |s|
    ensures s != "" && member(s[0]) ==> |r| < |s|
    ensures r != "" ==> !member(r[0])
  {
    if s != "" && member(s[0]) then DropRun(member, s[1..]) else s
  }

  /** Replaces every maximal run of members by one space. */
  function ReplaceRuns(member: char -> bool, s: string): string
    decreases |s|
  {
    if s == "" then ""
    else if member(s[0]) then " " + ReplaceRuns(member, DropRun(member, s))
    else [s[0]] + ReplaceRuns(member, s[1..])
  }

  function NormalizedText(raw: string): string {
    Trim(ReplaceRuns(IsBlank, ReplaceRuns(IsNonWord, Lower(raw))))
  }

  // ----- Token lists -----

  function TakeRun(s: string): (w: string)
    ensures w <= s
    ensures forall c :: c in w ==> IsWordChar(c)
    ensures s != "" && IsWordChar(s[0]) ==> w != ""
    ensures s[|w|..] != "" ==> !IsWordChar(s[|w|])
  {
    if s != "" && IsWordChar(s[0]) then [s[0]] + TakeRun(s[1..]) else ""
  }

  /** The maximal runs of word characters of `s`, in order. */
  function Words(s: string): (ws: seq<string>)
    ensures IsWordList(ws)
    decreases |s|
  {
    if s == "" then []
    else if !IsWordChar(s[0]) then Words(s[1..])
    else var w := TakeRun(s); [w] + Words(s[|w|..])
  }

  /** The lower-case tokens of a text. */
  function TokensOf(raw: string): (ws: seq<string>)
    ensures IsWordList(ws)
  {
    Words(Lower(raw))
  }

  ghost predicate IsWord(w: string) {
    w != "" && forall i :: 0 <= i < |w| ==> IsWordChar(w[i])
  }

  ghost predicate IsWordList(ws: seq<string>) {
    forall i :: 0 <= i < |ws| ==> IsWord(ws[i])
  }

  function Join(ws: seq<string>): string {
    if |ws| == 0 then "" else if |ws| == 1 then ws[0] else ws[0] + " " + Join(ws[1..])
  }

  // ----- Normalising is joining the tokens with single spaces -----

  lemma {:induction false} CollapseCopiesWord(s: string)
    ensures ReplaceRuns(IsNonWord, s) == TakeRun(s) + ReplaceRuns(IsNonWord, s[|TakeRun(s)|..])
  {
    if s != "" && IsWordChar(s[0]) {
      CollapseCopiesWord(s[1..]);
      assert s[|TakeRun(s)|..] == s[1..][|TakeRun(s[1..])|..];
    }
  }

  lemma {:induction false} WordsOfRest(s: string)
    ensures Words(s) == Words(DropRun(IsNonWord, s))
  {
    if s != "" && !IsWordChar(s[0]) {
      WordsOfRest(s[1..]);
    }
  }

  /** `t` is the words `ws` joined, perhaps with one space behind. */
  ghost predicate IsJoined(t: string, ws: seq<string>) {
    t == Join(ws) || t == Join(ws) + " "
  }

  lemma JoinedStep(w: string, t: string, ws: seq<string>)
    requires ws != [] && IsJoined(t, ws)
    ensures IsJoined(w + (" " + t), [w] + ws)
  {
    assert ([w] + ws)[1..] == ws;
    assert Join([w] + ws) == w + " " + Join(ws);
    assert w + (" " + t) == w + " " + t;
    assert w + " " + (Join(ws) + " ") == w + " " + Join(ws) + " ";
  }

  /** A text that begins with a word collapses to its joined words. */
  lemma {:induction false} CollapsedFromWord(s: string)
    requires s != "" && IsWordChar(s[0])
    ensures Words(s) != []
    ensures IsJoined(ReplaceRuns(IsNonWord, s), Words(s))
    decreases |s|
  {
    var w := TakeRun(s);
    var rest := s[|w|..];
    CollapseCopiesWord(s);
    if rest == "" {
      assert w + ReplaceRuns(IsNonWord, rest) == w;
    } else {
      var next := DropRun(IsNonWord, rest);
      WordsOfRest(rest);
      if next == "" {
        assert ReplaceRuns(IsNonWord, rest) == " " + ReplaceRuns(IsNonWord, next) == " ";
      } else {
        CollapsedFromWord(next);
        JoinedStep(w, ReplaceRuns(IsNonWord, next), Words(next));
      }
    }
  }

  /** Any text collapses to its joined words, perhaps with one space on either side. */
  lemma Collapsed(s: string) returns (lead: string, tail: string)
    ensures lead in {"", " "} && tail in {"", " "}
    ensures ReplaceRuns(IsNonWord, s) == lead + Join(Words(s)) + tail
    ensures Words(s) == [] ==> tail == ""
  {
    lead, tail := "", "";
    var rest := DropRun(IsNonWord, s);
    WordsOfRest(s);
    if rest != s {
      lead := " ";
    }
    if rest != "" {
      CollapsedFromWord(rest);
      if ReplaceRuns(IsNonWord, rest) != Join(Words(rest)) {
        tail := " ";
      }
    }
  }

  /** Words separated by single spaces: nothing is left for the second replacement to do. */
  ghost predicate IsSpaced(t: string) {
    && (forall i :: 0 <= i < |t| ==> IsWordChar(t[i]) || t[i] == ' ')
    && (forall i :: 0 <= i < |t| - 1 ==> t[i] != ' ' || t[i + 1] != ' ')
  }

  lemma {:induction false} CollapsedIsSpaced(s: string)
    ensures IsSpaced(ReplaceRuns(IsNonWord, s))
    ensures s != "" && IsWordChar(s[0]) ==> ReplaceRuns(IsNonWord, s) != "" && ReplaceRuns(IsNonWord, s)[0] == s[0]
    decreases |s|
  {
    if s == "" {
    } else {
      CollapsedIsSpaced(if IsWordChar(s[0]) then s[1..] else DropRun(IsNonWord, s));
    }
  }

  lemma {:induction false} SpacedIsStable(t: string)
    requires IsSpaced(t)
    ensures ReplaceRuns(IsBlank, t) == t
  {
    if t == "" {
    } else {
      SpacedIsStable(t[1..]);
      if t[0] == ' ' {
        assert DropRun(IsBlank, t) == t[1..];
      }
    }
  }

  lemma {:induction false} JoinEnds(ws: seq<string>)
    requires IsWordList(ws) && ws != []
    ensures Join(ws) != "" && IsWordChar(Join(ws)[0]) && IsWordChar(Join(ws)[|Join(ws)| - 1])
  {
    if |ws| > 1 {
      JoinEnds(ws[1..]);
    }
  }

  lemma TrimPadded(lead: string, body: string, tail: string)
    requires lead in {"", " "} && tail in {"", " "}
    requires body != "" && !IsSpace(body[0]) && !IsSpace(body[|body| - 1])
    ensures Trim(lead + body + tail) == body
  {
    var inner := body + tail;
    assert TrimLeft(inner) == inner;
    assert TrimLeft(lead + inner) == inner by {
      assert (lead + inner)[|lead|..] == inner;
    }
    assert lead + body + tail == lead + inner;
    assert TrimRight(body) == body;
    assert TrimRight(inner) == body by {
      assert inner[..|body|] == body;
    }
  }

  /** Normalised text is the token list joined by single spaces. */
  lemma {:induction false} NormalizedIsJoin(raw: string)
    ensures NormalizedText(raw) == Join(TokensOf(raw))
  {
    var s := Lower(raw);
    var lead, tail := Collapsed(s);
    CollapsedIsSpaced(s);
    SpacedIsStable(ReplaceRuns(IsNonWord, s));
    if Words(s) == [] {
      assert lead + Join(Words(s)) + tail == lead;
    } else {
      JoinEnds(Words(s));
      TrimPadded(lead, Join(Words(s)), tail);
    }
  }

  // ----- Tokens of joined and of concatenated texts -----

  lemma {:induction false} RunBeforeSpace(w: string, rest: string)
    requires forall i :: 0 <= i < |w| ==> IsWordChar(w[i])
    requires rest != "" ==> !IsWordChar(rest[0])
    ensures TakeRun(w + rest) == w
  {
    if w == "" {
    } else {
      RunBeforeSpace(w[1..], rest);
      assert (w + rest)[1..] == w[1..] + rest;
    }
  }

  lemma WordsOfRun(w: string, rest: string)
    requires IsWord(w) && (rest != "" ==> !IsWordChar(rest[0]))
    ensures Words(w + rest) == [w] + Words(rest)
  {
    RunBeforeSpace(w, rest);
    assert (w + rest)[|w|..] == rest;
    assert (w + rest)[0] == w[0];
  }

  /** A word and a space in front of a text add one word to its words. */
  lemma WordsOfWordAndSpace(w: string, tail: string)
    requires IsWord(w)
    ensures Words(w + (" " + tail)) == [w] + Words(tail)
  {
    WordsOfRun(w, " " + tail);
    assert (" " + tail)[1..] == tail;
  }

  lemma WordsOfWord(w: string)
    requires IsWord(w)
    ensures Words(w) == [w]
  {
    WordsOfRun(w, "");
    assert w + "" == w;
  }

  lemma JoinMore(ws: seq<string>)
    requires |ws| > 1
    ensures Join(ws) == ws[0] + (" " + Join(ws[1..]))
  {
  }

  lemma {:induction false} WordsOfJoin(ws: seq<string>)
    requires IsWordList(ws)
    ensures Words(Join(ws)) == ws
  {
    if |ws| == 0 {
    } else if |ws| == 1 {
      WordsOfWord(ws[0]);
    } else {
      WordsOfJoin(ws[1..]);
      JoinMore(ws);
      WordsOfWordAndSpace(ws[0], Join(ws[1..]));
    }
  }

  lemma {:induction false} JoinIsLower(ws: seq<string>)
    requires IsWordList(ws)
    ensures Lower(Join(ws)) == Join(ws)
    ensures forall i :: 0 <= i < |Join(ws)| ==> IsWordChar(Join(ws)[i]) || Join(ws)[i] == ' '
  {
    if |ws| > 1 {
      JoinIsLower(ws[1..]);
    }
  }

  lemma TokensOfJoin(ws: seq<string>)
    requires IsWordList(ws)
    ensures TokensOf(Join(ws)) == ws
  {
    JoinIsLower(ws);
    WordsOfJoin(ws);
  }

  lemma TokensOfNormalized(raw: string)
    ensures TokensOf(NormalizedText(raw)) == TokensOf(raw)
  {
    NormalizedIsJoin(raw);
    TokensOfJoin(TokensOf(raw));
  }

  lemma NormalizedIdempotent(raw: string)
    ensures NormalizedText(NormalizedText(raw)) == NormalizedText(raw)
  {
    TokensOfNormalized(raw);
    NormalizedIsJoin(raw);
    NormalizedIsJoin(NormalizedText(raw));
  }

  /** A character that is no part of a word splits the words of a text. */
  lemma {:induction false} WordsAcross(a: string, sep: char, b: string)
    requires !IsWordChar(sep)
    ensures Words(a + ([sep] + b)) == Words(a) + Words(b)
    decreases |a|
  {
    var s, tail := a + ([sep] + b), [sep] + b;
    if a == "" {
      assert s == tail && s[1..] == b;
    } else if !IsWordChar(a[0]) {
      WordsAcross(a[1..], sep, b);
      assert s[1..] == a[1..] + tail;
    } else {
      var w := TakeRun(a);
      var rest := a[|w|..];
      WordsAcross(rest, sep, b);
      assert a == w + rest;
      FirstWordAcross(w, rest, sep, b);
    }
  }

  /** The first word of a text stays its first word when such a character and more follow. */
  lemma {:induction false} FirstWordAcross(w: string, rest: string, sep: char, b: string)
    requires IsWord(w) && (rest != "" ==> !IsWordChar(rest[0])) && !IsWordChar(sep)
    requires Words(rest + ([sep] + b)) == Words(rest) + Words(b)
    ensures Words(w + rest + ([sep] + b)) == Words(w + rest) + Words(b)
  {
    var tail := [sep] + b;
    WordsOfRun(w, rest);
    WordsOfRun(w, rest + tail);
    ConcatAssociates(w, rest, tail);
    ConcatAssociates([w], Words(rest), Words(b));
  }

  lemma ConcatAssociates<T>(a: seq<T>, b: seq<T>, c: seq<T>)
    ensures a + (b + c) == a + b + c
  {
  }

  /** The tokens of a title followed by a body are those of the title, then those of the body. */
  lemma TokensAcrossSpace(title: string, body: string)
    ensures TokensOf(title + " " + body) == TokensOf(title) + TokensOf(body)
  {
    assert Lower(title + " " + body) == Lower(title) + (" " + Lower(body));
    WordsAcross(Lower(title), ' ', Lower(body));
  }

  // ----- What the tokens are -----

  /** ASCII letters and digits, and the two other characters whose lower case is an ASCII letter. */
  predicate IsTokenChar(c: char) {
    'a' <= c <= 'z' || 'A' <= c <= 'Z' || '0' <= c <= '9' || c == '\U{212A}' || c == '\U{130}'
  }

  /** Any other character splits a text into the tokens before and behind it. */
  lemma TokensAcross(a: string, sep: char, b: string)
    requires !IsTokenChar(sep)
    ensures TokensOf(a + [sep] + b) == TokensOf(a) + TokensOf(b)
  {
    assert Lower(a + [sep] + b) == Lower(a) + ([LowerChar(sep)] + Lower(b));
    WordsAcross(Lower(a), LowerChar(sep), Lower(b));
  }

  /** A text of letters and digits is one token, in lower case; the empty text has none. */
  lemma TokensOfOne(w: string)
    requires forall i :: 0 <= i < |w| ==> IsTokenChar(w[i])
    ensures TokensOf(w) == if w == "" then [] else [Lower(w)]
  {
    if w != "" {
      WordsOfWord(Lower(w));
    }
  }

  lemma {:induction false} SpacesHoldNoTokens(s: string)
    requires AllSpace(s)
    ensures TokensOf(s) == []
  {
    if s == "" {
      TokensOfOne("");
    } else {
      SpacesHoldNoTokens(s[1..]);
      TokensAcross("", s[0], s[1..]);
      TokensOfOne("");
      assert s == "" + [s[0]] + s[1..];
    }
  }

  /** White space at the ends holds no tokens. */
  lemma TokensOfTrimmed(s: string)
    ensures TokensOf(Trim(s)) == TokensOf(s)
  {
    var lead, tail := TrimCuts(s);
    TokensBehind(lead, Trim(s));
    TokensBefore(Trim(s), tail);
    if lead != "" {
      TokensBehind(lead, Trim(s) + tail);
    }
    assert s == lead + (Trim(s) + tail) && "" + (Trim(s) + tail) == Trim(s) + tail;
  }

  lemma TokensBehind(lead: string, s: string)
    requires AllSpace(lead)
    ensures TokensOf(lead + s) == TokensOf(s)
  {
    if lead == "" {
      assert lead + s == s;
    } else {
      var n := |lead| - 1;
      SpacesHoldNoTokens(lead[..n]);
      TokensAcross(lead[..n], lead[n], s);
      assert lead + s == lead[..n] + [lead[n]] + s;
    }
  }

  lemma TokensBefore(s: string, tail: string)
    requires AllSpace(tail)
    ensures TokensOf(s + tail) == TokensOf(s)
  {
    if tail == "" {
      assert s + tail == s;
    } else {
      SpacesHoldNoTokens(tail[1..]);
      TokensAcross(s, tail[0], tail[1..]);
      assert s + tail == s + [tail[0]] + tail[1..];
    }
  }

  // ----- Containment of padded texts -----

  predicate Contains(hay: string, needle: string) {
    needle <= hay || (hay != "" && Contains(hay[1..], needle))
  }

  ghost predicate OccursAt(ws: seq<string>, vs: seq<string>, k: nat) {
    k + |vs| <= |ws| && ws[k..k + |vs|] == vs
  }

  /** `vs` occurs as a contiguous block of `ws`. */
  ghost predicate IsBlock(ws: seq<string>, vs: seq<string>) {
    exists k: nat :: OccursAt(ws, vs, k)
  }

  /** Each token behind a space, and a final space. */
  function Pad(ws: seq<string>): (p: string)
    ensures p != "" && p[0] == ' '
  {
    if ws == [] then " " else " " + ws[0] + Pad(ws[1..])
  }

  lemma {:induction false} PaddedJoin(ws: seq<string>)
    requires ws != []
    ensures " " + Join(ws) + " " == Pad(ws)
  {
    if |ws| > 1 {
      PaddedJoin(ws[1..]);
      assert " " + Join(ws) + " " == " " + ws[0] + (" " + Join(ws[1..]) + " ");
    } else {
      assert Pad(ws) == " " + ws[0] + Pad([]);
    }
  }

  lemma {:induction false} PadOfPrefix(vs: seq<string>, ws: seq<string>)
    requires vs <= ws
    ensures Pad(vs) <= Pad(ws)
  {
    if vs == [] {
    } else {
      PadOfPrefix(vs[1..], ws[1..]);
      assert Pad(vs) == " " + vs[0] + Pad(vs[1..]) && Pad(ws) == " " + ws[0] + Pad(ws[1..]);
    }
  }

  /** The first space of a word followed by a padded text is right behind the word. */
  lemma FirstSpace(w: string, q: string)
    requires IsWord(w) && q != "" && q[0] == ' '
    ensures (w + q)[|w|] == ' ' && forall i :: 0 <= i < |w| ==> (w + q)[i] != ' '
  {
  }

  /** Two words, each followed by a space, agree when one text begins with the other. */
  lemma WordPrefix(u: string, p: string, w: string, q: string)
    requires IsWord(u) && IsWord(w) && p != "" && p[0] == ' ' && q != "" && q[0] == ' '
    requires u + p <= w + q
    ensures u == w && p <= q
  {
    FirstSpace(u, p);
    FirstSpace(w, q);
    assert (w + q)[|u|] == (u + p)[|u|];
    assert (u + p)[|w|] == (w + q)[|w|];
    assert |u| == |w|;
    assert u == (u + p)[..|u|] == (w + q)[..|u|] == w;
    assert (u + p)[|u|..] == p && (w + q)[|u|..] == q;
  }

  lemma {:induction false} PrefixOfPad(vs: seq<string>, ws: seq<string>)
    requires IsWordList(vs) && IsWordList(ws) && Pad(vs) <= Pad(ws)
    ensures vs <= ws
  {
    if vs == [] {
    } else {
      assert Pad(vs)[1..] == vs[0] + Pad(vs[1..]);
      assert |Pad(ws)| >= |Pad(vs)| > 1;
      assert Pad(ws)[1..] == ws[0] + Pad(ws[1..]);
      WordPrefix(vs[0], Pad(vs[1..]), ws[0], Pad(ws[1..]));
      PrefixOfPad(vs[1..], ws[1..]);
    }
  }

  lemma ContainedIsNoLonger(hay: string, needle: string)
    requires Contains(hay, needle)
    ensures |needle| <= |hay|
  {
  }

  lemma {:induction false} ContainsInSuffix(x: string, p: string, n: string)
    requires Contains(p, n)
    ensures Contains(x + p, n)
  {
    if x == "" {
      assert x + p == p;
    } else {
      ContainsInSuffix(x[1..], p, n);
      assert (x + p)[1..] == x[1..] + p;
    }
  }

  lemma {:induction false} ContainsPastWord(w: string, p: string, n: string)
    requires (forall i :: 0 <= i < |w| ==> IsWordChar(w[i])) && n != "" && n[0] == ' '
    requires Contains(w + p, n)
    ensures Contains(p, n)
  {
    if w == "" {
      assert w + p == p;
    } else {
      assert (w + p)[1..] == w[1..] + p;
      ContainsPastWord(w[1..], p, n);
    }
  }

  lemma {:induction false} BlockIsContained(ws: seq<string>, vs: seq<string>, k: nat)
    requires OccursAt(ws, vs, k)
    ensures Contains(Pad(ws), Pad(vs))
  {
    if k == 0 {
      PadOfPrefix(vs, ws);
    } else {
      assert OccursAt(ws[1..], vs, k - 1);
      BlockIsContained(ws[1..], vs, k - 1);
      ContainsInSuffix(" " + ws[0], Pad(ws[1..]), Pad(vs));
    }
  }

  lemma {:induction false} ContainedIsBlock(ws: seq<string>, vs: seq<string>)
    requires IsWordList(ws) && IsWordList(vs) && vs != []
    requires Contains(Pad(ws), Pad(vs))
    ensures IsBlock(ws, vs)
  {
    NotInPadOfNone(ws, vs);
    if Pad(vs) <= Pad(ws) {
      PrefixOfPad(vs, ws);
      assert OccursAt(ws, vs, 0);
    } else {
      ContainedPastFirst(ws, vs);
      ContainedIsBlock(ws[1..], vs);
      BlockOfRest(ws, vs);
    }
  }

  lemma NotInPadOfNone(ws: seq<string>, vs: seq<string>)
    requires IsWordList(vs) && vs != [] && Contains(Pad(ws), Pad(vs))
    ensures ws != []
  {
    ContainedIsNoLonger(Pad(ws), Pad(vs));
    assert IsWord(vs[0]) && Pad(vs) == " " + vs[0] + Pad(vs[1..]);
  }

  /** A padded text that is contained, but not at the front, is contained behind the first word. */
  lemma ContainedPastFirst(ws: seq<string>, vs: seq<string>)
    requires IsWordList(ws) && ws != [] && Contains(Pad(ws), Pad(vs)) && !(Pad(vs) <= Pad(ws))
    ensures Contains(Pad(ws[1..]), Pad(vs))
  {
    assert IsWord(ws[0]) && Pad(ws)[1..] == ws[0] + Pad(ws[1..]);
    ContainsPastWord(ws[0], Pad(ws[1..]), Pad(vs));
  }

  lemma BlockOfRest(ws: seq<string>, vs: seq<string>)
    requires ws != [] && IsBlock(ws[1..], vs)
    ensures IsBlock(ws, vs)
  {
    var k: nat :| OccursAt(ws[1..], vs, k);
    assert OccursAt(ws, vs, k + 1);
  }

  /** The padded substring test is exact: normalised text contains a normalised term, both padded with
      spaces, if and only if the term's tokens are a contiguous block of the text's. */
  lemma PaddedTestIsExact(text: string, term: string)
    requires TokensOf(term) != []
    ensures Contains(" " + NormalizedText(text) + " ", " " + NormalizedText(term) + " ")
            <==> IsBlock(TokensOf(text), TokensOf(term))
  {
    var ws, vs := TokensOf(text), TokensOf(term);
    NormalizedIsJoin(text);
    NormalizedIsJoin(term);
    PaddedJoin(vs);
    if ws == [] {
      NotInBlanks(Pad(vs));
    } else {
      PaddedJoin(ws);
      if Contains(Pad(ws), Pad(vs)) {
        ContainedIsBlock(ws, vs);
      }
      if k: nat :| OccursAt(ws, vs, k) {
        BlockIsContained(ws, vs, k);
      }
    }
  }

  lemma NotInBlanks(n: string)
    requires |n| > 2
    ensures !Contains("  ", n)
  {
    assert "  "[1..] == " " && " "[1..] == "";
    assert !Contains("", n);
    assert !Contains(" ", n);
  }
}
