/** Usernames for new accounts (api/auth/service.go): sanitising a display name and numbering the retries. */
module Usernames {
  import opened Text
  import opened Tokens

  /** Trims underscores at both ends. */
  function TrimUnderscoresLeft(s: string): string {
    if s != "" && s[0] == '_' then TrimUnderscoresLeft(s[1..]) else s
  }

  function TrimUnderscoresRight(s: string): string {
    if s != "" && s[|s| - 1] == '_' then TrimUnderscoresRight(s[..|s| - 1]) else s
  }

  function TrimUnderscores(s: string): string {
    TrimUnderscoresRight(TrimUnderscoresLeft(s))
  }

  function TrimUsername(raw: string): (r: string)
    ensures 3 <= |r| <= 24
  {
    var trimmed := TrimUnderscores(raw);
    var cut := if |trimmed| > 24 then trimmed[..24] else trimmed;
    if |cut| < 3 then "discord_user" else cut
  }

  function Digit(d: nat): char
    requires d < 10
  {
    '0' + d as char
  }

  /** The decimal digits of a number. */
  function Decimal(n: nat): string {
    if n < 10 then [Digit(n)] else Decimal(n / 10) + [Digit(n % 10)]
  }

  function UsernameCandidate(base: string, attempt: int): (r: string)
    ensures 3 <= |r| <= 24
  {
    if attempt <= 0 then TrimUsername(base)
    else
      var suffix := Decimal(attempt);
      var trimmedBase := TrimUsername(base);
      var room := 24 - 1 - |suffix|;
      var maxBase := if room < 3 then 3 else room;
      TrimUsername((if |trimmedBase| > maxBase then trimmedBase[..maxBase] else trimmedBase) + "_" + suffix)
  }

  // ----- Decimal numerals -----

  lemma {:induction false} DecimalDigits(n: nat)
    ensures Decimal(n) != "" && forall i :: 0 <= i < |Decimal(n)| ==> '0' <= Decimal(n)[i] <= '9'
  {
    if n >= 10 {
      DecimalDigits(n / 10);
    }
  }

  lemma {:induction false} DecimalInjective(m: nat, n: nat)
    requires Decimal(m) == Decimal(n)
    ensures m == n
  {
    var s := Decimal(m);
    if m >= 10 {
      DecimalDigits(m / 10);
    }
    if n >= 10 {
      DecimalDigits(n / 10);
    }
    assert s[|s| - 1] == Digit(m % 10) == Digit(n % 10);
    if m >= 10 && n >= 10 {
      assert Decimal(m / 10) == s[..|s| - 1] == Decimal(n / 10);
      DecimalInjective(m / 10, n / 10);
    }
  }

  function Pow10(k: nat): nat {
    if k == 0 then 1 else 10 * Pow10(k - 1)
  }

  lemma {:induction false} DecimalLength(n: nat, k: nat)
    requires k >= 1 && n < Pow10(k)
    ensures |Decimal(n)| <= k
  {
    if n >= 10 {
      assert n < 10 * Pow10(k - 1) && n / 10 < Pow10(k - 1);
      DecimalLength(n / 10, k - 1);
    }
  }

  // ----- Retries never repeat -----

  /** The largest 64-bit attempt. */
  const MAX_ATTEMPT: int := 0x7FFF_FFFF_FFFF_FFFF

  lemma AttemptLength(attempt: int)
    requires 1 <= attempt <= MAX_ATTEMPT
    ensures |Decimal(attempt)| <= 19
  {
    assert Pow10(4) == 10000;
    assert Pow10(8) == 10000 * 10000;
    assert Pow10(12) == 10000 * Pow10(8);
    assert Pow10(16) == 10000 * Pow10(12);
    assert Pow10(19) == 1000 * Pow10(16);
    DecimalLength(attempt, 19);
  }

  lemma TrimmedFirst(s: string)
    ensures TrimUnderscoresLeft(s) != "" ==> TrimUnderscoresLeft(s)[0] != '_'
  {
  }

  lemma TrimmedRightPrefix(s: string)
    ensures TrimUnderscoresRight(s) <= s
  {
  }

  lemma TrimmedUsernameStart(base: string)
    ensures TrimUsername(base)[0] != '_'
  {
    TrimmedFirst(base);
    TrimmedRightPrefix(TrimUnderscoresLeft(base));
  }

  lemma TrimKeeps(s: string)
    requires s != "" && s[0] != '_' && s[|s| - 1] != '_'
    ensures TrimUnderscores(s) == s
  {
  }

  /** The base part of a numbered candidate. */
  function Stem(base: string, attempt: nat): string {
    var t := TrimUsername(base);
    var room := 23 - |Decimal(attempt)|;
    if 0 <= room < |t| then t[..room] else t
  }

  /** A numbered candidate is its stem, an underscore and the whole attempt number. */
  lemma NumberedCandidate(base: string, attempt: int)
    requires 1 <= attempt <= MAX_ATTEMPT
    ensures UsernameCandidate(base, attempt) == Stem(base, attempt) + "_" + Decimal(attempt)
  {
    AttemptLength(attempt);
    DecimalDigits(attempt);
    TrimmedUsernameStart(base);
    var raw := Stem(base, attempt) + "_" + Decimal(attempt);
    assert raw[0] == Stem(base, attempt)[0];
    assert raw[|raw| - 1] == Decimal(attempt)[|Decimal(attempt)| - 1];
    TrimKeeps(raw);
  }

  /** The last underscore of `a_d` is the one between the parts. */
  lemma LastUnderscore(a: string, d: string)
    requires forall i :: 0 <= i < |d| ==> d[i] != '_'
    ensures (a + "_" + d)[|a|] == '_' && forall i :: |a| < i <= |a| + |d| ==> (a + "_" + d)[i] != '_'
    ensures (a + "_" + d)[|a| + 1..] == d
  {
  }

  /** What stands behind the last underscore is determined by the whole. */
  lemma LastPartUnique(a: string, d: string, b: string, e: string)
    requires a + "_" + d == b + "_" + e
    requires (forall i :: 0 <= i < |d| ==> d[i] != '_') && (forall i :: 0 <= i < |e| ==> e[i] != '_')
    ensures d == e
  {
    LastUnderscore(a, d);
    LastUnderscore(b, e);
    assert |a| == |b|;
  }

  /** Candidates for different retries, counted from one in 64 bits, are different. */
  lemma RetriesDistinct(base: string, i: int, j: int)
    requires 1 <= i < j <= MAX_ATTEMPT
    ensures UsernameCandidate(base, i) != UsernameCandidate(base, j)
  {
    NumberedCandidate(base, i);
    NumberedCandidate(base, j);
    DecimalDigits(i);
    DecimalDigits(j);
    if UsernameCandidate(base, i) == UsernameCandidate(base, j) {
      LastPartUnique(Stem(base, i), Decimal(i), Stem(base, j), Decimal(j));
      DecimalInjective(i, j);
    }
  }

  /** A retry repeats the unnumbered first candidate if and only if that candidate fills all 24 places and
      already ends in an underscore and the attempt number. */
  lemma RetryRepeatsFirst(base: string, k: int)
    requires 1 <= k <= MAX_ATTEMPT
    ensures UsernameCandidate(base, k) == UsernameCandidate(base, 0) <==>
            var t := UsernameCandidate(base, 0);
            |Decimal(k)| <= 23 && |t| == 24 && t[23 - |Decimal(k)|..] == "_" + Decimal(k)
  {
    AttemptLength(k);
    NumberedCandidate(base, k);
    var t, d := TrimUsername(base), Decimal(k);
    var room := 23 - |d|;
    if |t| > room {
      assert UsernameCandidate(base, k) == t[..room] + ("_" + d);
      EndsInSuffix(t, room, "_" + d);
    } else {
      assert |UsernameCandidate(base, k)| == |t| + 1 + |d|;
    }
  }

  /** A text equals its first part followed by a suffix if and only if the suffix is the rest of it. */
  lemma EndsInSuffix(t: string, n: nat, suffix: string)
    requires n <= |t|
    ensures t[..n] + suffix == t <==> |t| == n + |suffix| && t[n..] == suffix
  {
    assert t == t[..n] + t[n..];
    assert (t[..n] + suffix)[n..] == suffix;
  }

  /** An instance: the first retry for this name repeats the first candidate. */
  lemma RepeatedInstance()
    ensures UsernameCandidate("aaaaaaaaaaaaaaaaaaaaaa_1", 1) == UsernameCandidate("aaaaaaaaaaaaaaaaaaaaaa_1", 0)
  {
    var base := "aaaaaaaaaaaaaaaaaaaaaa_1";
    TrimKeeps(base);
    assert Decimal(1) == "1";
    RetryRepeatsFirst(base, 1);
    assert base[22..] == "_1";
  }

  // ----- Sanitising -----

  /** The letters and digits of `s`, every run of other characters replaced by one underscore. */
  function Emit(s: string, underscore: bool): string {
    if s == "" then ""
    else if IsWordChar(s[0]) then [s[0]] + Emit(s[1..], false)
    else (if underscore then "" else "_") + Emit(s[1..], true)
  }

  function SanitizeUsername(raw: string): string {
    var out := TrimUnderscores(Emit(Lower(Trim(raw)), false));
    var cut := if |out| > 24 then out[..24] else out;
    if |cut| < 3 then "" else cut
  }

  method Squeeze(s: string) returns (b: string)
    ensures b == Emit(s, false)
  {
    b := "";
    var underscore := false;
    for i := 0 to |s|
      invariant b + Emit(s[i..], underscore) == Emit(s, false)
    {
      assert s[i..][1..] == s[i + 1..];
      if IsWordChar(s[i]) {
        b := b + [s[i]];
        underscore := false;
      } else if !underscore {
        b := b + "_";
        underscore := true;
      }
    }
    assert b + "" == b;
  }

  method Sanitize(raw: string) returns (out: string)
    ensures out == SanitizeUsername(raw)
  {
    var s := Lower(Trim(raw));
    if s == "" {
      return "";
    }
    var b := Squeeze(s);
    out := TrimUnderscores(b);
    if |out| > 24 {
      out := out[..24];
    }
    if |out| < 3 {
      return "";
    }
  }

  /** Tokens joined by underscores. */
  function Underscored(ws: seq<string>): string {
    if |ws| == 0 then "" else if |ws| == 1 then ws[0] else ws[0] + "_" + Underscored(ws[1..])
  }

  function UnderscoreChar(c: char): char {
    if c == ' ' then '_' else c
  }

  lemma {:induction false} EmitInRun(s: string)
    ensures Emit(s, true) == Emit(DropRun(IsNonWord, s), false)
  {
    if s == "" {
    } else if !IsWordChar(s[0]) {
      EmitInRun(s[1..]);
    }
  }

  lemma {:induction false} EmitIsCollapse(s: string)
    ensures Emit(s, false) == MapChars(UnderscoreChar, ReplaceRuns(IsNonWord, s))
    decreases |s|
  {
    if s == "" {
    } else if IsWordChar(s[0]) {
      EmitIsCollapse(s[1..]);
      MapConcat([s[0]], ReplaceRuns(IsNonWord, s[1..]));
    } else {
      EmitAtRun(s);
      EmitIsCollapse(DropRun(IsNonWord, s));
      MapConcat(" ", ReplaceRuns(IsNonWord, DropRun(IsNonWord, s)));
    }
  }

  lemma EmitAtRun(s: string)
    requires s != "" && !IsWordChar(s[0])
    ensures Emit(s, false) == "_" + Emit(DropRun(IsNonWord, s), false)
  {
    EmitInRun(s[1..]);
  }

  lemma MapConcat(a: string, b: string)
    ensures MapChars(UnderscoreChar, a + b) == MapChars(UnderscoreChar, a) + MapChars(UnderscoreChar, b)
  {
  }

  lemma {:induction false} MapJoin(ws: seq<string>)
    requires IsWordList(ws)
    ensures MapChars(UnderscoreChar, Join(ws)) == Underscored(ws)
  {
    if |ws| == 1 {
      assert IsWord(ws[0]);
    } else if |ws| > 1 {
      assert IsWord(ws[0]);
      MapJoin(ws[1..]);
      MapConcat(ws[0] + " ", Join(ws[1..]));
      MapConcat(ws[0], " ");
      assert MapChars(UnderscoreChar, ws[0]) == ws[0];
    }
  }

  lemma TrimAround(lead: string, body: string, tail: string)
    requires lead in {"", "_"} && tail in {"", "_"}
    requires body != "" ==> body[0] != '_' && body[|body| - 1] != '_'
    requires body == "" ==> tail == ""
    ensures TrimUnderscores(lead + body + tail) == body
  {
    var inner := body + tail;
    assert TrimUnderscoresLeft(inner) == inner;
    assert TrimUnderscoresLeft(lead + inner) == inner by {
      assert (lead + inner)[|lead|..] == inner;
    }
    assert lead + body + tail == lead + inner;
    assert TrimUnderscoresRight(body) == body;
    assert TrimUnderscoresRight(inner) == body by {
      assert inner[..|body|] == body;
    }
  }

  /** Sanitising joins the tokens of the name with underscores and keeps the first 24 characters, unless
      fewer than three remain. */
  lemma SanitizedIsJoinedTokens(raw: string)
    ensures var joined := Underscored(TokensOf(Trim(raw)));
            SanitizeUsername(raw) == if |joined| < 3 then "" else if |joined| > 24 then joined[..24] else joined
  {
    var s := Lower(Trim(raw));
    var ws := TokensOf(Trim(raw));
    var lead, tail := Collapsed(s);
    EmitIsCollapse(s);
    MapJoin(ws);
    MapConcat(lead + Join(ws), tail);
    MapConcat(lead, Join(ws));
    if ws == [] {
      assert Underscored(ws) == "";
    } else {
      JoinEnds(ws);
      assert Underscored(ws)[0] == Join(ws)[0];
      assert Underscored(ws)[|Join(ws)| - 1] == Join(ws)[|Join(ws)| - 1];
    }
    MapEdge(lead);
    MapEdge(tail);
    TrimAround(MapChars(UnderscoreChar, lead), Underscored(ws), MapChars(UnderscoreChar, tail));
  }

  lemma MapEdge(edge: string)
    requires edge in {"", " "}
    ensures MapChars(UnderscoreChar, edge) == if edge == "" then "" else "_"
  {
  }

  // ----- What the candidates are -----

  predicate AllUnderscores(s: string) {
    forall i :: 0 <= i < |s| ==> s[i] == '_'
  }

  lemma {:induction false} TrimmedAround(lead: string, body: string, tail: string)
    requires AllUnderscores(lead) && AllUnderscores(tail)
    requires if body == "" then tail == "" else body[0] != '_' && body[|body| - 1] != '_'
    ensures TrimUnderscores(lead + body + tail) == body
  {
    LeadTrimmed(lead, body + tail);
    assert lead + body + tail == lead + (body + tail);
    TailTrimmed(body, tail);
  }

  lemma {:induction false} LeadTrimmed(lead: string, s: string)
    requires AllUnderscores(lead) && (s != "" ==> s[0] != '_')
    ensures TrimUnderscoresLeft(lead + s) == s
  {
    if lead == "" {
      assert lead + s == s;
    } else {
      LeadTrimmed(lead[1..], s);
      assert (lead + s)[1..] == lead[1..] + s;
    }
  }

  lemma {:induction false} TailTrimmed(s: string, tail: string)
    requires AllUnderscores(tail) && (s != "" ==> s[|s| - 1] != '_')
    ensures TrimUnderscoresRight(s + tail) == s
  {
    if tail == "" {
      assert s + tail == s;
    } else {
      var n := |tail| - 1;
      TailTrimmed(s, tail[..n]);
      assert (s + tail)[..|s + tail| - 1] == s + tail[..n];
    }
  }

  /** The first candidate is the name without the underscores at its ends, cut to 24 characters, or a stock name when
      fewer than three remain. */
  lemma FirstCandidate(lead: string, body: string, tail: string)
    requires AllUnderscores(lead) && AllUnderscores(tail)
    requires if body == "" then tail == "" else body[0] != '_' && body[|body| - 1] != '_'
    ensures UsernameCandidate(lead + body + tail, 0)
            == if |body| < 3 then "discord_user" else if |body| > 24 then body[..24] else body
  {
    TrimmedAround(lead, body, tail);
  }

  /** A numbered candidate cuts the first candidate so that an underscore and the whole number fit. */
  lemma NumberedFromFirst(base: string, attempt: int)
    requires 1 <= attempt <= MAX_ATTEMPT
    ensures |Decimal(attempt)| <= 19
    ensures var first, d := UsernameCandidate(base, 0), Decimal(attempt);
            UsernameCandidate(base, attempt)
            == (if |first| + 1 + |d| > 24 then first[..23 - |d|] else first) + "_" + d
  {
    AttemptLength(attempt);
    NumberedCandidate(base, attempt);
    var first := UsernameCandidate(base, 0);
    assert first[..|first|] == first;
  }

  /** The number a numeral stands for. */
  function ValueOf(s: string): int {
    if s == "" then 0 else 10 * ValueOf(s[..|s| - 1]) + (s[|s| - 1] as int - '0' as int)
  }

  /** The numeral of a number is its decimal digits without a leading zero. */
  lemma {:induction false} NumeralReads(n: nat)
    ensures ValueOf(Decimal(n)) == n && (n > 0 ==> Decimal(n)[0] != '0')
  {
    if n >= 10 {
      NumeralReads(n / 10);
      var s := Decimal(n);
      assert s[..|s| - 1] == Decimal(n / 10);
      assert s[|s| - 1] == Digit(n % 10);
      DecimalDigits(n / 10);
    } else {
      assert Decimal(n)[..0] == "";
    }
  }
}
