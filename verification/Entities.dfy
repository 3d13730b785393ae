/** Finding the coins and protocols a news article mentions (engine/news/ai/rules.go). */
module Entities {
  import opened Text
  import opened Tokens

  datatype Subject =
    | Coin(coinID: string, symbol: string, name: string)
    | Protocol(slug: string, title: string)
  {
    function Id(): string {
      if Coin? then coinID else slug
    }

    function Names(): seq<string> {
      if Coin? then [coinID, symbol, name] else [slug, title]
    }

    function DisplayName(): string {
      if Coin? then FirstNonEmpty([name, symbol, coinID]) else FirstNonEmpty([title, slug])
    }
  }

  datatype Entity = Entity(id: string, isCoin: bool, name: string, isPrimary: bool, mentionCount: nat, confidence: real)

  function FirstNonEmpty(values: seq<string>): string {
    if values == [] then "" else if Trim(values[0]) != "" then Trim(values[0]) else FirstNonEmpty(values[1..])
  }

  /** The length of a string in UTF-8 bytes. */
  function ByteLength(s: string): nat {
    if s == "" then 0
    else (if s[0] < '\U{80}' then 1 else if s[0] < '\U{800}' then 2 else if s[0] < '\U{10000}' then 3 else 4)
         + ByteLength(s[1..])
  }

  function ConfidenceFromHits(hits: nat): real {
    if hits >= 3 then 0.95 else if hits == 2 then 0.85 else if hits == 1 then 0.70 else 0.50
  }

  // ----- Terms without duplicates -----

  predicate HasKey(values: seq<string>, key: string) {
    exists i :: 0 <= i < |values| && Lower(values[i]) == key
  }

  /** The trimmed non-blank values, each kept only at its first occurrence up to case. */
  function Dedupe(values: seq<string>): (out: seq<string>)
    ensures |out| <= |values|
  {
    if values == [] then []
    else
      var before := Dedupe(values[..|values| - 1]);
      var value := Trim(values[|values| - 1]);
      if value == "" || HasKey(before, Lower(value)) then before else before + [value]
  }

  method DedupeStrings(values: seq<string>) returns (out: seq<string>)
    ensures out == Dedupe(values)
  {
    out := [];
    var seen: set<string> := {};
    for i := 0 to |values|
      invariant out == Dedupe(values[..i])
      invariant forall key :: key in seen <==> HasKey(out, key)
    {
      assert values[..i + 1][..i] == values[..i];
      var value := Trim(values[i]);
      if value != "" && Lower(value) !in seen {
        assert forall key :: HasKey(out + [value], key) <==> HasKey(out, key) || key == Lower(value) by {
          KeysOfAppend(out, value);
        }
        seen := seen + {Lower(value)};
        out := out + [value];
      }
    }
    assert values[..|values|] == values;
  }

  lemma KeysOfAppend(values: seq<string>, value: string)
    ensures forall key :: HasKey(values + [value], key) <==> HasKey(values, key) || key == Lower(value)
  {
    var longer := values + [value];
    forall key
      ensures HasKey(longer, key) <==> HasKey(values, key) || key == Lower(value)
    {
      if HasKey(values, key) {
        var i :| 0 <= i < |values| && Lower(values[i]) == key;
        assert longer[i] == values[i];
      }
      assert longer[|values|] == value;
    }
  }

  /** No two terms agree up to case, and all are trimmed and non-blank. */
  ghost predicate DistinctTerms(terms: seq<string>) {
    && (forall i, j :: 0 <= i < j < |terms| ==> Lower(terms[i]) != Lower(terms[j]))
    && (forall i :: 0 <= i < |terms| ==> terms[i] != "" && IsTrimmed(terms[i]))
  }

  lemma {:induction false} DedupeIsDistinct(values: seq<string>)
    ensures DistinctTerms(Dedupe(values))
  {
    if values == [] {
    } else {
      var n := |values| - 1;
      DedupeIsDistinct(values[..n]);
      TrimIsTrimmed(values[n]);
      if Trim(values[n]) != "" && !HasKey(Dedupe(values[..n]), Lower(Trim(values[n]))) {
        DistinctOneMore(Dedupe(values[..n]), Trim(values[n]));
      }
    }
  }

  lemma DistinctOneMore(terms: seq<string>, value: string)
    requires DistinctTerms(terms) && value != "" && IsTrimmed(value) && !HasKey(terms, Lower(value))
    ensures DistinctTerms(terms + [value])
  {
    assert forall i :: 0 <= i < |terms| ==> Lower(terms[i]) != Lower(value);
  }

  /** Every non-blank value is kept up to case. */
  lemma {:induction false} DedupeKeepsAll(values: seq<string>, i: nat)
    requires i < |values| && Trim(values[i]) != ""
    ensures HasKey(Dedupe(values), Lower(Trim(values[i])))
  {
    var n := |values| - 1;
    KeysOfAppend(Dedupe(values[..n]), Trim(values[n]));
    if i < n {
      assert values[..n][i] == values[i];
      DedupeKeepsAll(values[..n], i);
    }
  }

  // ----- Matching as the program does it -----

  predicate EqualFold(a: string, b: string) {
    Lower(a) == Lower(b)
  }

  /** A coin's terms shorter than three bytes are skipped, unless they name Bitcoin or Ether. */
  predicate IsTooShort(s: Subject, term: string) {
    s.Coin? && ByteLength(Trim(term)) < 3 && !EqualFold(term, "btc") && !EqualFold(term, "eth")
  }

  function Padded(raw: string): string {
    " " + NormalizedText(raw) + " "
  }

  predicate TermHits(normalized: string, titleNorm: string, s: Subject, term: string) {
    && Trim(Padded(term)) != "" && !IsTooShort(s, term)
    && (Contains(normalized, Padded(term)) || Contains(titleNorm, Padded(term)))
  }

  function CountHits(normalized: string, titleNorm: string, s: Subject, terms: seq<string>): nat {
    if terms == [] then 0
    else CountHits(normalized, titleNorm, s, terms[..|terms| - 1])
         + if TermHits(normalized, titleNorm, s, terms[|terms| - 1]) then 1 else 0
  }

  predicate Reported(entities: seq<Entity>, id: string) {
    exists i :: 0 <= i < |entities| && entities[i].id == id
  }

  /** Appends the entity of `s` when it has hits and its id is new. */
  function AddEntity(entities: seq<Entity>, s: Subject, hits: nat): seq<Entity> {
    if hits == 0 || Reported(entities, s.Id()) then entities
    else entities + [Entity(s.Id(), s.Coin?, s.DisplayName(), entities == [], hits, ConfidenceFromHits(hits))]
  }

  function Match(normalized: string, titleNorm: string, subjects: seq<Subject>): seq<Entity> {
    if subjects == [] then []
    else
      var s := subjects[|subjects| - 1];
      AddEntity(Match(normalized, titleNorm, subjects[..|subjects| - 1]), s,
                CountHits(normalized, titleNorm, s, Dedupe(s.Names())))
  }

  method CountTermHits(normalized: string, titleNorm: string, s: Subject, terms: seq<string>) returns (hits: nat)
    ensures hits == CountHits(normalized, titleNorm, s, terms)
  {
    hits := 0;
    for j := 0 to |terms|
      invariant hits == CountHits(normalized, titleNorm, s, terms[..j])
    {
      assert terms[..j + 1][..j] == terms[..j];
      var needle := Padded(terms[j]);
      if Trim(needle) == "" || IsTooShort(s, terms[j]) {
        continue;
      }
      if Contains(normalized, needle) {
        hits := hits + 1;
      } else if Contains(titleNorm, needle) {
        hits := hits + 1;
      }
    }
    assert terms[..|terms|] == terms;
  }

  /** `seen` holds the ids reported so far. */
  ghost predicate SeenIds(seen: set<string>, entities: seq<Entity>) {
    forall id :: id in seen <==> Reported(entities, id)
  }

  method CountSubjectHits(normalized: string, titleNorm: string, s: Subject) returns (hits: nat)
    ensures hits == CountHits(normalized, titleNorm, s, Dedupe(s.Names()))
  {
    var terms := DedupeStrings(s.Names());
    hits := CountTermHits(normalized, titleNorm, s, terms);
  }

  /** The end of the loop body: appends the entity unless it has no hits or its id was seen. */
  method ReportSubject(entities: seq<Entity>, seen: set<string>, s: Subject, hits: nat)
    returns (entities': seq<Entity>, seen': set<string>)
    requires SeenIds(seen, entities)
    ensures entities' == AddEntity(entities, s, hits) && SeenIds(seen', entities')
  {
    if hits == 0 || s.Id() in seen {
      return entities, seen;
    }
    var e := Entity(s.Id(), s.Coin?, s.DisplayName(), |entities| == 0, hits, ConfidenceFromHits(hits));
    IdsOfAppend(entities, e);
    return entities + [e], seen + {s.Id()};
  }

  method MatchEntities(text: string, title: string, subjects: seq<Subject>) returns (entities: seq<Entity>)
    ensures entities == Match(Padded(text), Padded(title), subjects)
  {
    var normalized, titleNorm := Padded(text), Padded(title);
    var seen: set<string> := {};
    entities := [];
    for i := 0 to |subjects|
      invariant entities == Match(normalized, titleNorm, subjects[..i])
      invariant SeenIds(seen, entities)
    {
      assert subjects[..i + 1][..i] == subjects[..i];
      var hits := CountSubjectHits(normalized, titleNorm, subjects[i]);
      entities, seen := ReportSubject(entities, seen, subjects[i], hits);
    }
    assert subjects[..|subjects|] == subjects;
  }

  lemma IdsOfAppend(entities: seq<Entity>, e: Entity)
    ensures forall id :: Reported(entities + [e], id) <==> Reported(entities, id) || id == e.id
  {
    var longer := entities + [e];
    forall id
      ensures Reported(longer, id) <==> Reported(entities, id) || id == e.id
    {
      if Reported(entities, id) {
        var i :| 0 <= i < |entities| && entities[i].id == id;
        assert longer[i] == entities[i];
      }
      assert longer[|entities|] == e;
    }
  }

  /** What analyzeArticle reports: the coins of the article, then its protocols. */
  method AnalyzeArticle(title: string, body: string, coins: seq<Subject>, protocols: seq<Subject>)
    returns (entities: seq<Entity>)
    ensures entities == MatchTokens(TokensOf(title + " " + body), coins)
                        + MatchTokens(TokensOf(title + " " + body), protocols)
  {
    var text := NormalizedText(title + " " + body);
    var coinHits := MatchEntities(text, title, coins);
    var protocolHits := MatchEntities(text, title, protocols);
    MatchingIsTokenMatching(title, body, coins);
    MatchingIsTokenMatching(title, body, protocols);
    entities := coinHits + protocolHits;
  }

  // ----- Matching on token lists -----

  /** `term` counts for `s` and occurs in `tokens` as a contiguous block. */
  ghost predicate Occurs(tokens: seq<string>, s: Subject, term: string) {
    TokensOf(term) != [] && !IsTooShort(s, term) && IsBlock(tokens, TokensOf(term))
  }

  ghost function CountOccurring(tokens: seq<string>, s: Subject, terms: seq<string>): nat {
    if terms == [] then 0
    else CountOccurring(tokens, s, terms[..|terms| - 1]) + if Occurs(tokens, s, terms[|terms| - 1]) then 1 else 0
  }

  ghost function MatchTokens(tokens: seq<string>, subjects: seq<Subject>): seq<Entity> {
    if subjects == [] then []
    else
      var s := subjects[|subjects| - 1];
      AddEntity(MatchTokens(tokens, subjects[..|subjects| - 1]), s, CountOccurring(tokens, s, Dedupe(s.Names())))
  }

  lemma PaddedIsBlank(term: string)
    ensures Trim(Padded(term)) == "" <==> TokensOf(term) == []
  {
    NormalizedIsJoin(term);
    var ws := TokensOf(term);
    if ws == [] {
      assert "  "[1..] == " " && " "[1..] == "";
      assert TrimLeft(" ") == "" == TrimLeft("  ");
    } else {
      JoinEnds(ws);
      TrimPadded(" ", Join(ws), " ");
    }
  }

  /** The separate title check never adds a hit: a block of the title's tokens is one of the article's. */
  lemma TitleCheckAddsNothing(title: string, body: string, term: string)
    requires TokensOf(term) != []
    requires Contains(Padded(title), Padded(term))
    ensures Contains(Padded(NormalizedText(title + " " + body)), Padded(term))
  {
    var vs := TokensOf(term);
    PaddedTestIsExact(title, term);
    var k: nat :| OccursAt(TokensOf(title), vs, k);
    TokensAcrossSpace(title, body);
    assert OccursAt(TokensOf(title) + TokensOf(body), vs, k);
    PaddedTestIsExact(title + " " + body, term);
    NormalizedIdempotent(title + " " + body);
  }

  /** A term hits exactly when its tokens are a contiguous block of the tokens of title and body. */
  lemma TermHitsIffOccurs(title: string, body: string, s: Subject, term: string)
    ensures TermHits(Padded(NormalizedText(title + " " + body)), Padded(title), s, term)
            <==> Occurs(TokensOf(title + " " + body), s, term)
  {
    PaddedIsBlank(term);
    if TokensOf(term) != [] {
      NormalizedIdempotent(title + " " + body);
      PaddedTestIsExact(title + " " + body, term);
      if Contains(Padded(title), Padded(term)) {
        TitleCheckAddsNothing(title, body, term);
      }
    }
  }

  lemma {:induction false} HitsAreOccurrences(title: string, body: string, s: Subject, terms: seq<string>)
    ensures CountHits(Padded(NormalizedText(title + " " + body)), Padded(title), s, terms)
            == CountOccurring(TokensOf(title + " " + body), s, terms)
  {
    if terms == [] {
    } else {
      HitsAreOccurrences(title, body, s, terms[..|terms| - 1]);
      TermHitsIffOccurs(title, body, s, terms[|terms| - 1]);
    }
  }

  /** The padded substring matcher refines matching on token lists, entity for entity. */
  lemma {:induction false} MatchingIsTokenMatching(title: string, body: string, subjects: seq<Subject>)
    ensures Match(Padded(NormalizedText(title + " " + body)), Padded(title), subjects)
            == MatchTokens(TokensOf(title + " " + body), subjects)
  {
    if subjects == [] {
    } else {
      var s := subjects[|subjects| - 1];
      MatchingIsTokenMatching(title, body, subjects[..|subjects| - 1]);
      HitsAreOccurrences(title, body, s, Dedupe(s.Names()));
    }
  }

  // ----- What is reported -----

  /** Some term of `s` counts and occurs. */
  ghost predicate Mentioned(tokens: seq<string>, s: Subject) {
    exists i :: 0 <= i < |Dedupe(s.Names())| && Occurs(tokens, s, Dedupe(s.Names())[i])
  }

  lemma {:induction false} CountsWhenOccurring(tokens: seq<string>, s: Subject, terms: seq<string>)
    ensures CountOccurring(tokens, s, terms) > 0 <==> exists i :: 0 <= i < |terms| && Occurs(tokens, s, terms[i])
  {
    if terms == [] {
    } else {
      var n := |terms| - 1;
      CountsWhenOccurring(tokens, s, terms[..n]);
      if i :| 0 <= i < |terms| && Occurs(tokens, s, terms[i]) {
        if i < n {
          assert terms[..n][i] == terms[i];
        }
      }
      if i :| 0 <= i < n && Occurs(tokens, s, terms[..n][i]) {
        assert terms[i] == terms[..n][i];
      }
    }
  }

  lemma AddedIds(entities: seq<Entity>, s: Subject, hits: nat, id: string)
    ensures Reported(AddEntity(entities, s, hits), id) <==> Reported(entities, id) || (hits > 0 && id == s.Id())
  {
    IdsOfAppend(entities, Entity(s.Id(), s.Coin?, s.DisplayName(), entities == [], hits, ConfidenceFromHits(hits)));
  }

  /** Some subject with this id is mentioned. */
  ghost predicate IdMentioned(tokens: seq<string>, subjects: seq<Subject>, id: string) {
    exists i :: 0 <= i < |subjects| && subjects[i].Id() == id && Mentioned(tokens, subjects[i])
  }

  lemma IdMentionedStep(tokens: seq<string>, subjects: seq<Subject>, id: string)
    requires subjects != []
    ensures var n := |subjects| - 1;
            IdMentioned(tokens, subjects, id)
            <==> IdMentioned(tokens, subjects[..n], id) || (subjects[n].Id() == id && Mentioned(tokens, subjects[n]))
  {
    var n := |subjects| - 1;
    assert forall i :: 0 <= i < n ==> subjects[..n][i] == subjects[i];
  }

  /** An id is reported if and only if some subject with that id is mentioned. */
  lemma {:induction false} ReportedIffMentioned(tokens: seq<string>, subjects: seq<Subject>, id: string)
    ensures Reported(MatchTokens(tokens, subjects), id) <==> IdMentioned(tokens, subjects, id)
  {
    if subjects == [] {
    } else {
      var n := |subjects| - 1;
      var s := subjects[n];
      ReportedIffMentioned(tokens, subjects[..n], id);
      IdMentionedStep(tokens, subjects, id);
      CountsWhenOccurring(tokens, s, Dedupe(s.Names()));
      AddedIds(MatchTokens(tokens, subjects[..n]), s, CountOccurring(tokens, s, Dedupe(s.Names())), id);
    }
  }

  /** No id is listed twice, and only the first entity is primary. */
  ghost predicate OnceAndFirstPrimary(es: seq<Entity>) {
    && (forall i, j :: 0 <= i < j < |es| ==> es[i].id != es[j].id)
    && (forall i :: 0 <= i < |es| ==> (es[i].isPrimary <==> i == 0))
  }

  lemma AddKeepsOnce(entities: seq<Entity>, s: Subject, hits: nat)
    requires OnceAndFirstPrimary(entities)
    ensures OnceAndFirstPrimary(AddEntity(entities, s, hits))
  {
    if !Reported(entities, s.Id()) {
      assert forall i :: 0 <= i < |entities| ==> entities[i].id != s.Id();
    }
  }

  lemma {:induction false} MatchesOnceAndFirstPrimary(tokens: seq<string>, subjects: seq<Subject>)
    ensures OnceAndFirstPrimary(MatchTokens(tokens, subjects))
  {
    if subjects == [] {
    } else {
      var n := |subjects| - 1;
      MatchesOnceAndFirstPrimary(tokens, subjects[..n]);
      AddKeepsOnce(MatchTokens(tokens, subjects[..n]), subjects[n],
                   CountOccurring(tokens, subjects[n], Dedupe(subjects[n].Names())));
    }
  }

  /** An article with coins and protocols has two primary entities, the first of either kind. */
  lemma PrimariesOfArticle(tokens: seq<string>, coins: seq<Subject>, protocols: seq<Subject>, i: nat)
    requires i < |MatchTokens(tokens, coins) + MatchTokens(tokens, protocols)|
    ensures (MatchTokens(tokens, coins) + MatchTokens(tokens, protocols))[i].isPrimary
            <==> i == 0 || i == |MatchTokens(tokens, coins)|
  {
    MatchesOnceAndFirstPrimary(tokens, coins);
    MatchesOnceAndFirstPrimary(tokens, protocols);
  }

  /** The exemption for Bitcoin and Ether symbols never applies: both already have three bytes. */
  lemma ShortExemptionIsIdle(s: Subject, term: string)
    requires IsTrimmed(term)
    ensures IsTooShort(s, term) <==> s.Coin? && ByteLength(term) < 3
  {
    assert Trim(term) == term;
    if EqualFold(term, "btc") || EqualFold(term, "eth") {
      assert |term| == |Lower(term)| == 3;
      BytesAtLeastChars(term);
    }
  }

  lemma {:induction false} BytesAtLeastChars(s: string)
    ensures ByteLength(s) >= |s|
  {
    if s == "" {
    } else {
      BytesAtLeastChars(s[1..]);
    }
  }

  // ----- What is looked for, and what an entity says -----

  /** What a coin or a protocol is looked for by. */
  function FieldsOf(s: Subject): seq<string> {
    match s
    case Coin(coinID, symbol, name) => [coinID, symbol, name]
    case Protocol(slug, title) => [slug, title]
  }

  /** The field is not blank, and no earlier one is the same up to case and white space at its ends. */
  predicate IsFirst(fields: seq<string>, i: nat) {
    && i < |fields| && Trim(fields[i]) != ""
    && forall j :: 0 <= j < i ==> Lower(Trim(fields[j])) != Lower(Trim(fields[i]))
  }

  /** The field has tokens, a coin's has three bytes, and the tokens are a block of the article's. */
  ghost predicate FieldOccurs(tokens: seq<string>, s: Subject, field: string) {
    TokensOf(field) != [] && (s.Coin? ==> ByteLength(Trim(field)) >= 3) && IsBlock(tokens, TokensOf(field))
  }

  ghost predicate IsHit(tokens: seq<string>, s: Subject, fields: seq<string>, i: nat) {
    IsFirst(fields, i) && FieldOccurs(tokens, s, fields[i])
  }

  /** How many fields hit. */
  ghost function HitCount(tokens: seq<string>, s: Subject, fields: seq<string>, n: nat): nat
    requires n <= |fields|
  {
    if n == 0 then 0 else HitCount(tokens, s, fields, n - 1) + if IsHit(tokens, s, fields, n - 1) then 1 else 0
  }

  lemma KeyOneMore(terms: seq<string>, value: string, key: string)
    ensures HasKey(terms + [value], key) <==> HasKey(terms, key) || key == Lower(value)
  {
    KeysOfAppend(terms, value);
  }

  /** One of the first `n` fields has this key. */
  ghost predicate IsSeen(fields: seq<string>, n: nat, key: string)
    requires n <= |fields|
  {
    exists j :: 0 <= j < n && Lower(Trim(fields[j])) == key
  }

  lemma SeenOneMore(fields: seq<string>, n: nat, key: string)
    requires n < |fields|
    ensures IsSeen(fields, n + 1, key) <==> IsSeen(fields, n, key) || Lower(Trim(fields[n])) == key
  {
  }

  lemma DedupeOneMore(fields: seq<string>, n: nat)
    requires n < |fields|
    ensures var before, value := Dedupe(fields[..n]), Trim(fields[n]);
            Dedupe(fields[..n + 1])
            == if value == "" || HasKey(before, Lower(value)) then before else before + [value]
  {
    assert fields[..n + 1][..n] == fields[..n];
  }

  lemma {:induction false} KeysAreSeen(fields: seq<string>, n: nat, key: string)
    requires n <= |fields| && key != ""
    ensures HasKey(Dedupe(fields[..n]), key) <==> IsSeen(fields, n, key)
  {
    if n == 0 {
    } else {
      KeysAreSeen(fields, n - 1, key);
      DedupeOneMore(fields, n - 1);
      KeyOneMore(Dedupe(fields[..n - 1]), Trim(fields[n - 1]), key);
      SeenOneMore(fields, n - 1, key);
    }
  }

  lemma OccursIffField(tokens: seq<string>, s: Subject, field: string)
    ensures Occurs(tokens, s, Trim(field)) <==> FieldOccurs(tokens, s, field)
  {
    TokensOfTrimmed(field);
    TrimIsTrimmed(field);
    TrimIdempotent(field);
    ShortExemptionIsIdle(s, Trim(field));
  }

  lemma FirstIff(fields: seq<string>, n: nat)
    requires n < |fields|
    ensures IsFirst(fields, n) <==> Trim(fields[n]) != "" && !IsSeen(fields, n, Lower(Trim(fields[n])))
  {
  }

  lemma CountAppended(tokens: seq<string>, s: Subject, terms: seq<string>, value: string)
    ensures CountOccurring(tokens, s, terms + [value])
            == CountOccurring(tokens, s, terms) + if Occurs(tokens, s, value) then 1 else 0
  {
    assert (terms + [value])[..|terms|] == terms;
  }

  lemma HitOneMore(tokens: seq<string>, s: Subject, fields: seq<string>, n: nat)
    requires n < |fields|
    ensures CountOccurring(tokens, s, Dedupe(fields[..n + 1]))
            == CountOccurring(tokens, s, Dedupe(fields[..n])) + if IsHit(tokens, s, fields, n) then 1 else 0
  {
    var before, value := Dedupe(fields[..n]), Trim(fields[n]);
    DedupeOneMore(fields, n);
    FirstIff(fields, n);
    OccursIffField(tokens, s, fields[n]);
    CountAppended(tokens, s, before, value);
    if value != "" {
      KeysAreSeen(fields, n, Lower(value));
    }
  }

  lemma NoFieldsNoCount(tokens: seq<string>, s: Subject, fields: seq<string>)
    ensures CountOccurring(tokens, s, Dedupe(fields[..0])) == 0
  {
    assert fields[..0] == [];
  }

  lemma {:induction false} CountIsHitCount(tokens: seq<string>, s: Subject, fields: seq<string>, n: nat)
    requires n <= |fields|
    ensures CountOccurring(tokens, s, Dedupe(fields[..n])) == HitCount(tokens, s, fields, n)
  {
    if n == 0 {
      NoFieldsNoCount(tokens, s, fields);
    } else {
      CountIsHitCount(tokens, s, fields, n - 1);
      HitOneMore(tokens, s, fields, n - 1);
      OneHitCounted(tokens, s, fields, n);
    }
  }

  lemma OneHitCounted(tokens: seq<string>, s: Subject, fields: seq<string>, n: nat)
    requires 0 < n <= |fields|
    ensures HitCount(tokens, s, fields, n)
            == HitCount(tokens, s, fields, n - 1) + if IsHit(tokens, s, fields, n - 1) then 1 else 0
  {
  }

  ghost function Hits(tokens: seq<string>, s: Subject): nat {
    HitCount(tokens, s, FieldsOf(s), |FieldsOf(s)|)
  }

  /** The entity has the subject's id, kind and name, and counts the fields that hit. */
  ghost predicate Describes(tokens: seq<string>, s: Subject, e: Entity) {
    var hits := Hits(tokens, s);
    && e.id == FieldsOf(s)[0] && (e.isCoin <==> s.Coin?) && IsName(s, e.name)
    && hits > 0 && e.mentionCount == hits
    && (hits == 1 ==> e.confidence == 0.70) && (hits == 2 ==> e.confidence == 0.85)
    && (hits >= 3 ==> e.confidence == 0.95)
  }

  /** No field of an earlier subject with this id hits. */
  ghost predicate NoneBefore(tokens: seq<string>, subjects: seq<Subject>, i: nat, id: string)
    requires i <= |subjects|
  {
    forall j :: 0 <= j < i && FieldsOf(subjects[j])[0] == id ==> Hits(tokens, subjects[j]) == 0
  }

  /** A coin shows its name, else its symbol, else its id; a protocol its title, else its slug. */
  predicate IsName(s: Subject, name: string) {
    match s
    case Coin(coinID, symbol, title) =>
      name == if Trim(title) != "" then Trim(title) else if Trim(symbol) != "" then Trim(symbol) else Trim(coinID)
    case Protocol(slug, title) => name == if Trim(title) != "" then Trim(title) else Trim(slug)
  }

  lemma NameIsShown(s: Subject)
    ensures IsName(s, s.DisplayName())
  {
    match s
    case Coin(coinID, symbol, name) => FirstOf(name, [symbol, coinID]); FirstOf(symbol, [coinID]); FirstOf(coinID, []);
    case Protocol(slug, title) => FirstOf(title, [slug]); FirstOf(slug, []);
  }

  lemma FirstOf(value: string, rest: seq<string>)
    ensures FirstNonEmpty([value] + rest) == if Trim(value) != "" then Trim(value) else FirstNonEmpty(rest)
    ensures FirstNonEmpty([]) == ""
  {
    assert ([value] + rest)[1..] == rest;
  }

  /** Entity `k` stands for the subject at `place`, the first with its id of which a field hits. */
  ghost predicate StandsFor(tokens: seq<string>, subjects: seq<Subject>, place: nat, e: Entity) {
    place < |subjects| && Describes(tokens, subjects[place], e) && NoneBefore(tokens, subjects, place, e.id)
  }

  lemma StillStandsFor(tokens: seq<string>, subjects: seq<Subject>, n: nat, place: nat, e: Entity)
    requires n <= |subjects| && StandsFor(tokens, subjects[..n], place, e)
    ensures StandsFor(tokens, subjects, place, e)
  {
    assert subjects[..n][place] == subjects[place];
    assert forall j :: 0 <= j < place ==> subjects[..n][j] == subjects[j];
  }

  /** Every reported entity stands for a subject, in the order of the subjects. */
  lemma {:induction false} EntitiesStandFor(tokens: seq<string>, subjects: seq<Subject>) returns (places: seq<nat>)
    ensures |places| == |MatchTokens(tokens, subjects)|
    ensures forall k :: 0 <= k < |places| ==> StandsFor(tokens, subjects, places[k], MatchTokens(tokens, subjects)[k])
    ensures forall k, l :: 0 <= k < l < |places| ==> places[k] < places[l]
  {
    if subjects == [] {
      places := [];
    } else {
      var n := |subjects| - 1;
      var before := MatchTokens(tokens, subjects[..n]);
      places := EntitiesStandFor(tokens, subjects[..n]);
      forall k | 0 <= k < |places|
        ensures StandsFor(tokens, subjects, places[k], before[k])
      {
        StillStandsFor(tokens, subjects, n, places[k], before[k]);
      }
      var all := MatchTokens(tokens, subjects);
      if all != before {
        AddedStandsFor(tokens, subjects, before, all);
        places := places + [n];
      }
    }
  }

  lemma AddedStandsFor(tokens: seq<string>, subjects: seq<Subject>, before: seq<Entity>, all: seq<Entity>)
    requires subjects != [] && before == MatchTokens(tokens, subjects[..|subjects| - 1])
    requires all == MatchTokens(tokens, subjects) && all != before
    ensures |all| == |before| + 1 && all[..|before|] == before
    ensures StandsFor(tokens, subjects, |subjects| - 1, all[|before|])
  {
    var n := |subjects| - 1;
    AddedDescribes(tokens, subjects[n], before, all);
    NoneBeforeUnreported(tokens, subjects, n);
  }

  lemma AddedDescribes(tokens: seq<string>, s: Subject, before: seq<Entity>, all: seq<Entity>)
    requires all == AddEntity(before, s, CountOccurring(tokens, s, Dedupe(s.Names()))) && all != before
    ensures |all| == |before| + 1 && all[..|before|] == before && Describes(tokens, s, all[|before|])
    ensures all[|before|].id == s.Id() && !Reported(before, s.Id())
  {
    NameIsShown(s);
    CountIsHitCount(tokens, s, FieldsOf(s), |FieldsOf(s)|);
    assert FieldsOf(s)[..|FieldsOf(s)|] == s.Names();
  }

  lemma NoneBeforeUnreported(tokens: seq<string>, subjects: seq<Subject>, n: nat)
    requires n < |subjects| && !Reported(MatchTokens(tokens, subjects[..n]), subjects[n].Id())
    ensures NoneBefore(tokens, subjects, n, subjects[n].Id())
  {
    var id := subjects[n].Id();
    ReportedIffMentioned(tokens, subjects[..n], id);
    forall j | 0 <= j < n && FieldsOf(subjects[j])[0] == id
      ensures Hits(tokens, subjects[j]) == 0
    {
      UnmentionedHasNoHits(tokens, subjects[j]);
      assert subjects[..n][j] == subjects[j];
    }
  }

  lemma UnmentionedHasNoHits(tokens: seq<string>, s: Subject)
    ensures Hits(tokens, s) == 0 <==> !Mentioned(tokens, s)
  {
    CountIsHitCount(tokens, s, FieldsOf(s), |FieldsOf(s)|);
    assert FieldsOf(s)[..|FieldsOf(s)|] == s.Names();
    CountsWhenOccurring(tokens, s, Dedupe(s.Names()));
  }

  /** A character takes one byte up to U+007F, two up to U+07FF, three up to U+FFFF and four beyond, and a text takes
      those of its characters. */
  lemma {:induction false} BytesOfText(s: string, c: char)
    ensures ByteLength(s + [c]) == ByteLength(s) + ByteLength([c])
    ensures c as int <= 0x7F ==> ByteLength([c]) == 1
    ensures 0x7F < c as int <= 0x7FF ==> ByteLength([c]) == 2
    ensures 0x7FF < c as int <= 0xFFFF ==> ByteLength([c]) == 3
    ensures 0xFFFF < c as int ==> ByteLength([c]) == 4
    ensures ByteLength("") == 0
  {
    assert [c][1..] == "";
    if s == "" {
      assert s + [c] == [c];
    } else {
      BytesOfText(s[1..], c);
      assert (s + [c])[1..] == s[1..] + [c];
    }
  }
}
