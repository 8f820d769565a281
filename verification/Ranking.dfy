/** Ranking the generated variants: app/modules/drafts/policies/ranking.py. Scores are exact reals.
    What the patterns of the language find in a text is a parameter. */
module Ranking {
  import opened Arithmetic
  import opened Options
  import opened Utf16
  import opened Repetition

  datatype Language = Language(lower: Lowercase, isVague: Text -> bool, isConcrete: Text -> bool)

  datatype Variant =
    Variant(variant: string, angle: string, content: Text, rationale: string, evidenceIds: seq<string>)

  datatype Claim = Claim(id: string, text: Text)

  datatype Summary = Summary(publicSummary: Text, userBenefit: Text, hasSafetyFlags: bool, supportedClaims: seq<Claim>)

  /** All that the ranker is given besides the variants and the memory. */
  datatype Subject = Subject(language: Language, eventType: string, summary: Summary)

  datatype Dimensions = Dimensions(userImpact: real, novelty: real, clarity: real, safety: real, proof: real)

  datatype Note = Note(penalty: nat, reasons: seq<Reason>)

  datatype TweetOption = TweetOption(
    content: Text, rank: nat, score: int, rationale: string, note: Option<Note>, angle: string, variant: string,
    evidenceIds: seq<string>, dimensions: Dimensions)

  // ----- Arithmetic -----

  function Clamp(value: real): real {
    if value < 0.0 then 0.0 else if value > 100.0 then 100.0 else value
  }

  function JsRound(value: real): int {
    (value + 0.5).Floor
  }

  // ----- Evidence -----

  /** Of several claims with one id the last one stands. */
  function ClaimText(claims: seq<Claim>, id: string): Text {
    if claims == [] then []
    else if claims[|claims| - 1].id == id then claims[|claims| - 1].text
    else ClaimText(claims[..|claims| - 1], id)
  }

  /** The cited claims, joined with spaces; an unknown one leaves an empty place. */
  function Cited(claims: seq<Claim>, ids: seq<string>): Text {
    if ids == [] then []
    else if |ids| == 1 then ClaimText(claims, ids[0])
    else ClaimText(claims, ids[0]) + [SPACE] + Cited(claims, ids[1..])
  }

  function EvidenceText(summary: Summary, ids: seq<string>): Text {
    var cited := Cited(summary.supportedClaims, ids);
    if cited != [] then cited else summary.publicSummary + [SPACE] + summary.userBenefit
  }

  function RankingTokens(lower: Lowercase, value: Text): set<Text> {
    set t | t in Pieces(KeepPlain(lower(value))) && t != []
  }

  function Coverage(lower: Lowercase, content: Text, evidence: Text): real {
    Overlap(RankingTokens(lower, content), RankingTokens(lower, evidence))
  }

  // ----- Scores -----

  function NoveltyBase(variant: string): int {
    if variant == "founder_insight" then 74
    else if variant == "problem_solution" then 70
    else if variant == "customer_value" then 68
    else 62
  }

  predicate IsEnriched(ids: seq<string>) {
    exists i :: 0 <= i < |ids| && "enrichment." <= ids[i]
  }

  function DimensionsOf(subject: Subject, variant: Variant, content: Text, penalty: nat): Dimensions {
    var coverage := Coverage(subject.language.lower, content, EvidenceText(subject.summary, variant.evidenceIds));
    Dimensions(
      Clamp((45 + JsRound(coverage * 40.0)) as real),
      Clamp((NoveltyBase(variant.variant) - penalty) as real),
      Clamp(80.0 - Max(0, Length(content) - 180) as real / 2.0),
      Clamp(if subject.summary.hasSafetyFlags then 55.0 else 92.0),
      Clamp((40 + Min(30, |variant.evidenceIds| * 10) + if IsEnriched(variant.evidenceIds) then 10 else 0) as real))
  }

  function Weighted(d: Dimensions): real {
    d.userImpact * 0.4 + d.novelty * 0.1 + d.clarity * 0.2 + d.safety * 0.17 + d.proof * 0.15
  }

  function ScoreOf(d: Dimensions, boost: int, penalty: nat): int {
    var score := JsRound(Weighted(d)) + boost - JsRound(penalty as real * 0.55);
    if score < 0 then 0 else if score > 100 then 100 else score
  }

  function VariantBoost(variant: string): int {
    if variant == "customer_value" then 8
    else if variant == "problem_solution" then 5
    else if variant == "soft_launch_cta" then 2
    else 0
  }

  function AngleBoost(angle: string, eventType: string): int {
    if angle == "user_benefit" then 8
    else if angle == "problem_solved" then 4
    else if angle == "shipping_update" && eventType != "release" then -6
    else 0
  }

  function Boost(subject: Subject, variant: Variant, content: Text): int {
    VariantBoost(variant.variant) + AngleBoost(variant.angle, subject.eventType)
    - (if subject.language.isVague(content) then 4 else 0)
    + (if subject.language.isConcrete(content) then 4 else 0)
  }

  method ValueBoost(subject: Subject, variant: Variant, content: Text) returns (boost: int)
    ensures boost == Boost(subject, variant, content)
    ensures -10 <= boost <= 20
  {
    boost := 0;
    if variant.variant == "customer_value" {
      boost := boost + 8;
    } else if variant.variant == "problem_solution" {
      boost := boost + 5;
    } else if variant.variant == "soft_launch_cta" {
      boost := boost + 2;
    }
    if variant.angle == "user_benefit" {
      boost := boost + 8;
    } else if variant.angle == "problem_solved" {
      boost := boost + 4;
    } else if variant.angle == "shipping_update" && subject.eventType != "release" {
      boost := boost - 6;
    }
    if subject.language.isVague(content) {
      boost := boost - 4;
    }
    if subject.language.isConcrete(content) {
      boost := boost + 4;
    }
  }

  // ----- Options -----

  function ContentOf(variant: Variant): Text {
    Slice(Strip(variant.content), 280)
  }

  function OptionFor(subject: Subject, variant: Variant, r: RepetitionResult): TweetOption {
    var content := ContentOf(variant);
    var d := DimensionsOf(subject, variant, content, r.penalty);
    TweetOption(content, 0, ScoreOf(d, Boost(subject, variant, content), r.penalty), variant.rationale,
                if r.reasons != [] then Some(Note(r.penalty, r.reasons)) else None,
                variant.angle, variant.variant, variant.evidenceIds, d)
  }

  /** The option made of a variant before the options are sorted. */
  ghost predicate IsOptionFor(subject: Subject, variant: Variant, memory: Option<ContentMemory>, o: TweetOption) {
    exists r :: IsRepetitionOf(subject.language.lower, ContentOf(variant), variant.angle, memory, r)
      && o == OptionFor(subject, variant, r)
  }

  /** The weighted sum of dimensions that stay inside their bounds without being clamped. */
  lemma DimensionsStayInside(subject: Subject, variant: Variant, penalty: nat)
    requires penalty <= 48
    ensures var d := DimensionsOf(subject, variant, ContentOf(variant), penalty);
      && 45.0 <= d.userImpact <= 85.0 && 14.0 <= d.novelty <= 74.0 && 30.0 <= d.clarity <= 80.0
      && (d.safety == 55.0 || d.safety == 92.0) && 40.0 <= d.proof <= 80.0
      && d.novelty == (NoveltyBase(variant.variant) - penalty) as real
      && d.clarity == 80.0 - Max(0, Length(ContentOf(variant)) - 180) as real / 2.0
  {
    var content := ContentOf(variant);
    hide Overlap, Slice, Length, Strip, RankingTokens, EvidenceText, IsEnriched;
    SliceLength(Strip(variant.content), 280);
    OverlapIsARatio(RankingTokens(subject.language.lower, content),
                    RankingTokens(subject.language.lower, EvidenceText(subject.summary, variant.evidenceIds)));
  }

  /** Every score lies in 5..100: the lower clamp never binds. */
  lemma ScoreRange(subject: Subject, variant: Variant, memory: Option<ContentMemory>, o: TweetOption)
    requires IsOptionFor(subject, variant, memory, o)
    ensures 5 <= o.score <= 100
    ensures Length(o.content) <= 280
  {
    hide IsRepetitionOf, ContentOf, DimensionsOf, VariantBoost, AngleBoost, Length;
    var r :| IsRepetitionOf(subject.language.lower, ContentOf(variant), variant.angle, memory, r)
      && o == OptionFor(subject, variant, r);
    PenaltyRange(subject.language.lower, ContentOf(variant), variant.angle, memory, r);
    DimensionsStayInside(subject, variant, r.penalty);
    BoostRange(subject, variant);
    ContentFits(variant);
  }

  lemma BoostRange(subject: Subject, variant: Variant)
    ensures -10 <= Boost(subject, variant, ContentOf(variant)) <= 20
  {
    hide ContentOf;
  }

  lemma ContentFits(variant: Variant)
    ensures Length(ContentOf(variant)) <= 280
  {
    hide Slice, Strip, Length;
    SliceLength(Strip(variant.content), 280);
  }

  /** Remembering more changes only the novelty, the score and the note, and never raises a score. */
  lemma MoreMemoryNeverRaisesTheScore(subject: Subject, variant: Variant, memory: Option<ContentMemory>,
                                      more: Option<ContentMemory>, o: TweetOption, p: TweetOption)
    requires Extends(more, memory)
    requires IsOptionFor(subject, variant, memory, o) && IsOptionFor(subject, variant, more, p)
    ensures p.score <= o.score && p.dimensions.novelty <= o.dimensions.novelty
    ensures p == o.(score := p.score, note := p.note, dimensions := o.dimensions.(novelty := p.dimensions.novelty))
  {
    hide IsRepetitionOf, ContentOf, Boost, Coverage, Length, Extends, IsEnriched;
    var content := ContentOf(variant);
    var r :| IsRepetitionOf(subject.language.lower, content, variant.angle, memory, r)
      && o == OptionFor(subject, variant, r);
    var s :| IsRepetitionOf(subject.language.lower, content, variant.angle, more, s)
      && p == OptionFor(subject, variant, s);
    MoreMemoryNeverLowersThePenalty(subject.language.lower, content, variant.angle, memory, more, r, s);
  }

  lemma OptionIsDetermined(subject: Subject, variant: Variant, memory: Option<ContentMemory>,
                           o: TweetOption, p: TweetOption)
    requires IsOptionFor(subject, variant, memory, o) && IsOptionFor(subject, variant, memory, p)
    ensures o == p
  {
    hide IsRepetitionOf, ContentOf, OptionFor;
    var content := ContentOf(variant);
    var r :| IsRepetitionOf(subject.language.lower, content, variant.angle, memory, r)
      && o == OptionFor(subject, variant, r);
    var s :| IsRepetitionOf(subject.language.lower, content, variant.angle, memory, s)
      && p == OptionFor(subject, variant, s);
    RepetitionIsDetermined(subject.language.lower, content, variant.angle, memory, r, s);
  }

  // ----- The stable descending sort -----

  predicate Precedes(options: seq<TweetOption>, a: nat, b: nat)
    requires a < |options| && b < |options|
  {
    options[a].score > options[b].score || (options[a].score == options[b].score && a < b)
  }

  /** `places` lists every index once, higher scores first and equal scores in their old order. */
  ghost predicate IsStableOrder(options: seq<TweetOption>, places: seq<nat>) {
    && |places| == |options|
    && (forall i :: 0 <= i < |places| ==> places[i] < |options|)
    && (forall v :: 0 <= v < |options| ==> v in places)
    && (forall i, j :: 0 <= i < j < |places| ==> Precedes(options, places[i], places[j]))
  }

  ghost predicate IsListing(options: seq<TweetOption>, places: seq<nat>, sorted: seq<TweetOption>) {
    && IsStableOrder(options, places) && |sorted| == |options|
    && forall i :: 0 <= i < |sorted| ==> sorted[i] == options[places[i]]
  }

  lemma StrictOrder(options: seq<TweetOption>, places: seq<nat>, a: nat, b: nat)
    requires IsStableOrder(options, places) && a < |places| && b < |places|
    ensures Precedes(options, places[a], places[b]) <==> a < b
  {
    assert b < a ==> Precedes(options, places[b], places[a]);
  }

  lemma PlaceOf(options: seq<TweetOption>, places: seq<nat>, v: nat) returns (i: nat)
    requires IsStableOrder(options, places) && v < |options|
    ensures i < |places| && places[i] == v
  {
    assert v in places;
    i :| 0 <= i < |places| && places[i] == v;
  }

  lemma {:induction false} OrdersAgree(options: seq<TweetOption>, p: seq<nat>, q: seq<nat>, k: nat)
    requires IsStableOrder(options, p) && IsStableOrder(options, q) && k <= |options|
    ensures forall i :: 0 <= i < k ==> p[i] == q[i]
  {
    if k > 0 {
      OrdersAgree(options, p, q, k - 1);
      var i, j := PlaceOfOther(options, p, q, k - 1);
      StrictOrder(options, p, k - 1, i);
      StrictOrder(options, q, k - 1, j);
      StrictOrder(options, q, i, k - 1);
      StrictOrder(options, p, j, k - 1);
    }
  }

  lemma PlaceOfOther(options: seq<TweetOption>, p: seq<nat>, q: seq<nat>, k: nat) returns (i: nat, j: nat)
    requires IsStableOrder(options, p) && IsStableOrder(options, q) && k < |options|
    ensures i < |p| && p[i] == q[k] && j < |q| && q[j] == p[k]
  {
    i := PlaceOf(options, p, q[k]);
    j := PlaceOf(options, q, p[k]);
  }

  /** There is only one stable descending order, and every sort that is one yields the same. */
  lemma StableOrderIsUnique(options: seq<TweetOption>, p: seq<nat>, q: seq<nat>,
                            sorted: seq<TweetOption>, other: seq<TweetOption>)
    requires IsListing(options, p, sorted) && IsListing(options, q, other)
    ensures p == q && sorted == other
  {
    OrdersAgree(options, p, q, |options|);
  }

  /** Put `x` behind everything that scores at least as much. */
  method Insert(sorted: seq<TweetOption>, x: TweetOption) returns (k: nat)
    requires forall i, j :: 0 <= i < j < |sorted| ==> sorted[i].score >= sorted[j].score
    ensures k <= |sorted|
    ensures forall i :: 0 <= i < k ==> sorted[i].score >= x.score
    ensures forall i :: k <= i < |sorted| ==> sorted[i].score < x.score
  {
    k := |sorted|;
    while k > 0 && sorted[k - 1].score < x.score
      invariant k <= |sorted|
      invariant forall i :: k <= i < |sorted| ==> sorted[i].score < x.score
    {
      k := k - 1;
    }
  }

  lemma InsertKeepsOrder(options: seq<TweetOption>, n: nat, p: seq<nat>, k: nat)
    requires n < |options| && IsStableOrder(options[..n], p) && k <= n
    requires forall i :: 0 <= i < k ==> options[p[i]].score >= options[n].score
    requires forall i :: k <= i < n ==> options[p[i]].score < options[n].score
    ensures IsStableOrder(options[..n + 1], p[..k] + [n] + p[k..])
  {
    var q := p[..k] + [n] + p[k..];
    var before, now := options[..n], options[..n + 1];
    forall v | 0 <= v < n + 1 ensures v in q {
      if v == n {
        assert q[k] == n;
      } else {
        assert v in p;
        var i :| 0 <= i < n && p[i] == v;
        assert q[if i < k then i else i + 1] == v;
      }
    }
    forall i, j | 0 <= i < j < n + 1 ensures Precedes(now, q[i], q[j]) {
      if i != k && j != k {
        assert Precedes(before, p[if i < k then i else i - 1], p[if j < k then j else j - 1]);
      }
    }
  }

  method SortByScore(options: seq<TweetOption>) returns (sorted: seq<TweetOption>, ghost places: seq<nat>)
    ensures IsListing(options, places, sorted)
  {
    hide IsStableOrder;
    sorted, places := [], [];
    NothingIsOrdered(options);
    for n := 0 to |options|
      invariant |sorted| == |places| == n && IsStableOrder(options[..n], places)
      invariant forall i :: 0 <= i < n ==> places[i] < n && sorted[i] == options[places[i]]
    {
      ScoresDescend(options[..n], places);
      var k := Insert(sorted, options[n]);
      InsertKeepsOrder(options, n, places, k);
      sorted := sorted[..k] + [options[n]] + sorted[k..];
      places := places[..k] + [n] + places[k..];
    }
    assert options[..|options|] == options;
  }

  lemma NothingIsOrdered(options: seq<TweetOption>)
    ensures IsStableOrder(options[..0], [])
  {
  }

  lemma ScoresDescend(options: seq<TweetOption>, places: seq<nat>)
    requires IsStableOrder(options, places)
    ensures |places| == |options| && forall i :: 0 <= i < |places| ==> places[i] < |options|
    ensures forall i, j :: 0 <= i < j < |places| ==> options[places[i]].score >= options[places[j]].score
  {
    assert forall i, j :: 0 <= i < j < |places| ==> Precedes(options, places[i], places[j]);
  }

  // ----- The ranking -----

  /** The options of the variants in the stable descending order, numbered from 1. */
  ghost predicate IsRanking(subject: Subject, variants: seq<Variant>, memory: Option<ContentMemory>,
                            provisional: seq<TweetOption>, places: seq<nat>, ranked: seq<TweetOption>)
  {
    && |provisional| == |variants| == |ranked|
    && (forall i :: 0 <= i < |variants| ==> IsOptionFor(subject, variants[i], memory, provisional[i]))
    && IsStableOrder(provisional, places)
    && (forall i :: 0 <= i < |ranked| ==> ranked[i] == provisional[places[i]].(rank := i + 1))
  }

  ghost predicate IsRanked(subject: Subject, variants: seq<Variant>, memory: Option<ContentMemory>,
                           ranked: seq<TweetOption>)
  {
    exists provisional, places :: IsRanking(subject, variants, memory, provisional, places, ranked)
  }

  class TweetOptionRanker {
    constructor () {
    }

    method Rank(subject: Subject, variants: seq<Variant>, memory: Option<ContentMemory>)
      returns (ranked: seq<TweetOption>)
      ensures IsRanked(subject, variants, memory, ranked)
    {
      hide IsOptionFor, IsStableOrder;
      var provisional: seq<TweetOption> := [];
      for i := 0 to |variants|
        invariant |provisional| == i
        invariant forall k :: 0 <= k < i ==> IsOptionFor(subject, variants[k], memory, provisional[k])
      {
        var o := Assess(subject, variants[i], memory);
        provisional := provisional + [o];
      }
      var sorted, places := SortByScore(provisional);
      ranked := [];
      for index := 0 to |sorted|
        invariant |ranked| == index
        invariant forall k :: 0 <= k < index ==> ranked[k] == sorted[k].(rank := k + 1)
      {
        ranked := ranked + [sorted[index].(rank := index + 1)];
      }
      assert IsRanking(subject, variants, memory, provisional, places, ranked);
    }

    /** The body of the loop over the variants. */
    method Assess(subject: Subject, variant: Variant, memory: Option<ContentMemory>) returns (o: TweetOption)
      ensures IsOptionFor(subject, variant, memory, o)
    {
      hide IsRepetitionOf, Boost, DimensionsOf, ScoreOf;
      var content := Slice(Strip(variant.content), 280);
      var repetition := DetectRepetition(subject.language.lower, content, variant.angle, memory);
      var d := DimensionsOf(subject, variant, content, repetition.penalty);
      var boost := ValueBoost(subject, variant, content);
      var score := ScoreOf(d, boost, repetition.penalty);
      var note := None;
      if repetition.reasons != [] {
        note := Some(Note(repetition.penalty, repetition.reasons));
      }
      o := TweetOption(content, 0, score, variant.rationale, note, variant.angle, variant.variant,
                       variant.evidenceIds, d);
      assert o == OptionFor(subject, variant, repetition);
    }
  }

  /** A ranking numbers its options 1..n by descending score, each within its bounds, and holds each
      variant exactly once. */
  lemma RankingIsOrdered(subject: Subject, variants: seq<Variant>, memory: Option<ContentMemory>,
                         provisional: seq<TweetOption>, places: seq<nat>, ranked: seq<TweetOption>)
    requires IsRanking(subject, variants, memory, provisional, places, ranked)
    ensures |ranked| == |variants|
    ensures forall i :: 0 <= i < |ranked| ==>
      ranked[i].rank == i + 1 && 5 <= ranked[i].score <= 100 && Length(ranked[i].content) <= 280
    ensures forall i, j :: 0 <= i < j < |ranked| ==>
      ranked[i].score > ranked[j].score || (ranked[i].score == ranked[j].score && places[i] < places[j])
    ensures forall v :: 0 <= v < |variants| ==> v in places
    ensures forall i, j :: 0 <= i < j < |places| ==> places[i] != places[j]
  {
    hide IsOptionFor, Length;
    forall i | 0 <= i < |ranked|
      ensures ranked[i].rank == i + 1 && 5 <= ranked[i].score <= 100 && Length(ranked[i].content) <= 280
    {
      ScoreRange(subject, variants[places[i]], memory, provisional[places[i]]);
    }
    forall i, j | 0 <= i < j < |ranked|
      ensures ranked[i].score > ranked[j].score || (ranked[i].score == ranked[j].score && places[i] < places[j])
    {
      assert Precedes(provisional, places[i], places[j]);
    }
  }

  /** The inputs determine the ranking. */
  lemma RankingIsDetermined(subject: Subject, variants: seq<Variant>, memory: Option<ContentMemory>,
                            r: seq<TweetOption>, s: seq<TweetOption>)
    requires IsRanked(subject, variants, memory, r) && IsRanked(subject, variants, memory, s)
    ensures r == s
  {
    hide IsOptionFor, IsStableOrder;
    var a, p :| IsRanking(subject, variants, memory, a, p, r);
    var b, q :| IsRanking(subject, variants, memory, b, q, s);
    forall i | 0 <= i < |variants| ensures a[i] == b[i] {
      OptionIsDetermined(subject, variants[i], memory, a[i], b[i]);
    }
    assert a == b;
    SameOrder(a, p, q);
  }

  lemma SameOrder(options: seq<TweetOption>, p: seq<nat>, q: seq<nat>)
    requires IsStableOrder(options, p) && IsStableOrder(options, q)
    ensures p == q && |p| == |options|
  {
    OrdersAgree(options, p, q, |options|);
  }
}
