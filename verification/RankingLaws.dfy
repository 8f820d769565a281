/** What a score is made of, in whole numbers and without the functions that compute it. */
module RankingLaws {
  import opened Arithmetic
  import opened Options
  import opened Utf16
  import opened Repetition
  import opened Ranking
  import opened RepetitionLaws

  function Within(value: int): int {
    Max(0, Min(100, value))
  }

  /** A score in hundredths, with halves rounded up, and the clarity counted in halves. */
  lemma ScoreLaw(impact: int, novelty: int, clarityHalves: int, safety: int, proof: int, boost: int, penalty: nat)
    ensures
      var clarity := clarityHalves as real / 2.0;
      var d := Dimensions(impact as real, novelty as real, clarity, safety as real, proof as real);
      var hundredths := 40 * impact + 10 * novelty + 10 * clarityHalves + 17 * safety + 15 * proof;
      ScoreOf(d, boost, penalty) == Within((hundredths + 50) / 100 + boost - (55 * penalty + 50) / 100)
  {
    var clarity := clarityHalves as real / 2.0;
    var d := Dimensions(impact as real, novelty as real, clarity, safety as real, proof as real);
    var hundredths := 40 * impact + 10 * novelty + 10 * clarityHalves + 17 * safety + 15 * proof;
    assert Weighted(d) + 0.5 == (hundredths + 50) as real / 100.0;
    FloorOfHundredths(hundredths + 50);
    assert penalty as real * 0.55 + 0.5 == (55 * penalty + 50) as real / 100.0;
    FloorOfHundredths(55 * penalty + 50);
  }

  lemma FloorOfHundredths(n: int)
    ensures (n as real / 100.0).Floor == n / 100
  {
    var q, r := n / 100, n % 100;
    assert n == 100 * q + r;
    assert n as real / 100.0 == q as real + r as real / 100.0;
    assert 0.0 <= r as real / 100.0 < 1.0;
  }

  // ----- The evidence -----

  /** The words of a text: its runs of letters a-z and digits. */
  lemma {:induction false} PiecesAreWords(text: Text, word: Text)
    requires IsPlainOrSpace(text)
    ensures forall t :: t != [] ==> (t in Pieces(text, word) <==> t in Words(text, word))
  {
    if text != [] {
      PlainIsNoSpace(text[0]);
      PiecesAreWords(text[1..], if IsPlain(text[0]) then word + [text[0]] else []);
    }
  }

  lemma {:induction false} KeptWords(text: Text, word: Text)
    ensures Words(KeepPlain(text), word) == Words(text, word)
  {
    if text != [] {
      PlainIsNoSpace(text[0]);
      PlainIsNoSpace(SPACE);
      KeptWords(text[1..], if IsPlain(text[0]) then word + [text[0]] else []);
      assert KeepPlain(text)[1..] == KeepPlain(text[1..]);
    }
  }

  lemma {:induction false} NoEmptyWord(text: Text, word: Text)
    ensures [] !in Words(text, word)
  {
    if text != [] {
      NoEmptyWord(text[1..], if IsPlain(text[0]) then word + [text[0]] else []);
    }
  }

  lemma TokensLaw(lower: Lowercase, value: Text)
    ensures RankingTokens(lower, value) == set t | t in Words(lower(value))
  {
    KeptIsPlainOrSpace(lower(value));
    PiecesAreWords(KeepPlain(lower(value)), []);
    KeptWords(lower(value), []);
    NoEmptyWord(lower(value), []);
    hide Words, Pieces, KeepPlain;
  }

  /** Without a claim of the given id its text is empty, and otherwise it is that of the last one. */
  ghost predicate IsTextOf(text: Text, claims: seq<Claim>, id: string) {
    || (text == [] && forall k :: 0 <= k < |claims| ==> claims[k].id != id)
    || exists k :: 0 <= k < |claims| && claims[k] == Claim(id, text) && forall j :: k < j < |claims| ==>
         claims[j].id != id
  }

  lemma {:induction false} ClaimLaw(claims: seq<Claim>, id: string)
    ensures IsTextOf(ClaimText(claims, id), claims, id)
  {
    if claims != [] {
      var n := |claims| - 1;
      if claims[n].id == id {
        assert claims[n] == Claim(id, claims[n].text);
      } else {
        ClaimLaw(claims[..n], id);
        assert forall k :: 0 <= k < n ==> claims[..n][k] == claims[k];
      }
    }
  }

  /** The evidence of a variant is the texts of the claims it cites, joined, or, when nothing remains of
      them, the two texts of the summary. */
  lemma {:induction false} CitedLaw(claims: seq<Claim>, ids: seq<string>, texts: seq<Text>)
    requires |texts| == |ids| && forall i :: 0 <= i < |ids| ==> IsTextOf(texts[i], claims, ids[i])
    ensures Cited(claims, ids) == Join(texts)
  {
    if ids != [] {
      ClaimLaw(claims, ids[0]);
      TextIsUnique(claims, ids[0], texts[0], ClaimText(claims, ids[0]));
      hide IsTextOf, ClaimText;
      CitedLaw(claims, ids[1..], texts[1..]);
    }
  }

  lemma TextIsUnique(claims: seq<Claim>, id: string, a: Text, b: Text)
    requires IsTextOf(a, claims, id) && IsTextOf(b, claims, id)
    ensures a == b
  {
  }

  // ----- The option -----

  /** A part of the text that neither begins nor ends with a space, between spaces only. */
  ghost predicate IsStripped(part: Text, text: Text) {
    exists i, j :: 0 <= i <= j <= |text| && IsCore(part, text, i, j)
  }

  predicate IsCore(part: Text, text: Text, i: nat, j: nat)
    requires i <= j <= |text|
  {
    && part == text[i..j] && (i < j ==> !IsSpace(text[i]) && !IsSpace(text[j - 1]))
    && (forall k :: 0 <= k < i ==> IsSpace(text[k])) && (forall k :: j <= k < |text| ==> IsSpace(text[k]))
  }

  lemma {:induction false} TrimLeftIs(text: Text) returns (i: nat)
    ensures i <= |text| && TrimLeft(text) == text[i..] && (forall k :: 0 <= k < i ==> IsSpace(text[k]))
    ensures i < |text| ==> !IsSpace(text[i])
  {
    i := 0;
    if text != [] && IsSpace(text[0]) {
      var n := TrimLeftIs(text[1..]);
      i := n + 1;
      assert forall k :: 0 < k < i ==> text[k] == text[1..][k - 1];
    }
  }

  lemma {:induction false} TrimRightIs(text: Text) returns (j: nat)
    ensures j <= |text| && TrimRight(text) == text[..j] && (forall k :: j <= k < |text| ==> IsSpace(text[k]))
    ensures j > 0 ==> !IsSpace(text[j - 1])
  {
    j := |text|;
    if text != [] && IsSpace(text[|text| - 1]) {
      var rest := text[..|text| - 1];
      j := TrimRightIs(rest);
      assert forall k :: 0 <= k < |rest| ==> text[k] == rest[k];
    }
  }

  lemma StripLaw(text: Text)
    ensures IsStripped(Strip(text), text)
  {
    var i := TrimLeftIs(text);
    var rest := text[i..];
    var j := TrimRightIs(rest);
    assert forall k :: 0 <= k < |rest| ==> rest[k] == text[i + k];
    assert rest[..j] == text[i..i + j];
    assert forall k :: i + j <= k < |text| ==> text[k] == rest[k - i];
    assert IsCore(Strip(text), text, i, i + j);
  }

  predicate HasEnrichment(ids: seq<string>) {
    exists k :: 0 <= k < |ids| && |ids[k]| >= 11 && ids[k][..11] == "enrichment."
  }

  lemma EnrichedLaw(ids: seq<string>)
    ensures IsEnriched(ids) <==> HasEnrichment(ids)
  {
  }

  /** What each dimension is made of, with the penalty of the option's own repetition. */
  lemma DimensionsLaw(subject: Subject, variant: Variant, penalty: nat)
    requires penalty <= 48
    ensures
      var content, ids := ContentOf(variant), variant.evidenceIds;
      var d := DimensionsOf(subject, variant, content, penalty);
      var v, length := variant.variant, Length(content);
      && d.novelty == ((if v == "founder_insight" then 74 else if v == "problem_solution" then 70
                        else if v == "customer_value" then 68 else 62) - penalty) as real
      && d.clarity == (if length <= 180 then 160 else 340 - length) as real / 2.0
      && d.safety == (if subject.summary.hasSafetyFlags then 55.0 else 92.0)
      && d.proof == ((if |ids| <= 3 then 40 + 10 * |ids| else 70) + (if HasEnrichment(ids) then 10 else 0)) as real
  {
    DimensionsStayInside(subject, variant, penalty);
    EnrichedLaw(variant.evidenceIds);
    hide ContentOf, Length, Coverage, IsEnriched, HasEnrichment;
  }

  /** The user impact is 45 and the rounded forty-fold share of the words that content and evidence have
      in common. */
  lemma ImpactLaw(subject: Subject, variant: Variant, content: Text, evidence: Text, penalty: nat)
    requires evidence == EvidenceText(subject.summary, variant.evidenceIds)
    ensures
      var lower := subject.language.lower;
      var a, b := set t | t in Words(lower(content)), set t | t in Words(lower(evidence));
      var smaller := if |a| <= |b| then |a| else |b|;
      DimensionsOf(subject, variant, content, penalty).userImpact
        == (45 + if smaller == 0 then 0 else (80 * |a * b| + smaller) / (2 * smaller)) as real
  {
    hide RankingTokens, Words, EvidenceText, Length, Overlap;
    var lower := subject.language.lower;
    TokensLaw(lower, content);
    TokensLaw(lower, evidence);
    var a, b := RankingTokens(lower, content), RankingTokens(lower, evidence);
    OverlapIsARatio(a, b);
    RoundedOverlap(a, b);
  }

  lemma RoundedOverlap<T>(a: set<T>, b: set<T>)
    ensures var smaller := if |a| <= |b| then |a| else |b|;
      JsRound(Overlap(a, b) * 40.0) == if smaller == 0 then 0 else (80 * |a * b| + smaller) / (2 * smaller)
  {
    OverlapLaw(a, b);
    var d := if |a| <= |b| then |a| else |b|;
    if d > 0 { RoundedRatio(Overlap(a, b), |a * b|, d); }
  }

  lemma RoundedRatio(ratio: real, n: nat, d: nat)
    requires d > 0 && ratio * d as real == n as real
    ensures JsRound(ratio * 40.0) == (80 * n + d) / (2 * d)
  {
    var m, k := 80 * n + d, 2 * d;
    var q, r := m / k, m % k;
    assert m == q * k + r;
    var y := ratio * 40.0 + 0.5 - q as real;
    calc {
      y * k as real;
      80.0 * (ratio * d as real) + d as real - q as real * k as real;
      m as real - (q * k) as real;
      r as real;
    }
    BelowOne(y, k as real, r as real);
  }

  lemma BelowOne(y: real, k: real, r: real)
    requires y * k == r && 0.0 <= r < k
    ensures 0.0 <= y < 1.0
  {
  }

  lemma EvidenceLaw(summary: Summary, ids: seq<string>, texts: seq<Text>)
    requires |texts| == |ids| && forall i :: 0 <= i < |ids| ==> IsTextOf(texts[i], summary.supportedClaims, ids[i])
    ensures EvidenceText(summary, ids) ==
      if Join(texts) != [] then Join(texts) else Join([summary.publicSummary, summary.userBenefit])
  {
    CitedLaw(summary.supportedClaims, ids, texts);
    hide Cited, IsTextOf;
    assert Join([summary.userBenefit]) == summary.userBenefit;
    assert [summary.publicSummary, summary.userBenefit][1..] == [summary.userBenefit];
  }

  /** The boost adds what the variant, the angle, the vague words and the concrete words are worth. */
  lemma BoostLaw(subject: Subject, variant: Variant, content: Text)
    ensures
      var byVariant := map["customer_value" := 8, "problem_solution" := 5, "soft_launch_cta" := 2];
      var byAngle := map["user_benefit" := 8, "problem_solved" := 4];
      var v, a := variant.variant, variant.angle;
      Boost(subject, variant, content)
        == (if v in byVariant then byVariant[v] else 0)
           + (if a in byAngle then byAngle[a] else 0)
           + (if a == "shipping_update" && subject.eventType != "release" then -6 else 0)
           + (if subject.language.isVague(content) then -4 else 0)
           + (if subject.language.isConcrete(content) then 4 else 0)
  {
  }

  /** An option keeps the variant's fields, has the stripped content cut to 280 units, and carries a note
      with the penalty and the reasons exactly if there is a reason; its score is that of its dimensions. */
  lemma OptionLaw(subject: Subject, variant: Variant, memory: Option<ContentMemory>, o: TweetOption)
    requires IsOptionFor(subject, variant, memory, o)
    ensures exists part :: IsStripped(part, variant.content) && o.content == Slice(part, 280)
    ensures o.angle == variant.angle && o.variant == variant.variant
    ensures o.evidenceIds == variant.evidenceIds && o.rationale == variant.rationale
    ensures exists r: RepetitionResult ::
      && IsRepetitionOf(subject.language.lower, o.content, variant.angle, memory, r)
      && (o.note == if r.reasons == [] then None else Some(Note(r.penalty, r.reasons)))
      && o.dimensions == DimensionsOf(subject, variant, o.content, r.penalty)
      && o.score == ScoreOf(o.dimensions, Boost(subject, variant, o.content), r.penalty)
  {
    StripLaw(variant.content);
    hide IsRepetitionOf, Slice, Strip, IsStripped, DimensionsOf, ScoreOf, Boost;
  }
}
