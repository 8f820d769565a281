/** How close a candidate text is to what was approved before:
    app/modules/drafts/detectors/repetition_detector.py. Ratios are reals; the lowercasing of the
    runtime is the parameter `lower`. */
module Repetition {
  import opened Arithmetic
  import opened Options
  import opened Utf16

  const SPACE: CodePoint := 0x20

  // ----- Normal form -----

  predicate IsPlain(c: CodePoint) {
    0x61 <= c <= 0x7A || 0x30 <= c <= 0x39
  }

  /** What the pattern `\s` matches. */
  predicate IsSpace(c: CodePoint) {
    || 0x09 <= c <= 0x0D || 0x1C <= c <= 0x20 || c == 0x85 || c == 0xA0 || c == 0x1680
    || 0x2000 <= c <= 0x200A || c == 0x2028 || c == 0x2029 || c == 0x202F || c == 0x205F || c == 0x3000
  }

  predicate StartsWith(text: Text, s: string) {
    |s| <= |text| && forall i :: 0 <= i < |s| ==> text[i] == s[i] as int
  }

  /** The length of the link scheme the text starts with, or 0. */
  function SchemeLength(text: Text): (n: nat)
    ensures n <= |text|
  {
    if StartsWith(text, "https://") then 8 else if StartsWith(text, "http://") then 7 else 0
  }

  predicate StartsLink(text: Text) {
    var n := SchemeLength(text);
    0 < n < |text| && !IsSpace(text[n])
  }

  /** Every link, that is a scheme and at least one more character up to the next space, becomes
      a space. Inside a link everything up to the next space is left out. */
  function RemoveLinks(text: Text, inLink: bool := false): Text {
    if text == [] then []
    else if inLink && !IsSpace(text[0]) then RemoveLinks(text[1..], true)
    else if StartsLink(text) then [SPACE] + RemoveLinks(text[1..], true)
    else [text[0]] + RemoveLinks(text[1..])
  }

  function KeepPlain(text: Text): Text {
    seq(|text|, i requires 0 <= i < |text| => if IsPlain(text[i]) || IsSpace(text[i]) then text[i] else SPACE)
  }

  /** Every run of spaces becomes one space. */
  function Collapse(text: Text): Text {
    if text == [] then []
    else if IsSpace(text[0]) && |text| > 1 && IsSpace(text[1]) then Collapse(text[1..])
    else [if IsSpace(text[0]) then SPACE else text[0]] + Collapse(text[1..])
  }

  function TrimLeft(text: Text): Text {
    if text != [] && IsSpace(text[0]) then TrimLeft(text[1..]) else text
  }

  function TrimRight(text: Text): Text {
    if text != [] && IsSpace(text[|text| - 1]) then TrimRight(text[..|text| - 1]) else text
  }

  function Strip(text: Text): Text {
    TrimRight(TrimLeft(text))
  }

  type Lowercase = Text -> Text

  function NormalizeContent(lower: Lowercase, value: Text): Text {
    Strip(Collapse(KeepPlain(RemoveLinks(lower(value)))))
  }

  ghost predicate IsSpaced(text: Text) {
    && (forall i :: 0 <= i < |text| ==> IsPlain(text[i]) || text[i] == SPACE)
    && (forall i :: 0 <= i < |text| - 1 && text[i] == SPACE ==> text[i + 1] != SPACE)
  }

  /** Words of plain characters, one space between any two. */
  ghost predicate IsNormal(text: Text) {
    && IsSpaced(text)
    && (text != [] ==> text[0] != SPACE && text[|text| - 1] != SPACE)
  }

  /** All that is assumed of lowercasing. */
  ghost predicate LeavesPlainAlone(lower: Lowercase) {
    forall text: Text ::
      (forall i :: 0 <= i < |text| ==> IsPlain(text[i]) || text[i] == SPACE) ==> lower(text) == text
  }

  lemma {:induction false} CollapseIsSpaced(text: Text)
    requires forall i :: 0 <= i < |text| ==> IsPlain(text[i]) || IsSpace(text[i])
    ensures IsSpaced(Collapse(text))
    ensures text != [] ==> Collapse(text) != [] && (IsSpace(Collapse(text)[0]) <==> IsSpace(text[0]))
  {
    if text != [] {
      CollapseIsSpaced(text[1..]);
    }
  }

  /** Normalizing yields a normal form, whatever lowercasing does. */
  lemma NormalizeIsNormal(lower: Lowercase, value: Text)
    ensures IsNormal(NormalizeContent(lower, value))
  {
    var kept := KeepPlain(RemoveLinks(lower(value)));
    CollapseIsSpaced(kept);
    var spaced := Collapse(kept);
    var left := TrimLeft(spaced);
    StrippedIsNormal(spaced, left, TrimRight(left));
  }

  lemma {:induction false} TrimLeftIsASuffix(text: Text)
    ensures |TrimLeft(text)| <= |text| && TrimLeft(text) == text[|text| - |TrimLeft(text)|..]
    ensures TrimLeft(text) != [] ==> !IsSpace(TrimLeft(text)[0])
  {
    if text != [] && IsSpace(text[0]) {
      TrimLeftIsASuffix(text[1..]);
    }
  }

  lemma {:induction false} TrimRightIsAPrefix(text: Text)
    ensures |TrimRight(text)| <= |text| && TrimRight(text) == text[..|TrimRight(text)|]
    ensures TrimRight(text) != [] ==> !IsSpace(TrimRight(text)[|TrimRight(text)| - 1])
  {
    if text != [] && IsSpace(text[|text| - 1]) {
      TrimRightIsAPrefix(text[..|text| - 1]);
    }
  }

  lemma StrippedIsNormal(spaced: Text, left: Text, r: Text)
    requires IsSpaced(spaced) && left == TrimLeft(spaced) && r == TrimRight(left)
    ensures IsNormal(r)
  {
    hide TrimLeft, TrimRight;
    TrimLeftIsASuffix(spaced);
    TrimRightIsAPrefix(left);
    var k := |spaced| - |left|;
    PartIsSpaced(spaced, k, k + |r|);
    assert r == spaced[k..k + |r|];
    assert r != [] ==> left[0] == r[0];
  }

  lemma PartIsSpaced(text: Text, from: nat, to: nat)
    requires IsSpaced(text) && from <= to <= |text|
    ensures IsSpaced(text[from..to])
  {
    var part := text[from..to];
    forall i | 0 <= i < |part| - 1 && part[i] == SPACE ensures part[i + 1] != SPACE {
      assert text[from + i] == SPACE;
    }
  }

  lemma {:induction false} CollapseFixes(text: Text)
    requires IsSpaced(text)
    ensures Collapse(text) == text
  {
    if text != [] {
      assert forall i :: 0 <= i < |text[1..]| ==> text[1..][i] == text[i + 1];
      CollapseFixes(text[1..]);
    }
  }

  lemma SchemeHasColon(text: Text)
    ensures SchemeLength(text) > 0 ==> exists i :: 0 <= i < |text| && text[i] == 0x3A
  {
    if SchemeLength(text) > 0 {
      assert text[SchemeLength(text) - 3] == ':' as int;
    }
  }

  lemma {:induction false} RemoveLinksFixes(text: Text)
    requires forall i :: 0 <= i < |text| ==> IsPlain(text[i]) || text[i] == SPACE
    ensures RemoveLinks(text) == text
  {
    if text != [] {
      SchemeHasColon(text);
      RemoveLinksFixes(text[1..]);
    }
  }

  /** The normal forms are exactly the texts that normalizing leaves unchanged. */
  lemma NormalFormsAreTheFixedPoints(lower: Lowercase, text: Text)
    requires LeavesPlainAlone(lower)
    ensures NormalizeContent(lower, text) == text <==> IsNormal(text)
  {
    hide RemoveLinks, KeepPlain, Collapse, Strip;
    NormalizeIsNormal(lower, text);
    if IsNormal(text) {
      assert lower(text) == text;
      RemoveLinksFixes(text);
      KeepPlainFixes(text);
      CollapseFixes(text);
      StripFixes(text);
    }
  }

  lemma KeepPlainFixes(text: Text)
    requires IsSpaced(text)
    ensures KeepPlain(text) == text
  {
  }

  lemma StripFixes(text: Text)
    requires IsNormal(text)
    ensures Strip(text) == text
  {
  }

  lemma NormalizeIsIdempotent(lower: Lowercase, value: Text)
    requires LeavesPlainAlone(lower)
    ensures NormalizeContent(lower, NormalizeContent(lower, value)) == NormalizeContent(lower, value)
  {
    NormalizeIsNormal(lower, value);
    NormalFormsAreTheFixedPoints(lower, NormalizeContent(lower, value));
  }

  // ----- Similarity -----

  const STOP_WORDS := {"a", "an", "and", "are", "as", "at", "be", "but", "for", "from", "in", "is", "it", "of",
                       "on", "or", "our", "that", "the", "this", "to", "we", "with", "you"}

  /** The pieces between any two spaces, empty ones included. */
  function Pieces(text: Text, piece: Text := []): seq<Text> {
    if text == [] then [piece]
    else if IsSpace(text[0]) then [piece] + Pieces(text[1..])
    else Pieces(text[1..], piece + [text[0]])
  }

  /** The word as a string; a character that is in no stop word shows as '?'. */
  function Spelling(t: Text): string {
    seq(|t|, i requires 0 <= i < |t| => if IsPlain(t[i]) then t[i] as char else '?')
  }

  function WordsOf(text: Text): set<Text> {
    set t | t in Pieces(text) && |t| > 2 && Spelling(t) !in STOP_WORDS
  }

  function Tokens(lower: Lowercase, value: Text): set<Text> {
    WordsOf(NormalizeContent(lower, value))
  }

  /** The shared part of the smaller set. */
  function Overlap<T(==)>(source: set<T>, target: set<T>): real {
    if source == {} || target == {} then 0.0
    else |source * target| as real / Min(|source|, |target|) as real
  }

  function TokenOverlap(lower: Lowercase, source: Text, target: Text): real {
    Overlap(Tokens(lower, source), Tokens(lower, target))
  }

  function SimilarityScore(lower: Lowercase, source: Text, target: Text): real {
    var s, t := NormalizeContent(lower, source), NormalizeContent(lower, target);
    if s == [] || t == [] then 0.0 else if s == t then 1.0 else TokenOverlap(lower, s, t)
  }

  lemma {:induction false} SubsetIsSmaller<T>(part: set<T>, whole: set<T>)
    requires part <= whole
    ensures |part| <= |whole|
  {
    if part != {} {
      var x :| x in part;
      SubsetIsSmaller(part - {x}, whole - {x});
    }
  }

  /** A ratio, the same in both directions, which is 1 exactly if one set contains the other. */
  lemma OverlapIsARatio<T>(source: set<T>, target: set<T>)
    ensures 0.0 <= Overlap(source, target) <= 1.0
    ensures Overlap(source, target) == Overlap(target, source)
    ensures Overlap(source, target) == 0.0 <==> source * target == {}
    ensures Overlap(source, target) == 1.0 <==> source != {} && target != {} && (source <= target || target <= source)
  {
    assert source * target == target * source;
    var both := source * target;
    SubsetIsSmaller(both, source);
    SubsetIsSmaller(both, target);
    if source != {} && target != {} {
      var n, d := |both|, Min(|source|, |target|);
      assert Overlap(source, target) == n as real / d as real;
      RatioFacts(n, d);
      SameSizeIsEqual(both, source);
      SameSizeIsEqual(both, target);
    }
  }

  lemma RatioFacts(n: nat, d: nat)
    requires n <= d && d > 0
    ensures 0.0 <= n as real / d as real <= 1.0
    ensures (n as real / d as real == 0.0 <==> n == 0) && (n as real / d as real == 1.0 <==> n == d)
  {
    var r := n as real / d as real;
    assert r * d as real == n as real;
  }

  lemma SameSizeIsEqual<T>(part: set<T>, whole: set<T>)
    requires part <= whole
    ensures |part| == |whole| <==> part == whole
  {
    if part != whole {
      var x :| x in whole && x !in part;
      SubsetIsSmaller(part, whole - {x});
    }
  }

  /** Similarity lies in 0..1, is the same in both directions, and is 1 for a text and itself unless
      nothing of the text is left in normal form. */
  lemma SimilarityIsARatio(lower: Lowercase, source: Text, target: Text)
    ensures 0.0 <= SimilarityScore(lower, source, target) <= 1.0
    ensures SimilarityScore(lower, source, target) == SimilarityScore(lower, target, source)
    ensures SimilarityScore(lower, source, source) == if NormalizeContent(lower, source) == [] then 0.0 else 1.0
  {
    var s, t := NormalizeContent(lower, source), NormalizeContent(lower, target);
    OverlapIsARatio(Tokens(lower, s), Tokens(lower, t));
  }

  /** Only the normal forms matter, and normalizing again before taking tokens changes nothing. */
  lemma SimilarityIsOfNormalForms(lower: Lowercase, source: Text, target: Text)
    requires LeavesPlainAlone(lower)
    ensures SimilarityScore(lower, NormalizeContent(lower, source), NormalizeContent(lower, target))
      == SimilarityScore(lower, source, target)
    ensures var s, t := NormalizeContent(lower, source), NormalizeContent(lower, target);
      s != [] && t != [] && s != t ==> SimilarityScore(lower, source, target) == TokenOverlap(lower, source, target)
  {
    NormalizeIsIdempotent(lower, source);
    NormalizeIsIdempotent(lower, target);
  }

  // ----- Repetition -----

  datatype ContentMemory = ContentMemory(recentApprovedContent: seq<Text>, approvedAngles: seq<string>)

  datatype Reason = NearDuplicateRecentDraft | RepeatedClaim | SimilarRecentDraft | RepeatedAngle(angle: string)

  datatype RepetitionResult =
    RepetitionResult(maxSimilarity: real, repeatedAngleCount: nat, penalty: nat, reasons: seq<Reason>)

  const WEAK_ANGLES := {"shipping_update", "weekly_roundup"}

  function RecentOf(memory: Option<ContentMemory>): seq<Text> {
    if memory.Some? then memory.value.recentApprovedContent else []
  }

  function AnglesOf(memory: Option<ContentMemory>): seq<string> {
    if memory.Some? then memory.value.approvedAngles else []
  }

  /** The greatest similarity to a recent text, or 0 without any. */
  ghost predicate IsGreatestSimilarity(lower: Lowercase, candidate: Text, recent: seq<Text>, m: real) {
    && (forall i :: 0 <= i < |recent| ==> SimilarityScore(lower, candidate, recent[i]) <= m)
    && (if recent == [] then m == 0.0 else
        exists i :: 0 <= i < |recent| && m == SimilarityScore(lower, candidate, recent[i]))
  }

  function SimilarityPenalty(m: real): nat {
    if m >= 0.9 then 32 else if m >= 0.68 then 18 else if m >= 0.52 then 8 else 0
  }

  function AnglePenalty(angle: string, count: nat): nat {
    Min(16, count * if angle in WEAK_ANGLES then 8 else 4)
  }

  function ReasonsFor(m: real, angle: string, count: nat): seq<Reason> {
    (if m >= 0.9 then [NearDuplicateRecentDraft] else if m >= 0.68 then [RepeatedClaim]
     else if m >= 0.52 then [SimilarRecentDraft] else [])
    + (if count > 0 then [RepeatedAngle(angle)] else [])
  }

  ghost predicate IsRepetitionOf(lower: Lowercase, candidate: Text, angle: string, memory: Option<ContentMemory>,
                                 result: RepetitionResult)
  {
    && IsGreatestSimilarity(lower, candidate, RecentOf(memory), result.maxSimilarity)
    && result.repeatedAngleCount == multiset(AnglesOf(memory))[angle]
    && result.penalty
         == SimilarityPenalty(result.maxSimilarity) + AnglePenalty(angle, result.repeatedAngleCount)
    && result.reasons == ReasonsFor(result.maxSimilarity, angle, result.repeatedAngleCount)
  }

  method GreatestSimilarity(lower: Lowercase, candidate: Text, recent: seq<Text>) returns (m: real)
    ensures IsGreatestSimilarity(lower, candidate, recent, m)
  {
    hide SimilarityScore;
    m := 0.0;
    ghost var best := 0;
    for k := 0 to |recent|
      invariant forall i :: 0 <= i < k ==> SimilarityScore(lower, candidate, recent[i]) <= m
      invariant if k == 0 then m == 0.0 else 0 <= best < k && m == SimilarityScore(lower, candidate, recent[best])
    {
      var score := SimilarityScore(lower, candidate, recent[k]);
      if k == 0 || score > m {
        m, best := score, k;
      }
    }
  }

  method DetectRepetition(lower: Lowercase, candidate: Text, angle: string, memory: Option<ContentMemory>)
    returns (result: RepetitionResult)
    ensures IsRepetitionOf(lower, candidate, angle, memory, result)
  {
    hide IsGreatestSimilarity;
    var maxSimilarity := GreatestSimilarity(lower, candidate, RecentOf(memory));
    var approvedAngles := AnglesOf(memory);
    var repeatedAngleCount := 0;
    for k := 0 to |approvedAngles|
      invariant repeatedAngleCount == multiset(approvedAngles[..k])[angle]
    {
      assert approvedAngles[..k + 1] == approvedAngles[..k] + [approvedAngles[k]];
      if approvedAngles[k] == angle {
        repeatedAngleCount := repeatedAngleCount + 1;
      }
    }
    assert approvedAngles[..|approvedAngles|] == approvedAngles;
    var reasons: seq<Reason> := [];
    var penalty: nat := 0;
    if maxSimilarity >= 0.9 {
      penalty := penalty + 32;
      reasons := reasons + [NearDuplicateRecentDraft];
    } else if maxSimilarity >= 0.68 {
      penalty := penalty + 18;
      reasons := reasons + [RepeatedClaim];
    } else if maxSimilarity >= 0.52 {
      penalty := penalty + 8;
      reasons := reasons + [SimilarRecentDraft];
    }
    if repeatedAngleCount > 0 {
      var perAngle := if angle in WEAK_ANGLES then 8 else 4;
      penalty := penalty + Min(16, repeatedAngleCount * perAngle);
      reasons := reasons + [RepeatedAngle(angle)];
    }
    result := RepetitionResult(maxSimilarity, repeatedAngleCount, Min(48, penalty), reasons);
  }

  /** The memory determines the result. */
  lemma RepetitionIsDetermined(lower: Lowercase, candidate: Text, angle: string, memory: Option<ContentMemory>,
                               r1: RepetitionResult, r2: RepetitionResult)
    requires IsRepetitionOf(lower, candidate, angle, memory, r1)
    requires IsRepetitionOf(lower, candidate, angle, memory, r2)
    ensures r1 == r2
  {
    hide IsGreatestSimilarity;
    GreatestIsUnique(lower, candidate, RecentOf(memory), r1.maxSimilarity, r2.maxSimilarity);
  }

  lemma GreatestIsUnique(lower: Lowercase, candidate: Text, recent: seq<Text>, m: real, n: real)
    requires IsGreatestSimilarity(lower, candidate, recent, m) && IsGreatestSimilarity(lower, candidate, recent, n)
    ensures m == n
  {
    hide SimilarityScore;
  }

  /** A memory that remembers at least as much: every recent text, and every angle as often. */
  ghost predicate Extends(more: Option<ContentMemory>, memory: Option<ContentMemory>) {
    && (forall i :: 0 <= i < |RecentOf(memory)| ==> RecentOf(memory)[i] in RecentOf(more))
    && multiset(AnglesOf(memory)) <= multiset(AnglesOf(more))
  }

  /** Remembering more never lowers the penalty. */
  lemma MoreMemoryNeverLowersThePenalty(lower: Lowercase, candidate: Text, angle: string,
                                        memory: Option<ContentMemory>, more: Option<ContentMemory>,
                                        r: RepetitionResult, s: RepetitionResult)
    requires Extends(more, memory)
    requires IsRepetitionOf(lower, candidate, angle, memory, r) && IsRepetitionOf(lower, candidate, angle, more, s)
    ensures r.maxSimilarity <= s.maxSimilarity && r.repeatedAngleCount <= s.repeatedAngleCount
    ensures r.penalty <= s.penalty
  {
    hide IsGreatestSimilarity, RecentOf;
    GreatestIsARatio(lower, candidate, RecentOf(more), s.maxSimilarity);
    GreatestGrows(lower, candidate, RecentOf(memory), RecentOf(more), r.maxSimilarity, s.maxSimilarity);
  }

  lemma GreatestGrows(lower: Lowercase, candidate: Text, recent: seq<Text>, more: seq<Text>, m: real, n: real)
    requires forall i :: 0 <= i < |recent| ==> recent[i] in more
    requires IsGreatestSimilarity(lower, candidate, recent, m) && IsGreatestSimilarity(lower, candidate, more, n)
    requires 0.0 <= n
    ensures m <= n
  {
    hide SimilarityScore;
  }

  lemma GreatestIsARatio(lower: Lowercase, candidate: Text, recent: seq<Text>, m: real)
    requires IsGreatestSimilarity(lower, candidate, recent, m)
    ensures 0.0 <= m <= 1.0
  {
    hide SimilarityScore;
    if recent != [] {
      var i :| 0 <= i < |recent| && m == SimilarityScore(lower, candidate, recent[i]);
      SimilarityIsARatio(lower, candidate, recent[i]);
    }
  }

  /** The penalty lies in 0..48 without its cap; it is 0 exactly if nothing recent is close and the
      angle is new, which is also when there is no reason. */
  lemma PenaltyRange(lower: Lowercase, candidate: Text, angle: string, memory: Option<ContentMemory>,
                     r: RepetitionResult)
    requires IsRepetitionOf(lower, candidate, angle, memory, r)
    ensures 0 <= r.penalty <= 48
    ensures r.penalty == 0 <==> r.reasons == []
    ensures r.penalty == 0 <==>
      && (forall i :: 0 <= i < |RecentOf(memory)| ==> SimilarityScore(lower, candidate, RecentOf(memory)[i]) < 0.52)
      && angle !in AnglesOf(memory)
  {
    hide SimilarityScore;
    assert angle in AnglesOf(memory) <==> multiset(AnglesOf(memory))[angle] > 0;
  }
}
