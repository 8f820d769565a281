/** What normalizing a text means: its words, read off the text position by position. */
module RepetitionLaws {
  import opened Options
  import opened Utf16
  import opened Repetition

  // ----- The words of a text -----

  predicate StartsAt(text: Text, at: nat, s: string) {
    at + |s| < |text| && forall i :: 0 <= i < |s| ==> text[at + i] == s[i] as int
  }

  /** A link starts here: a scheme, and a character after it that is no space. */
  predicate LinkAt(text: Text, at: nat) {
    || (StartsAt(text, at, "http://") && !IsSpace(text[at + 7]))
    || (StartsAt(text, at, "https://") && !IsSpace(text[at + 8]))
  }

  predicate Reaches(text: Text, j: nat, i: nat)
    requires i < |text|
  {
    LinkAt(text, j) && forall k :: j <= k <= i ==> !IsSpace(text[k])
  }

  /** The position belongs to a link: one starts at or before it, and no space comes between. */
  ghost predicate InLink(text: Text, i: nat)
    requires i < |text|
  {
    exists j :: 0 <= j <= i && Reaches(text, j, i)
  }

  /** The text with a space for everything that is not a letter a-z or a digit outside a link. */
  ghost predicate IsMaskOf(mask: Text, text: Text) {
    && |mask| == |text|
    && forall i :: 0 <= i < |text| ==>
         mask[i] ==
           if ('a' as int <= text[i] <= 'z' as int || '0' as int <= text[i] <= '9' as int) && !InLink(text, i)
           then text[i] else ' ' as int
  }

  function Flushed(word: Text): seq<Text> {
    if word == [] then [] else [word]
  }

  /** The runs of plain characters. */
  function Words(text: Text, word: Text := []): seq<Text> {
    if text == [] then Flushed(word)
    else if IsPlain(text[0]) then Words(text[1..], word + [text[0]])
    else Flushed(word) + Words(text[1..])
  }

  function Join(words: seq<Text>): Text {
    if words == [] then []
    else if |words| == 1 then words[0]
    else words[0] + [SPACE] + Join(words[1..])
  }

  // ----- Trimming and collapsing keep the words -----

  predicate IsPlainOrSpace(text: Text) {
    forall i :: 0 <= i < |text| ==> IsPlain(text[i]) || IsSpace(text[i])
  }

  lemma PlainIsNoSpace(c: CodePoint)
    ensures !(IsPlain(c) && IsSpace(c))
  {
  }

  lemma {:induction false} CollapseKeepsWords(text: Text, word: Text)
    requires IsPlainOrSpace(text)
    ensures Words(Collapse(text), word) == Words(text, word)
  {
    if text != [] {
      PlainIsNoSpace(text[0]);
      PlainIsNoSpace(SPACE);
      var rest, c := text[1..], Collapse(text);
      if IsSpace(text[0]) && |text| > 1 && IsSpace(text[1]) {
        PlainIsNoSpace(text[1]);
        CollapseKeepsWords(rest, word);
        assert Words(rest, word) == Flushed(word) + Words(rest[1..]);
        assert Words(rest, []) == Flushed([]) + Words(rest[1..]) == Words(rest[1..]);
      } else if IsSpace(text[0]) {
        CollapseKeepsWords(rest, []);
        assert c[1..] == Collapse(rest);
      } else {
        CollapseKeepsWords(rest, word + [text[0]]);
        assert c[1..] == Collapse(rest);
      }
    }
  }

  lemma {:induction false} TrimLeftKeepsWords(text: Text)
    ensures Words(TrimLeft(text)) == Words(text)
  {
    if text != [] && IsSpace(text[0]) {
      PlainIsNoSpace(text[0]);
      TrimLeftKeepsWords(text[1..]);
    }
  }

  lemma {:induction false} LastSpaceAddsNoWord(text: Text, c: CodePoint, word: Text)
    requires !IsPlain(c)
    ensures Words(text + [c], word) == Words(text, word)
  {
    if text == [] {
      assert text + [c] == [c] && [c][1..] == [];
    } else {
      assert (text + [c])[1..] == text[1..] + [c];
      LastSpaceAddsNoWord(text[1..], c, if IsPlain(text[0]) then word + [text[0]] else []);
    }
  }

  lemma {:induction false} TrimRightKeepsWords(text: Text)
    ensures Words(TrimRight(text)) == Words(text)
  {
    if text != [] && IsSpace(text[|text| - 1]) {
      var rest := text[..|text| - 1];
      PlainIsNoSpace(text[|text| - 1]);
      TrimRightKeepsWords(rest);
      LastSpaceAddsNoWord(rest, text[|text| - 1], []);
      assert rest + [text[|text| - 1]] == text;
    }
  }

  /** A normal form is its words, joined; and its pieces are its words. */
  lemma {:induction false} NormalFormIsItsWords(word: Text, text: Text)
    requires IsNormal(word + text) && word + text != [] && SPACE !in word
    ensures Join(Words(text, word)) == word + text
    ensures Pieces(text, word) == Words(text, word)
    decreases |text|
  {
    var all := word + text;
    if text == [] {
      assert all == word;
    } else if IsPlain(text[0]) {
      PlainIsNoSpace(text[0]);
      assert (word + [text[0]]) + text[1..] == all;
      assert text[0] != SPACE;
      NormalFormIsItsWords(word + [text[0]], text[1..]);
    } else {
      assert all[|word|] == text[0] == SPACE;
      InnerSpace(all, |word|);
      var rest := text[1..];
      RestIsNormal(all, |word| + 1);
      assert all[|word| + 1..] == rest && [] + rest == rest;
      NormalFormIsItsWords([], rest);
      assert Words(text, word) == [word] + Words(rest);
      assert ([word] + Words(rest))[1..] == Words(rest);
      assert Words(rest) != [];
      assert word + [SPACE] + rest == all;
    }
  }

  lemma InnerSpace(text: Text, k: nat)
    requires IsNormal(text) && k < |text| && text[k] == SPACE
    ensures 0 < k < |text| - 1
  {
  }

  lemma RestIsNormal(text: Text, from: nat)
    requires IsNormal(text) && 0 < from < |text| && text[from - 1] == SPACE
    ensures IsNormal(text[from..])
  {
    PartIsSpaced(text, from, |text|);
    assert text[from..|text|] == text[from..];
  }

  // ----- Removing links keeps the words of the mask -----

  function MaskFrom(text: Text, inLink: bool): Text {
    if text == [] then []
    else if (inLink && !IsSpace(text[0])) || StartsLink(text) then [SPACE] + MaskFrom(text[1..], true)
    else [if IsPlain(text[0]) then text[0] else SPACE] + MaskFrom(text[1..], false)
  }

  lemma KeepPlainOfFirst(c: CodePoint, rest: Text)
    ensures KeepPlain([c] + rest) == [if IsPlain(c) || IsSpace(c) then c else SPACE] + KeepPlain(rest)
  {
  }

  lemma {:induction false} RemovedLinksAreMasked(text: Text, inLink: bool, word: Text)
    requires inLink ==> word == []
    ensures Words(KeepPlain(RemoveLinks(text, inLink)), word) == Words(MaskFrom(text, inLink), word)
  {
    if text != [] {
      PlainIsNoSpace(SPACE);
      PlainIsNoSpace(text[0]);
      var rest := text[1..];
      if inLink && !IsSpace(text[0]) {
        RemovedLinksAreMasked(rest, true, []);
        assert MaskFrom(text, inLink)[1..] == MaskFrom(rest, true);
      } else if StartsLink(text) {
        RemovedLinksAreMasked(rest, true, []);
        KeepPlainOfFirst(SPACE, RemoveLinks(rest, true));
        assert KeepPlain(RemoveLinks(text, inLink))[1..] == KeepPlain(RemoveLinks(rest, true));
        assert MaskFrom(text, inLink)[1..] == MaskFrom(rest, true);
      } else {
        RemovedLinksAreMasked(rest, false, if IsPlain(text[0]) then word + [text[0]] else []);
        KeepPlainOfFirst(text[0], RemoveLinks(rest));
        assert KeepPlain(RemoveLinks(text, inLink))[1..] == KeepPlain(RemoveLinks(rest));
        assert MaskFrom(text, inLink)[1..] == MaskFrom(rest, false);
      }
    }
  }

  lemma StartsWithAt(text: Text, k: nat, s: string)
    requires k < |text|
    ensures StartsAt(text, k, s) <==> StartsWith(text[k..], s) && |s| < |text[k..]|
  {
    assert forall i :: 0 <= i < |text[k..]| ==> text[k..][i] == text[k + i];
  }

  lemma NotBothSchemes(text: Text)
    ensures !(StartsWith(text, "https://") && StartsWith(text, "http://"))
    ensures StartsWith(text, "https://") || StartsWith(text, "http://") ==> !IsSpace(text[0])
  {
    var s, h := "https://", "http://";
    assert StartsWith(text, s) ==> text[0] == s[0] as int && text[4] == s[4] as int;
    assert StartsWith(text, h) ==> text[0] == h[0] as int && text[4] == h[4] as int;
  }

  lemma LinkStarts(text: Text, k: nat)
    requires k < |text|
    ensures StartsLink(text[k..]) <==> LinkAt(text, k)
    ensures LinkAt(text, k) ==> !IsSpace(text[k])
  {
    StartsWithAt(text, k, "https://");
    StartsWithAt(text, k, "http://");
    NotBothSchemes(text[k..]);
    hide StartsAt, StartsWith, IsSpace;
  }

  lemma InLinkStep(text: Text, k: nat)
    requires k < |text|
    ensures InLink(text, k) <==> LinkAt(text, k) || (k > 0 && InLink(text, k - 1) && !IsSpace(text[k]))
  {
    LinkStarts(text, k);
    hide LinkAt, StartsLink, IsSpace;
    assert LinkAt(text, k) ==> Reaches(text, k, k);
    if k > 0 && !IsSpace(text[k]) {
      var last := k - 1;
      if j: nat :| j <= last && Reaches(text, j, last) { assert Reaches(text, j, k); }
    }
    if j: nat :| j < k && Reaches(text, j, k) { assert Reaches(text, j, k - 1); }
  }

  lemma {:induction false} MaskFromIsTheMask(text: Text, k: nat)
    requires k <= |text|
    ensures
      var mask := MaskFrom(text[k..], k > 0 && InLink(text, k - 1));
      && |mask| == |text| - k
      && forall i :: k <= i < |text| ==>
           mask[i - k] == if IsPlain(text[i]) && !InLink(text, i) then text[i] else SPACE
    decreases |text| - k
  {
    if k < |text| {
      var flag := k > 0 && InLink(text, k - 1);
      LinkStarts(text, k);
      InLinkStep(text, k);
      MaskFromIsTheMask(text, k + 1);
      assert text[k..][1..] == text[k + 1..];
      hide InLink, LinkAt, StartsLink;
      var mask, tail := MaskFrom(text[k..], flag), MaskFrom(text[k + 1..], InLink(text, k));
      assert mask[1..] == tail;
      forall i | k <= i < |text|
        ensures mask[i - k] == if IsPlain(text[i]) && !InLink(text, i) then text[i] else SPACE
      {
        if i > k { assert mask[i - k] == tail[i - (k + 1)]; }
      }
    }
  }

  /** The normal form of a text is the words of its lowercase form outside links, with one space between
      any two; and its tokens are those of them that are longer than two characters and no stop words. */
  lemma NormalFormIsTheWords(lower: Lowercase, value: Text, mask: Text)
    requires IsMaskOf(mask, lower(value))
    ensures NormalizeContent(lower, value) == Join(Words(mask)) && Words(NormalizeContent(lower, value)) == Words(mask)
    ensures forall t :: t in Tokens(lower, value) <==> t in Words(mask) && |t| > 2 && Spelling(t) !in STOP_WORDS
  {
    var text := lower(value);
    var kept := KeepPlain(RemoveLinks(text));
    var y := NormalizeContent(lower, value);
    TheMask(text, mask);
    RemovedLinksAreMasked(text, false, []);
    NormalizeIsNormal(lower, value);
    NormalizeKeepsWords(lower, value, kept, y);
    WordsOfNormal(y);
    hide NormalizeContent, IsNormal, Words, Join, Pieces, IsMaskOf, Spelling;
    assert forall t :: t in Tokens(lower, value) <==> t in Pieces(y) && |t| > 2 && Spelling(t) !in STOP_WORDS;
  }

  lemma WordsOfNormal(y: Text)
    requires IsNormal(y)
    ensures Join(Words(y)) == y && forall t :: |t| > 2 ==> (t in Pieces(y) <==> t in Words(y))
  {
    assert [] + y == y;
    if y != [] { NormalFormIsItsWords([], y); }
  }

  lemma NormalizeKeepsWords(lower: Lowercase, value: Text, kept: Text, y: Text)
    requires kept == KeepPlain(RemoveLinks(lower(value))) && y == NormalizeContent(lower, value)
    ensures Words(y) == Words(kept)
  {
    hide RemoveLinks, Words;
    KeptIsPlainOrSpace(RemoveLinks(lower(value)));
    CollapseKeepsWords(kept, []);
    TrimLeftKeepsWords(Collapse(kept));
    TrimRightKeepsWords(TrimLeft(Collapse(kept)));
  }

  lemma KeptIsPlainOrSpace(text: Text)
    ensures IsPlainOrSpace(KeepPlain(text))
  {
  }

  lemma TheMask(text: Text, mask: Text)
    requires IsMaskOf(mask, text)
    ensures mask == MaskFrom(text, false)
  {
    MaskFromIsTheMask(text, 0);
    assert text[0..] == text;
    hide InLink;
    assert forall i :: 0 <= i < |text| ==> mask[i] == MaskFrom(text, false)[i];
  }

  /** Every text has its mask. */
  lemma MaskExists(text: Text) returns (mask: Text)
    ensures IsMaskOf(mask, text)
  {
    mask := MaskFrom(text, false);
    MaskFromIsTheMask(text, 0);
    assert text[0..] == text;
    hide InLink;
  }

  // ----- Similarity -----

  /** The words that are compared. */
  function Telling(words: seq<Text>): set<Text> {
    set t | t in words && |t| > 2 && Spelling(t) !in STOP_WORDS
  }

  lemma OverlapLaw<T>(a: set<T>, b: set<T>)
    ensures if a == {} || b == {} then Overlap(a, b) == 0.0
      else Overlap(a, b) * (if |a| <= |b| then |a| else |b|) as real == |a * b| as real
  {
  }

  /** Texts without words are not similar, texts of the same words are the same, and otherwise the
      similarity is the shared part of the smaller set of telling words. */
  lemma SimilarityLaw(lower: Lowercase, source: Text, target: Text, a: Text, b: Text)
    requires LeavesPlainAlone(lower) && IsMaskOf(a, lower(source)) && IsMaskOf(b, lower(target))
    ensures
      var r, s, t := SimilarityScore(lower, source, target), Telling(Words(a)), Telling(Words(b));
      if Words(a) == [] || Words(b) == [] then r == 0.0
      else if Words(a) == Words(b) then r == 1.0
      else if s == {} || t == {} then r == 0.0
      else r * (if |s| <= |t| then |s| else |t|) as real == |s * t| as real
  {
    hide NormalizeContent, Words, Join, Telling, Tokens, Overlap, IsMaskOf, LeavesPlainAlone, SimilarityScore;
    TellingWords(lower, source, a);
    TellingWords(lower, target, b);
    NothingJoined();
    SimilarityByNormalForms(lower, source, target);
    OverlapLaw(Telling(Words(a)), Telling(Words(b)));
  }

  lemma SimilarityByNormalForms(lower: Lowercase, source: Text, target: Text)
    requires LeavesPlainAlone(lower)
    ensures var s, t := NormalizeContent(lower, source), NormalizeContent(lower, target);
      SimilarityScore(lower, source, target) ==
        if s == [] || t == [] then 0.0 else if s == t then 1.0
            else Overlap(Tokens(lower, source), Tokens(lower, target))
  {
    hide NormalizeContent, Tokens, LeavesPlainAlone, Overlap;
    SimilarityIsOfNormalForms(lower, source, target);
  }

  lemma TellingWords(lower: Lowercase, value: Text, mask: Text)
    requires IsMaskOf(mask, lower(value))
    ensures NormalizeContent(lower, value) == Join(Words(mask)) && Words(NormalizeContent(lower, value)) == Words(mask)
    ensures Tokens(lower, value) == Telling(Words(mask))
  {
    hide NormalizeContent, Words, Join, IsMaskOf, Tokens;
    NormalFormIsTheWords(lower, value, mask);
  }

  lemma NothingJoined()
    ensures Words([]) == [] && Join([]) == []
  {
  }

  // ----- The penalty -----

  /** The penalty and the reasons, by the thresholds, the number of times that the angle was approved, and
      whether it is one of the two weak angles. */
  lemma PenaltyLaw(lower: Lowercase, candidate: Text, angle: string, memory: Option<ContentMemory>,
                   r: RepetitionResult)
    requires IsRepetitionOf(lower, candidate, angle, memory, r)
    ensures
      var m, n := r.maxSimilarity, r.repeatedAngleCount;
      var close := if m >= 0.9 then 32 else if m >= 0.68 then 18 else if m >= 0.52 then 8 else 0;
      var each := if angle == "shipping_update" || angle == "weekly_roundup" then 8 else 4;
      && n == multiset(if memory.Some? then memory.value.approvedAngles else [])[angle]
      && r.penalty == close + (if n * each <= 16 then n * each else 16)
      && (NearDuplicateRecentDraft in r.reasons <==> m >= 0.9)
      && (RepeatedClaim in r.reasons <==> 0.68 <= m < 0.9)
      && (SimilarRecentDraft in r.reasons <==> 0.52 <= m < 0.68)
      && (RepeatedAngle(angle) in r.reasons <==> n > 0)
      && |r.reasons| == (if m >= 0.52 then 1 else 0) + (if n > 0 then 1 else 0)
  {
    hide IsGreatestSimilarity;
  }
}
