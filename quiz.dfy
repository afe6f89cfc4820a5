/** `QuizService` from backend/services/quiz.py: multiple-choice quizzes built from a
    document's key terms and the answers of the document service, held in a session
    table until they are graded once. */
module Quiz {
  import opened Text
  import opened Outcomes
  import opened Rag

  // ---------------------------------------------------------------------------
  //  _extract_key_concepts
  // ---------------------------------------------------------------------------

  /** The stop words that never become key terms. */
  const CommonWords: set<string> := {
    "the", "a", "an", "and", "or", "but", "in", "on", "at", "to",
    "for", "of", "with", "by", "is", "are", "was", "were", "be",
    "been", "have", "has", "had", "do", "does", "did", "will",
    "would", "could", "should", "may", "might", "can", "this",
    "that", "these", "those"
  }

  /** The characters stripped from both ends of every word. */
  const Punctuation: set<char> := {'.', ',', '!', '?', ';', ':', '\'', '"', '(', ')', '[', ']', '{', '}', '\\'}

  /** `word.strip(punctuation).lower()` */
  function Token(word: string): string
  {
    Lower(StripChars(word, Punctuation))
  }

  /** A token that is counted: longer than three characters, alphabetic, not a stop word. */
  predicate IsKeyTerm(token: string)
  {
    |token| > 3 && IsAlpha(token) && token !in CommonWords
  }

  /** The counted tokens of a list of words, in order. */
  function KeptTokens(words: seq<string>): seq<string>
    decreases |words|
  {
    if words == [] then []
    else
      var t := Token(words[|words| - 1]);
      KeptTokens(words[..|words| - 1]) + (if IsKeyTerm(t) then [t] else [])
  }

  /** The counted tokens of the sentences, in order. */
  function SentenceTokens(sentences: seq<string>): seq<string>
    decreases |sentences|
  {
    if sentences == [] then []
    else SentenceTokens(sentences[..|sentences| - 1]) + KeptTokens(Words(sentences[|sentences| - 1]))
  }

  /** The list `words` that `_extract_key_concepts(text)` counts. */
  function TermsOf(text: string): seq<string>
  {
    SentenceTokens(Split(text, "."))
  }

  /** A lower-case ASCII word. */
  predicate IsLowerWord(s: string)
  {
    forall i :: 0 <= i < |s| ==> IsLowerAscii(s[i])
  }

  lemma KeyTermIsLower(word: string)
    requires IsKeyTerm(Token(word))
    ensures IsLowerWord(Token(word))
  {
    var s := StripChars(word, Punctuation);
    assert forall i :: 0 <= i < |s| ==> Token(word)[i] == LowerChar(s[i]);
  }

  /** Every counted token is a lower-case key term. */
  lemma {:induction false} KeptTokensAreTerms(words: seq<string>)
    ensures forall t :: t in KeptTokens(words) ==> IsKeyTerm(t) && IsLowerWord(t)
    decreases |words|
  {
    if words != [] {
      KeptTokensAreTerms(words[..|words| - 1]);
      var t := Token(words[|words| - 1]);
      if IsKeyTerm(t) {
        KeyTermIsLower(words[|words| - 1]);
      }
    }
  }

  lemma {:induction false} SentenceTokensAreTerms(sentences: seq<string>)
    ensures forall t :: t in SentenceTokens(sentences) ==> IsKeyTerm(t) && IsLowerWord(t)
    decreases |sentences|
  {
    if sentences != [] {
      SentenceTokensAreTerms(sentences[..|sentences| - 1]);
      KeptTokensAreTerms(Words(sentences[|sentences| - 1]));
    }
  }

  // ---------------------------------------------------------------------------
  //  Counter(words).most_common(n)
  // ---------------------------------------------------------------------------

  function Count(words: seq<string>, w: string): nat
  {
    multiset(words)[w]
  }

  /** The position of the first occurrence of `w`, or `|words|` when there is none. */
  function FirstIndex(words: seq<string>, w: string): (i: nat)
    ensures i <= |words|
    ensures i < |words| <==> w in words
    ensures i < |words| ==> words[i] == w
    ensures forall j :: 0 <= j < i ==> words[j] != w
  {
    if words == [] then 0
    else if words[0] == w then 0
    else 1 + FirstIndex(words[1..], w)
  }

  /** The order of `most_common`: more occurrences first, and among equally frequent
      words the one seen first (a `Counter` keeps first-insertion order and the sort is
      stable). */
  predicate Before(words: seq<string>, a: string, b: string)
  {
    Count(words, a) > Count(words, b)
    || (Count(words, a) == Count(words, b) && FirstIndex(words, a) < FirstIndex(words, b))
  }

  predicate Ranked(words: seq<string>, s: seq<string>)
  {
    forall i, j :: 0 <= i < j < |s| ==> Before(words, s[i], s[j])
  }

  /** The distinct words in order of first occurrence: the keys of `Counter(words)`. */
  function Keys(words: seq<string>): (r: seq<string>)
    ensures forall x :: x in r <==> x in words
    ensures Distinct(r)
    decreases |words|
  {
    if words == [] then []
    else
      var k := Keys(words[..|words| - 1]);
      var last := words[|words| - 1];
      if last in k then k
      else
        assert forall i :: 0 <= i < |k| ==> (k + [last])[i] == k[i];
        k + [last]
  }

  /** `w` goes after every element of `s` that comes before it. */
  function Insert(words: seq<string>, w: string, s: seq<string>): (r: seq<string>)
    ensures |r| == |s| + 1
    ensures forall x :: x in r <==> x == w || x in s
    decreases |s|
  {
    if s == [] then [w]
    else if Before(words, s[0], w) then [s[0]] + Insert(words, w, s[1..])
    else [w] + s
  }

  function SortByCount(words: seq<string>, keys: seq<string>): (r: seq<string>)
    ensures |r| == |keys|
    ensures forall x :: x in r <==> x in keys
    decreases |keys|
  {
    if keys == [] then []
    else Insert(words, keys[|keys| - 1], SortByCount(words, keys[..|keys| - 1]))
  }

  /** `[k for k, _ in Counter(words).most_common(n)]` */
  function MostCommon(words: seq<string>, n: nat): seq<string>
  {
    Prefix(SortByCount(words, Keys(words)), n)
  }

  /** Two different words of the list never tie in the order. */
  lemma BeforeTotal(words: seq<string>, a: string, b: string)
    requires a in words && b in words && a != b
    ensures Before(words, a, b) || Before(words, b, a)
  {
    var i, j := FirstIndex(words, a), FirstIndex(words, b);
    assert words[i] == a && words[j] == b;
  }

  lemma BeforeTransitive(words: seq<string>, a: string, b: string, c: string)
    requires Before(words, a, b) && Before(words, b, c)
    ensures Before(words, a, c)
  {
  }

  /** Inserting a new word into a ranked list keeps it ranked. */
  lemma {:induction false} InsertRanked(words: seq<string>, w: string, s: seq<string>)
    requires Ranked(words, s) && w !in s && w in words
    requires forall x :: x in s ==> x in words
    ensures Ranked(words, Insert(words, w, s))
    decreases |s|
  {
    if s != [] {
      if Before(words, s[0], w) {
        var rest := Insert(words, w, s[1..]);
        assert Ranked(words, s[1..]);
        InsertRanked(words, w, s[1..]);
        var r := [s[0]] + rest;
        forall i, j | 0 <= i < j < |r|
          ensures Before(words, r[i], r[j])
        {
          if i == 0 {
            assert r[j] in rest;
            if r[j] != w {
              var k :| 0 <= k < |s[1..]| && s[1..][k] == r[j];
              assert s[k + 1] == r[j];
            }
          } else {
            assert r[i] == rest[i - 1] && r[j] == rest[j - 1];
          }
        }
      } else {
        BeforeTotal(words, s[0], w);
        var r := [w] + s;
        forall i, j | 0 <= i < j < |r|
          ensures Before(words, r[i], r[j])
        {
          if i == 0 {
            assert r[j] == s[j - 1];
            if j > 1 {
              BeforeTransitive(words, w, s[0], s[j - 1]);
            }
          } else {
            assert r[i] == s[i - 1] && r[j] == s[j - 1];
          }
        }
      }
    }
  }

  lemma {:induction false} SortRanked(words: seq<string>, keys: seq<string>)
    requires Distinct(keys)
    requires forall x :: x in keys ==> x in words
    ensures Ranked(words, SortByCount(words, keys))
    decreases |keys|
  {
    if keys != [] {
      var init := keys[..|keys| - 1];
      var last := keys[|keys| - 1];
      assert Distinct(init);
      SortRanked(words, init);
      assert last !in init by {
        assert forall k :: 0 <= k < |init| ==> init[k] == keys[k] != last;
      }
      InsertRanked(words, last, SortByCount(words, init));
    }
  }

  /** `most_common(n)`: at most `n` distinct words of the list, in the order above, and
      a word left out comes after every word kept, which only happens when `n` words
      were kept. */
  lemma MostCommonSpec(words: seq<string>, n: nat)
    ensures |MostCommon(words, n)| <= n
    ensures Ranked(words, MostCommon(words, n))
    ensures Distinct(MostCommon(words, n))
    ensures forall x :: x in MostCommon(words, n) ==> x in words
    ensures forall w :: w in words && w !in MostCommon(words, n) ==>
              |MostCommon(words, n)| == n
              && forall k :: 0 <= k < n ==> Before(words, MostCommon(words, n)[k], w)
  {
    var s := SortByCount(words, Keys(words));
    SortRanked(words, Keys(words));
    var r := MostCommon(words, n);
    assert r == s[..|r|];
    forall i, j | 0 <= i < j < |r|
      ensures r[i] != r[j]
    {
      assert Before(words, s[i], s[j]);
    }
    forall w | w in words && w !in r
      ensures |r| == n && forall k :: 0 <= k < n ==> Before(words, r[k], w)
    {
      assert w in s;
      var p :| 0 <= p < |s| && s[p] == w;
      assert forall q :: 0 <= q < |r| ==> s[q] == r[q] && r[q] != w;
      assert |r| <= p < |s|;
      forall k | 0 <= k < n
        ensures Before(words, r[k], w)
      {
        assert r[k] == s[k];
      }
    }
  }

  /** What `_extract_key_concepts(text)` returns. */
  function KeyConcepts(text: string): seq<string>
  {
    MostCommon(TermsOf(text), 15)
  }

  /** At most fifteen distinct lower-case key terms of the text, most frequent first,
      and every key term left out is less frequent (or as frequent and seen later). */
  lemma KeyConceptsSpec(text: string)
    ensures |KeyConcepts(text)| <= 15
    ensures Distinct(KeyConcepts(text))
    ensures forall t :: t in KeyConcepts(text) ==> IsKeyTerm(t) && IsLowerWord(t) && t in TermsOf(text)
    ensures forall i, j :: 0 <= i < j < |KeyConcepts(text)| ==>
              Count(TermsOf(text), KeyConcepts(text)[i]) >= Count(TermsOf(text), KeyConcepts(text)[j])
    ensures forall w :: w in TermsOf(text) && w !in KeyConcepts(text) ==>
              |KeyConcepts(text)| == 15
              && forall k :: 0 <= k < 15 ==> Before(TermsOf(text), KeyConcepts(text)[k], w)
  {
    MostCommonSpec(TermsOf(text), 15);
    SentenceTokensAreTerms(Split(text, "."));
  }

  lemma KeptTokensPrefix(words: seq<string>, w: nat)
    requires w < |words|
    ensures KeptTokens(words[..w + 1]) == KeptTokens(words[..w]) + (if IsKeyTerm(Token(words[w])) then [Token(words[w])] else [])
  {
    assert words[..w + 1][..w] == words[..w];
  }

  lemma SentenceTokensPrefix(sentences: seq<string>, s: nat)
    requires s < |sentences|
    ensures SentenceTokens(sentences[..s + 1]) == SentenceTokens(sentences[..s]) + KeptTokens(Words(sentences[s]))
  {
    assert sentences[..s + 1][..s] == sentences[..s];
  }

  /** `_extract_key_concepts` */
  method ExtractKeyConcepts(text: string) returns (concepts: seq<string>)
    ensures concepts == KeyConcepts(text)
  {
    var words: seq<string> := [];
    var sentences := Split(text, ".");
    for s := 0 to |sentences|
      invariant words == SentenceTokens(sentences[..s])
    {
      SentenceTokensPrefix(sentences, s);
      var sentenceWords := Words(sentences[s]);
      ghost var before := words;
      for w := 0 to |sentenceWords|
        invariant words == before + KeptTokens(sentenceWords[..w])
      {
        KeptTokensPrefix(sentenceWords, w);
        var token := Lower(StripChars(sentenceWords[w], Punctuation));
        if |token| > 3 && IsAlpha(token) && token !in CommonWords {
          AppendAssociative(before, KeptTokens(sentenceWords[..w]), [token]);
          words := words + [token];
        } else {
          assert KeptTokens(sentenceWords[..w]) + [] == KeptTokens(sentenceWords[..w]);
        }
      }
      assert sentenceWords[..|sentenceWords|] == sentenceWords;
    }
    assert sentences[..|sentences|] == sentences;
    concepts := MostCommon(words, 15);
  }

  // ---------------------------------------------------------------------------
  //  _generate_distractors
  // ---------------------------------------------------------------------------

  /** The random draws behind one question: `random.choice` of a concept, the two
      indices of `random.sample(generic_pool, k=2)`, and a code for `random.shuffle`. */
  datatype Draw = Draw(pick: nat, first: nat, second: nat, shuffle: seq<nat>)

  const GenericPool: seq<string> := [
    "This detail is not covered in the document.",
    "The document discusses a different aspect.",
    "No specific information is given on this point.",
    "This statement contradicts the document's conclusion."
  ]

  /** `random.sample` of two pool positions: two different positions, in draw order. */
  function SamplePair(first: nat, second: nat): (p: (nat, nat))
    ensures p.0 < |GenericPool| && p.1 < |GenericPool| && p.0 != p.1
  {
    var i := first % 4;
    var k := second % 3;
    (i, if k >= i then k + 1 else k)
  }

  /** Every ordered pair of different pool positions can be drawn. */
  lemma SamplePairCoversAll(i: nat, j: nat)
    requires i < 4 && j < 4 && i != j
    ensures SamplePair(i, if j > i then j - 1 else j) == (i, j)
  {
  }

  /** `hits[-1]["content"][:120].split(".")[0].strip() + " …"` */
  function Snippet(content: string): (r: string)
    ensures |r| >= 2 && r[|r| - 2..] == " \U{2026}"
    ensures forall i :: 0 <= i < |r| ==> r[i] != '.'
  {
    FirstSentence(content) + " \U{2026}"
  }

  /** `content[:120].split(".")[0].strip()`: the first sentence of the first 120
      characters, which contains no full stop. */
  function FirstSentence(content: string): (t: string)
    ensures forall i :: 0 <= i < |t| ==> t[i] != '.'
  {
    var piece := Split(Prefix(content, 120), ".")[0];
    SplitFirstPiece(Prefix(content, 120), '.');
    StripWithin(piece);
    Strip(piece)
  }

  /** The first piece of a split on one character does not contain that character. */
  lemma {:induction false} SplitFirstPiece(s: string, c: char)
    ensures forall i :: 0 <= i < |Split(s, [c])[0]| ==> Split(s, [c])[0][i] != c
    decreases |s|
  {
    if |s| >= 1 && s[..1] != [c] {
      SplitFirstPiece(s[1..], c);
      assert s[0] != c by {
        assert s[..1] == [s[0]];
      }
    }
  }

  /** The candidates: two pool sentences, then the snippet of the last hit if any. */
  function Candidates(draw: Draw, hits: seq<SearchHit>): seq<string>
  {
    var p := SamplePair(draw.first, draw.second);
    WithSnippet(GenericPool[p.0], GenericPool[p.1], hits)
  }

  /** Two sentences, then the snippet of the last hit if there is one. */
  function WithSnippet(a: string, b: string, hits: seq<SearchHit>): seq<string>
  {
    [a, b] + SnippetOf(hits)
  }

  /** The snippet of the last hit, if there is one: no snippet contains a full stop. */
  function SnippetOf(hits: seq<SearchHit>): (r: seq<string>)
    ensures |r| <= 1 && (|r| == 1 <==> hits != [])
    ensures forall k :: 0 <= k < |r| ==> |r[k]| > 0 && r[k][|r[k]| - 1] != '.'
  {
    if hits == [] then []
    else
      var sn := Snippet(hits[|hits| - 1].content);
      assert sn[|sn| - 1] != '.';
      [sn]
  }

  /** `[d for d in distractors if d != correct][:3]` */
  function Distractors(correct: string, candidates: seq<string>): seq<string>
  {
    Prefix(Without(candidates, correct), 3)
  }

  /** One to three distractors, all different from each other and from the correct
      answer; the first ones are the drawn pool sentences other than the correct answer. */
  lemma DistractorsSpec(correct: string, draw: Draw, hits: seq<SearchHit>)
    ensures var d := Distractors(correct, Candidates(draw, hits));
            && 1 <= |d| <= 3
            && correct !in d
            && Distinct(d)
            && d == Without(Candidates(draw, hits), correct)
  {
    CandidatesDistinct(draw, hits);
    FilterCandidates(Candidates(draw, hits), correct);
  }

  /** A pool of four different sentences, each ending with a full stop. */
  predicate PoolShaped(pool: seq<string>)
  {
    && |pool| == 4
    && Distinct(pool)
    && forall i :: 0 <= i < |pool| ==> |pool[i]| > 0 && pool[i][|pool[i]| - 1] == '.'
  }

  lemma GenericPoolShaped()
    ensures PoolShaped(GenericPool)
  {
  }

  /** Two or three candidates, all different: a snippet has no full stop, so it is never a
      pool sentence. */
  lemma CandidatesDistinct(draw: Draw, hits: seq<SearchHit>)
    ensures 2 <= |Candidates(draw, hits)| <= 3
    ensures Distinct(Candidates(draw, hits))
  {
    var p := SamplePair(draw.first, draw.second);
    GenericPoolShaped();
    PickedDistinct(GenericPool, p.0, p.1, hits);
  }

  /** The candidates drawn from any such pool are all different. */
  lemma PickedDistinct(pool: seq<string>, i: nat, j: nat, hits: seq<SearchHit>)
    requires PoolShaped(pool) && i < 4 && j < 4 && i != j
    ensures 2 <= |WithSnippet(pool[i], pool[j], hits)| <= 3
    ensures Distinct(WithSnippet(pool[i], pool[j], hits))
  {
    SentencesAndSnippet(pool[i], pool[j], SnippetOf(hits));
  }

  /** Two different sentences ending in a full stop, then at most one string that does
      not end in one, are all different. */
  lemma SentencesAndSnippet(a: string, b: string, rest: seq<string>)
    requires a != b && |rest| <= 1
    requires |a| > 0 && a[|a| - 1] == '.' && |b| > 0 && b[|b| - 1] == '.'
    requires forall k :: 0 <= k < |rest| ==> |rest[k]| > 0 && rest[k][|rest[k]| - 1] != '.'
    ensures Distinct([a, b] + rest)
  {
    if rest != [] {
      assert rest[0] != a && rest[0] != b;
    }
  }

  /** Filtering the correct answer out of two or three distinct candidates leaves one to
      three distinct distractors, all of which `[:3]` keeps. */
  lemma FilterCandidates(cs: seq<string>, correct: string)
    requires Distinct(cs) && 2 <= |cs| <= 3
    ensures var d := Prefix(Without(cs, correct), 3);
            && 1 <= |d| <= 3
            && correct !in d
            && Distinct(d)
            && d == Without(cs, correct)
  {
    WithoutDistinct(cs, correct);
    var w := Without(cs, correct);
    assert cs[0] in w || cs[1] in w;
    assert |w| <= 3 by {
      DistinctLength(w, ToSet(cs));
      SetLength(cs);
    }
  }

  // ---------------------------------------------------------------------------
  //  _build_single_mcq: shuffling and letters
  // ---------------------------------------------------------------------------

  const Letters: seq<string> := ["A", "B", "C", "D"]

  /** An option under its letter. */
  datatype Labelled = Labelled(letter: string, text: string)

  /** `{ltr: opt for ltr, opt in zip(letters, all_opts)}`, in letter order. */
  function AssignLetters(options: seq<string>): (r: seq<Labelled>)
    ensures |r| == if |options| < 4 then |options| else 4
    ensures forall i :: 0 <= i < |r| ==> r[i] == Labelled(Letters[i], options[i])
  {
    var n := if |options| < 4 then |options| else 4;
    seq(n, i requires 0 <= i < n => Labelled(Letters[i], options[i]))
  }

  /** The position of the first option with this text, or `|options|`. */
  function TextIndex(options: seq<Labelled>, text: string): (i: nat)
    ensures i <= |options|
    ensures i < |options| ==> options[i].text == text
    ensures forall j :: 0 <= j < i ==> options[j].text != text
  {
    if options == [] || options[0].text == text then 0 else 1 + TextIndex(options[1..], text)
  }

  /** The position of the first option under this letter, or `|options|`. */
  function LetterIndex(options: seq<Labelled>, letter: string): (i: nat)
    ensures i <= |options|
    ensures i < |options| ==> options[i].letter == letter
    ensures forall j :: 0 <= j < i ==> options[j].letter != letter
  {
    if options == [] || options[0].letter == letter then 0 else 1 + LetterIndex(options[1..], letter)
  }

  /** `next(ltr for ltr, opt in options_dict.items() if opt == correct_text)`; `None`
      stands for the iterator running out. */
  function CorrectLetter(options: seq<Labelled>, correct: string): Option<string>
  {
    var i := TextIndex(options, correct);
    if i < |options| then Some(options[i].letter) else None
  }

  /** Shuffling the distractors together with the correct answer and lettering them
      gives two to four options with pairwise different texts, lettered in order, and
      the correct answer's letter leads back to it. */
  lemma ArrangedOptions(distractors: seq<string>, correct: string, shuffle: seq<nat>)
    requires 1 <= |distractors| <= 3 && correct !in distractors && Distinct(distractors)
    ensures var options := AssignLetters(Permute(distractors + [correct], shuffle));
            && 2 <= |options| <= 4
            && (forall i :: 0 <= i < |options| ==> options[i].letter == Letters[i])
            && (forall i, j :: 0 <= i < j < |options| ==> options[i].text != options[j].text)
            && CorrectLetter(options, correct).Some?
            && CorrectLetter(options, correct).value in Letters
            && Lookup(options, CorrectLetter(options, correct).value) == Some(correct)
  {
    var d := distractors + [correct];
    assert Distinct(d) by {
      forall a, b | 0 <= a < b < |d| ensures d[a] != d[b] {
        assert d[a] == distractors[a];
      }
    }
    var arranged := Permute(d, shuffle);
    assert correct in multiset(arranged) by {
      assert d[|d| - 1] == correct;
    }
    PermuteDistinct(d, shuffle);
    CorrectLetterResolves(arranged, correct);
  }

  /** `options_dict.get(letter)` */
  function Lookup(options: seq<Labelled>, letter: string): Option<string>
  {
    var i := LetterIndex(options, letter);
    if i < |options| then Some(options[i].text) else None
  }

  /** For any arrangement of at most four options that includes the correct answer,
      the letter found for it is one of A to D and the option under that letter is
      the correct answer. */
  lemma CorrectLetterResolves(arranged: seq<string>, correct: string)
    requires correct in arranged && |arranged| <= 4
    ensures CorrectLetter(AssignLetters(arranged), correct).Some?
    ensures CorrectLetter(AssignLetters(arranged), correct).value in Letters
    ensures Lookup(AssignLetters(arranged), CorrectLetter(AssignLetters(arranged), correct).value) == Some(correct)
  {
    var o := AssignLetters(arranged);
    var p :| 0 <= p < |arranged| && arranged[p] == correct;
    assert o[p].text == correct;
    var i := TextIndex(o, correct);
    var j := LetterIndex(o, o[i].letter);
    assert Letters[j] == Letters[i];
  }

  // ---------------------------------------------------------------------------
  //  The session table and grading
  // ---------------------------------------------------------------------------

  /** One public question: id, text and lettered options. */
  datatype PublicQuestion = PublicQuestion(id: string, question: string, options: seq<Labelled>)

  /** The hidden part of a question: its correct letter and justification. */
  datatype AnswerKey = AnswerKey(id: string, correct: string, justification: string)

  /** The result of `generate_questions`. */
  datatype Generated = Generated(sessionId: string, questions: seq<PublicQuestion>)

  /** One entry of the result of `grade`. */
  datatype Graded = Graded(id: string, your: string, correct: string, isRight: bool, score: nat, justification: string)

  /** `f"q_{idx + 1}"` */
  function QuestionId(idx: nat): string
  {
    "q_" + NatToString(idx + 1)
  }

  lemma QuestionIdsDistinct(i: nat, j: nat)
    requires QuestionId(i) == QuestionId(j)
    ensures i == j
  {
    assert NatToString(i + 1) == QuestionId(i)[2..];
    assert NatToString(j + 1) == QuestionId(j)[2..];
    NatToStringInjective(i + 1, j + 1);
  }

  /** `concept = random.choice(concepts) if concepts else "the given document"` */
  function ChooseConcept(concepts: seq<string>, pick: nat): (c: string)
    ensures concepts != [] ==> c in concepts
  {
    if concepts != [] then concepts[pick % |concepts|] else "the given document"
  }

  function QuestionText(concept: string): string
  {
    "According to the document, what best describes " + concept + "?"
  }

  /** The graded entry for one stored question. */
  function GradeOne(key: AnswerKey, answers: map<string, string>): Graded
  {
    var your := Upper(Get(answers, key.id));
    Graded(key.id, your, key.correct, your == key.correct, if your == key.correct then 100 else 0, key.justification)
  }

  /** A submitted letter scores 100 exactly when, upper-cased, it is the stored letter;
      an unanswered question scores 0. */
  lemma GradeOneSpec(key: AnswerKey, answers: map<string, string>)
    requires key.correct in Letters
    ensures GradeOne(key, answers).score == 100 <==> GradeOne(key, answers).isRight
    ensures GradeOne(key, answers).score == 0 <==> !GradeOne(key, answers).isRight
    ensures GradeOne(key, answers).isRight <==> key.id in answers && Upper(answers[key.id]) == key.correct
    ensures key.id !in answers ==> GradeOne(key, answers).score == 0 && GradeOne(key, answers).your == ""
  {
    if key.id !in answers {
      assert Upper("") == "";
      assert |key.correct| == 1;
    }
  }

  function GradeAll(keys: seq<AnswerKey>, answers: map<string, string>): (r: seq<Graded>)
    ensures |r| == |keys|
    ensures forall k :: 0 <= k < |keys| ==> r[k] == GradeOne(keys[k], answers)
  {
    seq(|keys|, k requires 0 <= k < |keys| => GradeOne(keys[k], answers))
  }

  /** Every stored key names one of the letters A to D. */
  ghost predicate KeysWellFormed(quizzes: map<string, seq<AnswerKey>>)
  {
    forall s :: s in quizzes ==> forall k :: 0 <= k < |quizzes[s]| ==> quizzes[s][k].correct in Letters
  }

  /** Storing a session whose keys agree with its questions keeps every stored letter valid. */
  lemma KeysWellFormedPut(quizzes: map<string, seq<AnswerKey>>, sessionId: string, keys: seq<AnswerKey>,
                          questions: seq<PublicQuestion>, answers: seq<Answer>)
    requires KeysWellFormed(quizzes) && KeysAgree(questions, keys, answers)
    ensures KeysWellFormed(quizzes[sessionId := keys])
  {
    var m: map<string, seq<AnswerKey>> := quizzes[sessionId := keys];
    forall s: string, k: int | s in m && 0 <= k < |m[s]|
      ensures m[s][k].correct in Letters
    {
      if s != sessionId {
        assert m[s] == quizzes[s];
      }
    }
  }

  /** The questions of one session, their answer keys and the service's answers to them
      agree: the ids are `q_1`, `q_2`, … on both sides, question `k + 1` asks about the
      `k`-th drawn concept, and each key's letter names the option holding the answer. */
  ghost predicate Agree(questions: seq<PublicQuestion>, keys: seq<AnswerKey>, concepts: seq<string>, draws: nat -> Draw,
                        answers: seq<Answer>)
  {
    IdsAgree(questions, keys) && TextsAgree(questions, concepts, draws) && KeysAgree(questions, keys, answers)
  }

  ghost predicate IdsAgree(questions: seq<PublicQuestion>, keys: seq<AnswerKey>)
  {
    && |keys| == |questions|
    && forall k :: 0 <= k < |questions| ==> questions[k].id == QuestionId(k) == keys[k].id
  }

  ghost predicate TextsAgree(questions: seq<PublicQuestion>, concepts: seq<string>, draws: nat -> Draw)
  {
    forall k :: 0 <= k < |questions| ==> questions[k].question == QuestionText(ChooseConcept(concepts, draws(k).pick))
  }

  ghost predicate KeysAgree(questions: seq<PublicQuestion>, keys: seq<AnswerKey>, answers: seq<Answer>)
  {
    && |keys| == |questions| == |answers|
    && forall k :: 0 <= k < |questions| ==>
         && keys[k].correct in Letters
         && Lookup(questions[k].options, keys[k].correct) == Some(Strip(answers[k].answer))
         && keys[k].justification == answers[k].justification
  }

  /** The options of one question: two to four of them, lettered `A`, `B`, … in order,
      with pairwise different texts. */
  predicate OptionsShaped(options: seq<Labelled>)
  {
    && 2 <= |options| <= 4
    && (forall i :: 0 <= i < |options| ==> options[i].letter == Letters[i])
    && (forall i, j :: 0 <= i < j < |options| ==> options[i].text != options[j].text)
  }

  /** Every question of a session has well-shaped options. */
  ghost predicate QuestionsShaped(questions: seq<PublicQuestion>)
  {
    forall k :: 0 <= k < |questions| ==> OptionsShaped(questions[k].options)
  }

  lemma QuestionsShapedSnoc(questions: seq<PublicQuestion>, q: PublicQuestion)
    requires QuestionsShaped(questions)
    requires OptionsShaped(q.options)
    ensures QuestionsShaped(questions + [q])
  {
    var qs := questions + [q];
    forall k | 0 <= k < |qs|
      ensures OptionsShaped(qs[k].options)
    {
      if k < |questions| {
        assert qs[k] == questions[k];
      }
    }
  }

  lemma IdsAgreeSnoc(questions: seq<PublicQuestion>, keys: seq<AnswerKey>, q: PublicQuestion, key: AnswerKey)
    requires IdsAgree(questions, keys)
    requires q.id == QuestionId(|questions|) == key.id
    ensures IdsAgree(questions + [q], keys + [key])
  {
    var qs := questions + [q];
    var ks := keys + [key];
    forall k | 0 <= k < |qs|
      ensures qs[k].id == QuestionId(k) == ks[k].id
    {
      if k < |questions| {
        assert qs[k] == questions[k] && ks[k] == keys[k];
      }
    }
  }

  lemma TextsAgreeSnoc(questions: seq<PublicQuestion>, q: PublicQuestion, concepts: seq<string>, draws: nat -> Draw)
    requires TextsAgree(questions, concepts, draws)
    requires q.question == QuestionText(ChooseConcept(concepts, draws(|questions|).pick))
    ensures TextsAgree(questions + [q], concepts, draws)
  {
    var qs := questions + [q];
    forall k | 0 <= k < |qs|
      ensures qs[k].question == QuestionText(ChooseConcept(concepts, draws(k).pick))
    {
      if k < |questions| {
        assert qs[k] == questions[k];
      }
    }
  }

  lemma KeysAgreeSnoc(questions: seq<PublicQuestion>, keys: seq<AnswerKey>, answers: seq<Answer>,
                      q: PublicQuestion, key: AnswerKey, answer: Answer)
    requires KeysAgree(questions, keys, answers)
    requires key.correct in Letters && Lookup(q.options, key.correct) == Some(Strip(answer.answer))
    requires key.justification == answer.justification
    ensures KeysAgree(questions + [q], keys + [key], answers + [answer])
  {
    var qs := questions + [q];
    var ks := keys + [key];
    var ans := answers + [answer];
    forall k | 0 <= k < |qs|
      ensures && ks[k].correct in Letters
              && Lookup(qs[k].options, ks[k].correct) == Some(Strip(ans[k].answer))
              && ks[k].justification == ans[k].justification
    {
      if k < |questions| {
        assert qs[k] == questions[k] && ks[k] == keys[k] && ans[k] == answers[k];
      }
    }
  }

  /** Each question's options are the arrangement given for it. */
  ghost predicate OptionsAgree(questions: seq<PublicQuestion>, arranged: seq<seq<Labelled>>)
  {
    && |arranged| == |questions|
    && forall k :: 0 <= k < |questions| ==> questions[k].options == arranged[k]
  }

  lemma OptionsAgreeSnoc(questions: seq<PublicQuestion>, arranged: seq<seq<Labelled>>, q: PublicQuestion)
    requires OptionsAgree(questions, arranged)
    ensures OptionsAgree(questions + [q], arranged + [q.options])
  {
    var qs := questions + [q];
    var os := arranged + [q.options];
    forall k | 0 <= k < |qs|
      ensures qs[k].options == os[k]
    {
      if k < |questions| {
        assert qs[k] == questions[k] && os[k] == arranged[k];
      }
    }
  }

  /** A sequence one longer than `b` that agrees with `b` and ends in `x` is `b + [x]`. */
  lemma SnocEqual<T>(a: seq<T>, b: seq<T>, x: T)
    requires |a| == |b| + 1 && a[|b|] == x
    requires forall k :: 0 <= k < |b| ==> a[k] == b[k]
    ensures a == b + [x]
  {
  }

  // ---------------------------------------------------------------------------
  //  The service
  // ---------------------------------------------------------------------------

  class QuizService {
    /** The shared document service. */
    const rag: RagService
    /** `self.active_quizzes`: session id to its answer keys, in question order. */
    var activeQuizzes: map<string, seq<AnswerKey>>
    /** `self.documents`: cached document text by document id. */
    var documents: map<string, string>

    ghost predicate Valid()
      reads this`activeQuizzes
    {
      KeysWellFormed(activeQuizzes)
    }

    constructor(rag: RagService)
      ensures this.rag == rag && activeQuizzes == map[] && documents == map[]
      ensures Valid()
    {
      this.rag := rag;
      activeQuizzes := map[];
      documents := map[];
    }

    /** `register_document` */
    method RegisterDocument(documentId: string, content: string)
      modifies this
      ensures documents == old(documents)[documentId := content]
      ensures activeQuizzes == old(activeQuizzes)
    {
      documents := documents[documentId := content];
    }

    /** `_generate_distractors` */
    method GenerateDistractors(question: string, correct: string, docId: string, draw: Draw) returns (uniq: seq<string>)
      requires rag.Valid()
      ensures uniq == Distractors(correct, Candidates(draw, rag.SearchOf(question, docId, 3)))
      ensures 1 <= |uniq| <= 3 && correct !in uniq && Distinct(uniq)
    {
      var hits := rag.SearchDocument(question, docId, 3);
      uniq := Distractors(correct, Candidates(draw, hits));
      DistractorsSpec(correct, draw, hits);
    }

    /** `_build_single_mcq`: the question about the drawn concept, the service's answer
        as the correct option, the distractors, shuffled and lettered. */
    method BuildSingleMcq(docId: string, concepts: seq<string>, draw: Draw)
      returns (question: string, options: seq<Labelled>, correctLetter: string, justification: string)
      requires rag.Valid()
      ensures question == QuestionText(ChooseConcept(concepts, draw.pick))
      ensures 2 <= |options| <= 4
      ensures forall i :: 0 <= i < |options| ==> options[i].letter == Letters[i]
      ensures forall i, j :: 0 <= i < j < |options| ==> options[i].text != options[j].text
      ensures correctLetter in Letters
      ensures Lookup(options, correctLetter) == Some(Strip(rag.AnswerOf(question, docId, []).answer))
      ensures justification == rag.AnswerOf(question, docId, []).justification
      ensures options == Arrangement(question, docId, draw)
    {
      var concept := ChooseConcept(concepts, draw.pick);
      question := "According to the document, what best describes " + concept + "?";
      var answer := rag.AnswerQuestion(question, docId, []);
      var correctText := Strip(answer.answer);
      justification := answer.justification;
      var distractors := GenerateDistractors(question, correctText, docId, draw);
      options := AssignLetters(Permute(distractors + [correctText], draw.shuffle));
      ArrangedOptions(distractors, correctText, draw.shuffle);
      correctLetter := CorrectLetter(options, correctText).value;
    }

    /** The options `_build_single_mcq` offers for `question`: the distractors of
        `_generate_distractors` for the drawn candidates, then the stripped answer, shuffled
        by `draw.shuffle` and lettered A, B, … in order. */
    ghost function Arrangement(question: string, docId: string, draw: Draw): seq<Labelled>
      requires rag.Valid()
      reads rag
    {
      var correct := Strip(rag.AnswerOf(question, docId, []).answer);
      AssignLetters(Permute(Distractors(correct, Candidates(draw, rag.SearchOf(question, docId, 3))) + [correct], draw.shuffle))
    }

    /** The arrangements for the given questions, the k-th with draw `draws(k)`. */
    ghost function Arrangements(questions: seq<PublicQuestion>, docId: string, draws: nat -> Draw): (r: seq<seq<Labelled>>)
      requires rag.Valid()
      reads rag
      ensures |r| == |questions|
    {
      seq(|questions|, k requires 0 <= k < |questions| && rag.Valid() reads rag =>
        Arrangement(questions[k].question, docId, draws(k)))
    }

    lemma ArrangementAt(questions: seq<PublicQuestion>, docId: string, draws: nat -> Draw, k: nat)
      requires rag.Valid() && k < |questions|
      ensures Arrangements(questions, docId, draws)[k] == Arrangement(questions[k].question, docId, draws(k))
    {
    }

    lemma ArrangementsSnoc(questions: seq<PublicQuestion>, q: PublicQuestion, docId: string, draws: nat -> Draw)
      requires rag.Valid()
      ensures Arrangements(questions + [q], docId, draws)
              == Arrangements(questions, docId, draws) + [Arrangement(q.question, docId, draws(|questions|))]
    {
      var qs := questions + [q];
      var a := Arrangements(qs, docId, draws);
      forall k | 0 <= k < |questions|
        ensures a[k] == Arrangements(questions, docId, draws)[k]
      {
        ArrangementAt(qs, docId, draws, k);
        ArrangementAt(questions, docId, draws, k);
        assert qs[k] == questions[k];
      }
      ArrangementAt(qs, docId, draws, |questions|);
      SnocEqual(a, Arrangements(questions, docId, draws), Arrangement(q.question, docId, draws(|questions|)));
    }

    /** The service's answers to the given questions, in order. */
    ghost function Answers(questions: seq<PublicQuestion>, docId: string): (r: seq<Answer>)
      requires rag.HasCollections()
      reads rag
      ensures |r| == |questions|
    {
      seq(|questions|, k requires 0 <= k < |questions| && rag.HasCollections() reads rag =>
        rag.AnswerOf(questions[k].question, docId, []))
    }

    lemma AnswerAt(questions: seq<PublicQuestion>, docId: string, k: nat)
      requires rag.HasCollections() && k < |questions|
      ensures Answers(questions, docId)[k] == rag.AnswerOf(questions[k].question, docId, [])
    {
    }

    lemma AnswersSnoc(questions: seq<PublicQuestion>, q: PublicQuestion, docId: string)
      requires rag.HasCollections()
      ensures Answers(questions + [q], docId) == Answers(questions, docId) + [rag.AnswerOf(q.question, docId, [])]
    {
      var qs := questions + [q];
      var a := Answers(qs, docId);
      forall k | 0 <= k < |questions|
        ensures a[k] == Answers(questions, docId)[k]
      {
        AnswerAt(qs, docId, k);
        AnswerAt(questions, docId, k);
        assert qs[k] == questions[k];
      }
      AnswerAt(qs, docId, |questions|);
      SnocEqual(a, Answers(questions, docId), rag.AnswerOf(q.question, docId, []));
    }

    /** The loop of `generate_questions`. */
    method BuildQuestions(docId: string, concepts: seq<string>, n: nat, draws: nat -> Draw)
      returns (questions: seq<PublicQuestion>, session: seq<AnswerKey>)
      requires rag.Valid()
      ensures |questions| == n
      ensures Agree(questions, session, concepts, draws, Answers(questions, docId))
      ensures QuestionsShaped(questions)
      ensures OptionsAgree(questions, Arrangements(questions, docId, draws))
    {
      session := [];
      questions := [];
      ghost var answers: seq<Answer> := [];
      ghost var arranged: seq<seq<Labelled>> := [];
      for idx := 0 to n
        invariant |questions| == idx
        invariant answers == Answers(questions, docId)
        invariant IdsAgree(questions, session) && TextsAgree(questions, concepts, draws)
        invariant KeysAgree(questions, session, answers)
        invariant QuestionsShaped(questions)
        invariant arranged == Arrangements(questions, docId, draws) && OptionsAgree(questions, arranged)
      {
        var qId := "q_" + NatToString(idx + 1);
        var qText, optionsDict, correctLetter, justification := BuildSingleMcq(docId, concepts, draws(idx));
        var q := PublicQuestion(qId, qText, optionsDict);
        var key := AnswerKey(qId, correctLetter, justification);
        ghost var answer := rag.AnswerOf(qText, docId, []);
        IdsAgreeSnoc(questions, session, q, key);
        TextsAgreeSnoc(questions, q, concepts, draws);
        KeysAgreeSnoc(questions, session, answers, q, key, answer);
        AnswersSnoc(questions, q, docId);
        QuestionsShapedSnoc(questions, q);
        ArrangementsSnoc(questions, q, docId, draws);
        OptionsAgreeSnoc(questions, arranged, q);
        questions := questions + [q];
        session := session + [key];
        answers := answers + [answer];
        arranged := arranged + [q.options];
      }
    }

    /** The caching step of `generate_questions`: a cached id is used as is; otherwise
        the document service is asked and the preview of its content is cached. */
    method CacheDocument(docId: string) returns (r: Result<string>)
      requires rag.Valid()
      modifies this`documents
      ensures docId in old(documents) ==> r == Ok(old(documents)[docId]) && documents == old(documents)
      ensures docId !in old(documents) && !rag.DocumentExists(docId) ==>
                r == Err(ValueError("Document not found")) && documents == old(documents)
      ensures docId !in old(documents) && rag.DocumentExists(docId) && Strip(docId) !in rag.documents ==>
                r == Err(PlainException("Document not found")) && documents == old(documents)
      ensures r.Ok? <==> docId in old(documents) || Strip(docId) in rag.documents
      ensures r.Ok? ==>
                && documents == (if docId in old(documents) then old(documents)
                                 else old(documents)[docId := Preview(rag.documents[Strip(docId)].content)])
                && r.value == documents[docId]
    {
      if docId !in documents {
        if !rag.DocumentExists(docId) {
          return Err(ValueError("Document not found"));
        }
        var ctx := rag.GetDocumentContext(docId);
        if ctx.Err? {
          return Err(ctx.error);
        }
        documents := documents[docId := ctx.value.preview];
      }
      r := Ok(documents[docId]);
    }

    /** `generate_questions(doc_id, num_questions)` with `sessionId` standing for the
        new `uuid4` and `draws(idx)` for the random draws of question `idx`. */
    method GenerateQuestions(docId: string, numQuestions: int, sessionId: string, draws: nat -> Draw)
      returns (r: Result<Generated>)
      requires rag.Valid() && Valid()
      modifies this
      ensures Valid()
      ensures docId !in old(documents) && !rag.DocumentExists(docId) ==>
                r == Err(ValueError("Document not found")) && documents == old(documents) && activeQuizzes == old(activeQuizzes)
      ensures docId !in old(documents) && rag.DocumentExists(docId) && Strip(docId) !in rag.documents ==>
                r == Err(PlainException("Document not found")) && documents == old(documents) && activeQuizzes == old(activeQuizzes)
      ensures r.Ok? <==> docId in old(documents) || Strip(docId) in rag.documents
      ensures r.Ok? ==>
                && documents == (if docId in old(documents) then old(documents)
                                 else old(documents)[docId := Preview(rag.documents[Strip(docId)].content)])
                && r.value.sessionId == sessionId
                && |r.value.questions| == (if numQuestions > 0 then numQuestions else 0)
                && sessionId in activeQuizzes
                && activeQuizzes == old(activeQuizzes)[sessionId := activeQuizzes[sessionId]]
                && Agree(r.value.questions, activeQuizzes[sessionId], KeyConcepts(documents[docId]), draws,
                         Answers(r.value.questions, docId))
                && QuestionsShaped(r.value.questions)
                && OptionsAgree(r.value.questions, Arrangements(r.value.questions, docId, draws))
    {
      var cached := CacheDocument(docId);
      if cached.Err? {
        return Err(cached.error);
      }
      var concepts := ExtractKeyConcepts(cached.value);
      var questions, session := BuildQuestions(docId, concepts, if numQuestions > 0 then numQuestions else 0, draws);
      KeysWellFormedPut(activeQuizzes, sessionId, session, questions, Answers(questions, docId));
      activeQuizzes := activeQuizzes[sessionId := session];
      r := Ok(Generated(sessionId, questions));
    }

    /** `grade(session_id, answers)`: the session is consumed; an unknown or already
        graded session raises and changes nothing. */
    method Grade(sessionId: string, answers: map<string, string>) returns (r: Result<seq<Graded>>)
      requires Valid()
      modifies this
      ensures Valid()
      ensures sessionId !in activeQuizzes
      ensures documents == old(documents)
      ensures sessionId !in old(activeQuizzes) ==>
                r == Err(ValueError("Invalid or expired session_id")) && activeQuizzes == old(activeQuizzes)
      ensures sessionId in old(activeQuizzes) ==>
                r == Ok(GradeAll(old(activeQuizzes)[sessionId], answers))
                && activeQuizzes == old(activeQuizzes) - {sessionId}
    {
      if sessionId !in activeQuizzes {
        return Err(ValueError("Invalid or expired session_id"));
      }
      var key := activeQuizzes[sessionId];
      activeQuizzes := activeQuizzes - {sessionId};
      var results: seq<Graded> := [];
      for i := 0 to |key|
        invariant |results| == i
        invariant forall k :: 0 <= k < i ==> results[k] == GradeOne(key[k], answers)
      {
        var userLetter := Upper(Get(answers, key[i].id));
        var correctLetter := key[i].correct;
        var isRight := userLetter == correctLetter;
        results := results + [Graded(key[i].id, userLetter, correctLetter, isRight, if isRight then 100 else 0, key[i].justification)];
      }
      assert results == GradeAll(key, answers);
      r := Ok(results);
    }
  }
}
