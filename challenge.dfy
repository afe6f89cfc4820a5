/** The in-memory store behind challenge mode: sessions of fabricated questions,
    one free-text answer evaluated at a time, progress, hints and the end of a session.
    String similarity is `SequenceMatcher(None, a, b).ratio()` on lower-cased,
    stripped inputs; it enters the model as an uninterpreted function into [0, 1]. */
module Challenge {
  import opened Text
  import opened Outcomes

  // ---------------------------------------------------------------------------
  //  Rounding
  // ---------------------------------------------------------------------------

  /** Python's `round(x)`: to the nearest integer, halves to the even neighbour. */
  function RoundHalfEven(x: real): (r: int)
    ensures r as real - 0.5 <= x <= r as real + 0.5
    ensures x == x.Floor as real ==> r == x.Floor
    ensures x - x.Floor as real == 0.5 ==> r % 2 == 0
  {
    var f := x.Floor;
    var d := x - f as real;
    if d < 0.5 then f
    else if d > 0.5 then f + 1
    else if f % 2 == 0 then f
    else f + 1
  }

  /** Rounding a value between two integers stays between them. */
  lemma RoundWithin(x: real, lo: int, hi: int)
    requires lo as real <= x <= hi as real
    ensures lo <= RoundHalfEven(x) <= hi
  {
  }

  // ---------------------------------------------------------------------------
  //  _fake_questions
  // ---------------------------------------------------------------------------

  datatype QuestionKind = TrueFalse | ShortAnswer

  /** One fabricated question, with its answer and explanation. */
  datatype Question = Question(
    id: string,
    question: string,
    kind: QuestionKind,
    options: Option<seq<string>>,
    correctAnswer: string,
    explanation: string,
    difficulty: string)

  /** The five (question, answer) pairs the stub draws from. */
  const SampleBank: seq<(string, string)> := [
    ("What is the main idea of the introduction?", "To explain the topic's context"),
    ("State one key finding from section\U{A0}2.", "Dataset X outperforms baseline Y"),
    ("Why was method\U{A0}C chosen over method\U{A0}D?", "It achieves higher accuracy"),
    ("True or False: The algorithm is unsupervised.", "False"),
    ("Provide one future\U{2011}work direction mentioned.", "Scaling to real\U{2011}time data")
  ]

  function Explanation(answer: string): string
  {
    "The document states: \U{201C}" + answer + " \U{2026}\U{201D}"
  }

  /** The question built from one bank entry. */
  function MakeQuestion(entry: (string, string), id: string, difficulty: string): Question
  {
    var kind := if entry.1 in ["True", "False"] then TrueFalse else ShortAnswer;
    Question(id, entry.0, kind, if kind == TrueFalse then Some(["True", "False"]) else None,
             entry.1, Explanation(entry.1), difficulty)
  }

  /** The questions built from the chosen bank entries, in order. */
  function Fabricate(chosen: seq<(string, string)>, difficulty: string, ids: nat -> string): (qs: seq<Question>)
    ensures |qs| == |chosen|
    ensures forall k :: 0 <= k < |qs| ==> qs[k] == MakeQuestion(chosen[k], ids(k), difficulty)
  {
    seq(|chosen|, k requires 0 <= k < |chosen| => MakeQuestion(chosen[k], ids(k), difficulty))
  }

  /** What `_fake_questions(num, difficulty)` returns when the shuffle is `order` and
      the `k`-th new uuid is `ids(k)`. */
  function FakeQuestionsOf(num: int, difficulty: string, order: seq<nat>, ids: nat -> string): seq<Question>
  {
    Fabricate(Prefix(Permute(SampleBank, order), num), difficulty, ids)
  }

  /** How many questions `sample_bank[:num]` keeps: `min(num, 5)` for `num >= 0`, and
      for a negative `num` all but the last `-num`. */
  function QuestionCount(num: int): nat
  {
    if num >= 5 then 5 else if num >= 0 then num else if num > -5 then 5 + num else 0
  }

  /** A question is true/false exactly when its answer is "True" or "False", and exactly
      then it offers the options "True" and "False"; it keeps its entry, uuid, the
      requested difficulty and the explanation quoting its answer. */
  lemma MakeQuestionSpec(entry: (string, string), id: string, difficulty: string)
    ensures var q := MakeQuestion(entry, id, difficulty);
            && (q.question, q.correctAnswer) == entry
            && q.id == id && q.difficulty == difficulty
            && q.explanation == Explanation(q.correctAnswer)
            && (q.kind == TrueFalse <==> q.correctAnswer == "True" || q.correctAnswer == "False")
            && (q.kind == TrueFalse <==> q.options == Some(["True", "False"]))
            && (q.kind == ShortAnswer <==> q.options == None)
  {
  }

  lemma BankSize()
    ensures |SampleBank| == 5
  {
  }

  /** The stub keeps `QuestionCount(num)` questions, the `k`-th from the `k`-th entry of
      the shuffled bank. */
  lemma FakeQuestionsCount(num: int, difficulty: string, order: seq<nat>, ids: nat -> string)
    ensures var qs := FakeQuestionsOf(num, difficulty, order, ids);
            && |qs| == QuestionCount(num)
            && forall k :: 0 <= k < |qs| ==> qs[k] == MakeQuestion(Permute(SampleBank, order)[k], ids(k), difficulty)
  {
    BankSize();
    FabricateCount(SampleBank, num, difficulty, order, ids);
  }

  /** The same for any five-entry bank. */
  lemma FabricateCount(bank: seq<(string, string)>, num: int, difficulty: string, order: seq<nat>, ids: nat -> string)
    requires |bank| == 5
    ensures var qs := Fabricate(Prefix(Permute(bank, order), num), difficulty, ids);
            && |qs| == QuestionCount(num)
            && forall k :: 0 <= k < |qs| ==> qs[k] == MakeQuestion(Permute(bank, order)[k], ids(k), difficulty)
  {
    var chosen := Prefix(Permute(bank, order), num);
    assert |chosen| == QuestionCount(num);
    assert forall k :: 0 <= k < |chosen| ==> chosen[k] == Permute(bank, order)[k];
  }

  lemma BankQuestionsDistinct()
    ensures TextsDistinct(SampleBank)
  {
    assert |SampleBank[0].0| == 42 && |SampleBank[1].0| == 37 && |SampleBank[2].0| == 38;
    assert |SampleBank[3].0| == 45 && |SampleBank[4].0| == 44;
  }

  /** Only the fourth bank entry has the answer "True" or "False". */
  lemma BankTrueFalse()
    ensures AtMostOneTrueFalseEntry(SampleBank)
  {
    assert |SampleBank[0].1| == 30 && |SampleBank[1].1| == 32 && |SampleBank[2].1| == 27 && |SampleBank[4].1| == 25;
  }

  /** No two entries share a question text. */
  predicate TextsDistinct(entries: seq<(string, string)>)
  {
    forall a, b :: 0 <= a < b < |entries| ==> entries[a].0 != entries[b].0
  }

  /** Every entry is taken from the bank. */
  predicate DrawnFrom(entries: seq<(string, string)>, bank: seq<(string, string)>)
  {
    forall k :: 0 <= k < |entries| ==> entries[k] in bank
  }

  /** Whether a bank entry makes a true/false question. */
  predicate IsTrueFalseEntry(entry: (string, string))
  {
    entry.1 == "True" || entry.1 == "False"
  }

  predicate AtMostOneTrueFalseEntry(entries: seq<(string, string)>)
  {
    forall a, b :: 0 <= a < b < |entries| ==> !(IsTrueFalseEntry(entries[a]) && IsTrueFalseEntry(entries[b]))
  }

  /** A shuffled prefix of a bank is drawn from it, and keeps question texts distinct and
      at most one true/false entry when the bank does. */
  lemma ShuffledPrefixFromBank(bank: seq<(string, string)>, num: int, order: seq<nat>)
    requires TextsDistinct(bank) && AtMostOneTrueFalseEntry(bank)
    ensures DrawnFrom(Prefix(Permute(bank, order), num), bank)
    ensures TextsDistinct(Prefix(Permute(bank, order), num))
    ensures AtMostOneTrueFalseEntry(Prefix(Permute(bank, order), num))
  {
    var shuffled := Permute(bank, order);
    var chosen := Prefix(shuffled, num);
    assert forall x :: x in shuffled ==> x in bank by {
      forall x | x in shuffled ensures x in bank {
        assert x in multiset(shuffled);
      }
    }
    assert Distinct(bank);
    PermuteDistinct(bank, order);
    forall a, b | 0 <= a < b < |chosen|
      ensures chosen[a].0 != chosen[b].0
      ensures !(IsTrueFalseEntry(chosen[a]) && IsTrueFalseEntry(chosen[b]))
    {
      assert chosen[a] == shuffled[a] && chosen[b] == shuffled[b];
      assert shuffled[a] in bank && shuffled[b] in bank;
      var i :| 0 <= i < |bank| && bank[i] == shuffled[a];
      var j :| 0 <= j < |bank| && bank[j] == shuffled[b];
      assert i < j || j < i;
    }
  }

  /** The entries behind a list of questions. */
  function EntriesOf(qs: seq<Question>): (r: seq<(string, string)>)
    ensures |r| == |qs|
    ensures forall k :: 0 <= k < |qs| ==> r[k] == (qs[k].question, qs[k].correctAnswer)
  {
    seq(|qs|, k requires 0 <= k < |qs| => (qs[k].question, qs[k].correctAnswer))
  }

  /** Fabricating questions keeps the entries, and marks as true/false exactly the
      true/false entries. */
  lemma FabricateEntries(chosen: seq<(string, string)>, difficulty: string, ids: nat -> string)
    ensures EntriesOf(Fabricate(chosen, difficulty, ids)) == chosen
    ensures forall k :: 0 <= k < |chosen| ==>
              (Fabricate(chosen, difficulty, ids)[k].kind == TrueFalse <==> IsTrueFalseEntry(chosen[k]))
  {
    var qs := Fabricate(chosen, difficulty, ids);
    forall k | 0 <= k < |chosen|
      ensures (qs[k].question, qs[k].correctAnswer) == chosen[k]
      ensures qs[k].kind == TrueFalse <==> IsTrueFalseEntry(chosen[k])
    {
      MakeQuestionSpec(chosen[k], ids(k), difficulty);
    }
  }

  /** Every fabricated question is one of the bank's pairs, no question text appears
      twice, and at most one question is a true/false question. */
  lemma FakeQuestionsFromBank(num: int, difficulty: string, order: seq<nat>, ids: nat -> string)
    ensures DrawnFrom(EntriesOf(FakeQuestionsOf(num, difficulty, order, ids)), SampleBank)
    ensures TextsDistinct(EntriesOf(FakeQuestionsOf(num, difficulty, order, ids)))
    ensures var qs := FakeQuestionsOf(num, difficulty, order, ids);
            forall a, b :: 0 <= a < b < |qs| ==> !(qs[a].kind == TrueFalse && qs[b].kind == TrueFalse)
  {
    var chosen := Prefix(Permute(SampleBank, order), num);
    var qs := FakeQuestionsOf(num, difficulty, order, ids);
    BankQuestionsDistinct();
    BankTrueFalse();
    ShuffledPrefixFromBank(SampleBank, num, order);
    FabricateEntries(chosen, difficulty, ids);
    assert EntriesOf(qs) == chosen;
    forall a, b | 0 <= a < b < |qs| ensures !(qs[a].kind == TrueFalse && qs[b].kind == TrueFalse) {
      assert !(IsTrueFalseEntry(chosen[a]) && IsTrueFalseEntry(chosen[b]));
    }
  }

  /** `_fake_questions(num, difficulty)`: shuffles the bank, then builds one question
      per kept pair. */
  method FakeQuestions(num: int, difficulty: string, order: seq<nat>, ids: nat -> string) returns (out: seq<Question>)
    ensures out == FakeQuestionsOf(num, difficulty, order, ids)
    ensures |out| == QuestionCount(num)
  {
    var sampleBank := Permute(SampleBank, order);
    out := BuildFromEntries(Prefix(sampleBank, num), difficulty, ids);
    FakeQuestionsCount(num, difficulty, order, ids);
  }

  /** The loop of `_fake_questions`: one question per chosen entry, in order. */
  method BuildFromEntries(chosen: seq<(string, string)>, difficulty: string, ids: nat -> string) returns (out: seq<Question>)
    ensures out == Fabricate(chosen, difficulty, ids)
  {
    out := [];
    for k := 0 to |chosen|
      invariant |out| == k
      invariant forall j :: 0 <= j < k ==> out[j] == MakeQuestion(chosen[j], ids(j), difficulty)
    {
      var q := MakeQuestion(chosen[k], ids(k), difficulty);
      out := out + [q];
    }
  }

  // ---------------------------------------------------------------------------
  //  Evaluations and the answer log
  // ---------------------------------------------------------------------------

  /** The result of `evaluate_answer`. */
  datatype Evaluation = Evaluation(
    correct: bool,
    score: int,
    feedback: string,
    justification: string,
    correctAnswer: string,
    explanation: string,
    reference: string)

  /** One stored answer: what the user wrote and how it was evaluated. */
  datatype Recorded = Recorded(userAnswer: string, evaluation: Evaluation)

  /** One entry of `session["answers"]`, a dict kept in insertion order. */
  datatype Entry = Entry(questionId: string, record: Recorded)

  const Excellent: string := "Excellent answer! \U{2705}"
  const Close: string := "Close \U{2013} review the key sentence. \U{1F50D}"
  const NotQuite: string := "Not quite, try re\U{2011}reading the section. \U{274C}"

  /** The evaluation of an answer to `q` that scored `score`. */
  function Evaluate(q: Question, score: int): Evaluation
  {
    var correct := score >= 80;
    var feedback := if correct then Excellent else if score >= 60 then Close else NotQuite;
    Evaluation(correct, score, feedback,
               MatchNote(score),
               q.correctAnswer, q.explanation, q.explanation)
  }

  /** The justification that reports the score as a percentage. */
  function MatchNote(score: int): string
  {
    "Your answer matched " + IntToString(score) + "% of the expected answer."
  }

  /** `str(n)` for any integer. */
  function IntToString(n: int): string
  {
    if n < 0 then "-" + NatToString(-n) else NatToString(n)
  }

  /** An answer counts as correct exactly at a score of 80 or more, and the feedback
      names one of three tiers: 80 and up, 60 to 79, below 60. */
  lemma EvaluateSpec(q: Question, score: int)
    ensures Evaluate(q, score).correct <==> score >= 80
    ensures Evaluate(q, score).feedback == Excellent <==> score >= 80
    ensures Evaluate(q, score).feedback == Close <==> 60 <= score < 80
    ensures Evaluate(q, score).feedback == NotQuite <==> score < 60
    ensures Evaluate(q, score).score == score
    ensures Evaluate(q, score).correctAnswer == q.correctAnswer
    ensures Evaluate(q, score).reference == Evaluate(q, score).explanation == q.explanation
  {
    assert Excellent[0] == 'E' && Close[0] == 'C' && NotQuite[0] == 'N';
  }

  function Ids(answers: seq<Entry>): (r: seq<string>)
    ensures |r| == |answers|
    ensures forall i :: 0 <= i < |answers| ==> r[i] == answers[i].questionId
  {
    seq(|answers|, i requires 0 <= i < |answers| => answers[i].questionId)
  }

  /** `answers.get(id)` */
  function Find(answers: seq<Entry>, id: string): Option<Recorded>
  {
    if answers == [] then None
    else if answers[0].questionId == id then Some(answers[0].record)
    else Find(answers[1..], id)
  }

  /** `answers[id] = record`: an existing entry is replaced where it stands, a new one
      goes at the end. */
  function Put(answers: seq<Entry>, id: string, record: Recorded): seq<Entry>
  {
    if answers == [] then [Entry(id, record)]
    else if answers[0].questionId == id then [Entry(id, record)] + answers[1..]
    else [answers[0]] + Put(answers[1..], id, record)
  }

  /** Storing an answer: the id now maps to the new record and every other id keeps
      its record. */
  lemma {:induction false} PutFind(answers: seq<Entry>, id: string, record: Recorded)
    ensures Find(Put(answers, id, record), id) == Some(record)
    ensures forall other :: other != id ==> Find(Put(answers, id, record), other) == Find(answers, other)
    decreases |answers|
  {
    if answers != [] && answers[0].questionId != id {
      PutFind(answers[1..], id, record);
      assert Put(answers, id, record)[1..] == Put(answers[1..], id, record);
    } else if answers != [] {
      assert Put(answers, id, record)[1..] == answers[1..];
    }
  }

  /** The ids after storing an answer: the old ids plus the new one. */
  lemma {:induction false} PutIds(answers: seq<Entry>, id: string, record: Recorded)
    ensures Ids(Put(answers, id, record)) == if id in Ids(answers) then Ids(answers) else Ids(answers) + [id]
    decreases |answers|
  {
    var ids := Ids(answers);
    if answers != [] {
      assert Ids(answers[1..]) == ids[1..];
      if answers[0].questionId == id {
        assert Ids(Put(answers, id, record)) == [id] + ids[1..];
        assert ids == [id] + ids[1..];
      } else {
        PutIds(answers[1..], id, record);
        var tail := Put(answers[1..], id, record);
        assert Ids(Put(answers, id, record)) == [answers[0].questionId] + Ids(tail);
        assert ids == [answers[0].questionId] + ids[1..];
        assert id in ids <==> id in ids[1..];
      }
    }
  }

  /** Storing an answer keeps the ids distinct, and the log grows only for a new id. */
  lemma PutSpec(answers: seq<Entry>, id: string, record: Recorded)
    requires Distinct(Ids(answers))
    ensures Distinct(Ids(Put(answers, id, record)))
    ensures forall x :: x in Ids(Put(answers, id, record)) <==> x == id || x in Ids(answers)
    ensures |Put(answers, id, record)| == |answers| + (if id in Ids(answers) then 0 else 1)
  {
    PutIds(answers, id, record);
    var ids := Ids(answers);
    if id !in ids {
      var r := ids + [id];
      forall a, b | 0 <= a < b < |r| ensures r[a] != r[b] {
        assert r[a] == ids[a];
      }
    }
  }

  /** The sum of the stored scores. */
  function ScoreSum(answers: seq<Entry>): int
  {
    if answers == [] then 0
    else ScoreSum(answers[..|answers| - 1]) + answers[|answers| - 1].record.evaluation.score
  }

  /** Every stored score lies in 0..100. */
  predicate ScoresInRange(answers: seq<Entry>)
  {
    forall i :: 0 <= i < |answers| ==> 0 <= answers[i].record.evaluation.score <= 100
  }

  lemma {:induction false} ScoreSumBounds(answers: seq<Entry>)
    requires ScoresInRange(answers)
    ensures 0 <= ScoreSum(answers) <= 100 * |answers|
    decreases |answers|
  {
    if answers != [] {
      var init := answers[..|answers| - 1];
      assert ScoresInRange(init) by {
        assert forall i :: 0 <= i < |init| ==> init[i] == answers[i];
      }
      ScoreSumBounds(init);
    }
  }

  /** Storing a record whose score is in range keeps every score in range. */
  lemma {:induction false} PutScoresInRange(answers: seq<Entry>, id: string, record: Recorded)
    requires ScoresInRange(answers)
    requires 0 <= record.evaluation.score <= 100
    ensures ScoresInRange(Put(answers, id, record))
    decreases |answers|
  {
    if answers != [] && answers[0].questionId != id {
      assert ScoresInRange(answers[1..]) by {
        assert forall i :: 0 <= i < |answers| - 1 ==> answers[1..][i] == answers[i + 1];
      }
      PutScoresInRange(answers[1..], id, record);
      var tail := Put(answers[1..], id, record);
      assert forall i :: 1 <= i < |tail| + 1 ==> ([answers[0]] + tail)[i] == tail[i - 1];
    } else if answers != [] {
      var r := [Entry(id, record)] + answers[1..];
      assert forall i :: 1 <= i < |r| ==> r[i] == answers[i];
    }
  }

  // ---------------------------------------------------------------------------
  //  Sessions
  // ---------------------------------------------------------------------------

  /** `{q["id"]: q for q in questions}`: a later question with the same id wins. */
  function QMap(questions: seq<Question>): (m: map<string, Question>)
    ensures forall id :: id in m <==> exists k :: 0 <= k < |questions| && questions[k].id == id
    ensures forall k :: 0 <= k < |questions| ==> questions[k].id in m
  {
    if questions == [] then map[]
    else
      var init := questions[..|questions| - 1];
      var last := questions[|questions| - 1];
      assert forall k :: 0 <= k < |init| ==> init[k] == questions[k];
      QMap(init)[last.id := last]
  }

  /** Every entry of the map is one of the listed questions. */
  lemma {:induction false} QMapValues(questions: seq<Question>)
    ensures forall id :: id in QMap(questions) ==> QMap(questions)[id] in questions && QMap(questions)[id].id == id
    decreases |questions|
  {
    if questions != [] {
      var init := questions[..|questions| - 1];
      QMapValues(init);
      assert forall q :: q in init ==> q in questions;
    }
  }

  /** The map has no more keys than there are questions. */
  lemma QMapSize(questions: seq<Question>)
    ensures |QMap(questions).Keys| <= |questions|
  {
    var ids := seq(|questions|, k requires 0 <= k < |questions| => questions[k].id);
    assert QMap(questions).Keys == ToSet(ids) by {
      forall id | id in QMap(questions) ensures id in ToSet(ids) {
        var k :| 0 <= k < |questions| && questions[k].id == id;
        assert ids[k] == id;
      }
    }
    SetLength(ids);
  }

  /** One session: its document, its questions in order, the id map and the answers. */
  datatype Session = Session(docId: string, questions: seq<Question>, qmap: map<string, Question>, answers: seq<Entry>)

  /** What every session keeps: the id map is built from the questions, every answer
      is for a known question and stored once, and every stored score is in 0..100. */
  ghost predicate SessionValid(s: Session)
  {
    && s.qmap == QMap(s.questions)
    && Distinct(Ids(s.answers))
    && (forall id :: id in Ids(s.answers) ==> id in s.qmap)
    && ScoresInRange(s.answers)
  }

  /** The result of `get_session_progress`. */
  datatype Progress = Progress(answered: nat, totalQuestions: nat, averageScore: int)

  function ProgressOf(s: Session): Progress
  {
    var answered := |s.answers|;
    Progress(answered, |s.questions|,
             if answered > 0 then RoundHalfEven(ScoreSum(s.answers) as real / answered as real) else 0)
  }

  /** Progress counts each answered question once, never more than there are
      questions, and the average is a score in 0..100 that is 0 before any answer. */
  lemma ProgressBounds(s: Session)
    requires SessionValid(s)
    ensures ProgressOf(s).answered <= ProgressOf(s).totalQuestions
    ensures 0 <= ProgressOf(s).averageScore <= 100
    ensures ProgressOf(s).answered == 0 ==> ProgressOf(s).averageScore == 0
  {
    var ids := Ids(s.answers);
    DistinctLength(ids, s.qmap.Keys);
    QMapSize(s.questions);
    var n := |s.answers|;
    if n > 0 {
      ScoreSumBounds(s.answers);
      var sum := ScoreSum(s.answers);
      AverageBounds(sum, n);
      RoundWithin(sum as real / n as real, 0, 100);
    }
  }

  /** The mean of `n` scores in 0..100 lies in [0, 100]. */
  lemma AverageBounds(sum: int, n: int)
    requires 0 < n && 0 <= sum <= 100 * n
    ensures 0.0 <= sum as real / n as real <= 100.0
  {
    var q := sum as real / n as real;
    assert q * n as real == sum as real;
    assert (100.0 - q) * n as real == (100 * n - sum) as real;
  }

  /** A fresh session holds its questions, their map and no answers. */
  lemma NewSessionValid(docId: string, questions: seq<Question>)
    ensures SessionValid(Session(docId, questions, QMap(questions), []))
  {
  }

  /** "Hint: " followed by the first four words of the answer and "...". */
  function Hint(answer: string): string
  {
    "Hint: " + Join(Prefix(Words(answer), 4), " ") + "..."
  }

  /** The hint's middle part splits into exactly the first four words of the answer. */
  lemma HintSpec(answer: string)
    ensures var h := Hint(answer);
            && |h| >= 9
            && h[..6] == "Hint: "
            && h[|h| - 3..] == "..."
            && Words(h[6..|h| - 3]) == Prefix(Words(answer), 4)
            && |Words(h[6..|h| - 3])| <= 4
  {
    var ws := Prefix(Words(answer), 4);
    var middle := Join(ws, " ");
    assert forall k :: 0 <= k < |ws| ==> ws[k] == Words(answer)[k];
    WordsJoin(ws);
    assert Hint(answer)[6..|Hint(answer)| - 3] == middle;
  }

  // ---------------------------------------------------------------------------
  //  The service
  // ---------------------------------------------------------------------------

  /** The challenge-mode `QuizService`. */
  class QuizService {
    /** `sessions`: session id to its session. */
    var sessions: map<string, Session>
    /** `SequenceMatcher(None, a, b).ratio()` */
    const ratio: (string, string) -> real

    ghost predicate Valid()
      reads this
    {
      RatioBounded(ratio) && AllSessionsValid(sessions)
    }

    constructor(ratio: (string, string) -> real)
      requires RatioBounded(ratio)
      ensures this.ratio == ratio && sessions == map[]
      ensures Valid()
    {
      this.ratio := ratio;
      sessions := map[];
    }

    /** `_similarity(a, b)` */
    function Similarity(a: string, b: string): real
    {
      ratio(Strip(Lower(a)), Strip(Lower(b)))
    }

    /** `round(_similarity(answer, gold) * 100)`: a score in 0..100. */
    function Score(answer: string, gold: string): (score: int)
      requires RatioBounded(ratio)
      ensures 0 <= score <= 100
    {
      var sim := Similarity(answer, gold);
      RoundWithin(sim * 100.0, 0, 100);
      RoundHalfEven(sim * 100.0)
    }

    /** `generate_questions(doc_id=…, difficulty=…, num_questions=…)` with `sessionId`
        for the new uuid and `order`, `ids` for the stub's shuffle and uuids. */
    method GenerateQuestions(docId: string, difficulty: string, numQuestions: int,
                             sessionId: string, order: seq<nat>, ids: nat -> string)
      returns (sid: string, questions: seq<Question>)
      requires Valid()
      modifies this
      ensures Valid()
      ensures sid == sessionId
      ensures questions == FakeQuestionsOf(numQuestions, difficulty, order, ids)
      ensures sessions == old(sessions)[sessionId := Session(docId, questions, QMap(questions), [])]
    {
      questions := FakeQuestions(numQuestions, difficulty, order, ids);
      sid := sessionId;
      StartSession(sessionId, docId, questions);
    }

    /** Stores a fresh session for the given questions: their map and no answers. */
    method StartSession(sessionId: string, docId: string, questions: seq<Question>)
      requires Valid()
      modifies this
      ensures Valid()
      ensures sessions == old(sessions)[sessionId := Session(docId, questions, QMap(questions), [])]
    {
      var session := Session(docId, questions, QMap(questions), []);
      NewSessionValid(docId, questions);
      StoreSessionValid(sessions, sessionId, session);
      sessions := sessions[sessionId := session];
    }

    /** `evaluate_answer`: scores the answer against the question's gold answer and
        stores it under the question id; an unknown session or question raises and
        changes nothing. The document id is not used. */
    method EvaluateAnswer(sessionId: string, questionId: string, userAnswer: string, docId: string)
      returns (r: Result<Evaluation>)
      requires Valid()
      modifies this
      ensures Valid()
      ensures sessionId !in old(sessions) ==>
                r == Err(ValueError("Unknown session")) && sessions == old(sessions)
      ensures sessionId in old(sessions) && questionId !in old(sessions)[sessionId].qmap ==>
                r == Err(ValueError("Unknown question id")) && sessions == old(sessions)
      ensures sessionId in old(sessions) && questionId in old(sessions)[sessionId].qmap ==>
                var s := old(sessions)[sessionId];
                var q := s.qmap[questionId];
                && r == Ok(Evaluate(q, Score(userAnswer, q.correctAnswer)))
                && sessions == old(sessions)[sessionId := s.(answers := Put(s.answers, questionId, Recorded(userAnswer, r.value)))]
    {
      if sessionId !in sessions {
        return Err(ValueError("Unknown session"));
      }
      var session := sessions[sessionId];
      if questionId !in session.qmap {
        return Err(ValueError("Unknown question id"));
      }
      var q := session.qmap[questionId];
      var gold := q.correctAnswer;
      var score := Score(userAnswer, gold);
      var correct := score >= 80;
      var feedback := if correct then Excellent else if score >= 60 then Close else NotQuite;
      var result := Evaluation(correct, score, feedback,
                               MatchNote(score),
                               gold, q.explanation, q.explanation);
      var stored := Recorded(userAnswer, result);
      PutSpec(session.answers, questionId, stored);
      PutFind(session.answers, questionId, stored);
      PutScoresInRange(session.answers, questionId, stored);
      StoreSessionValid(sessions, sessionId, session.(answers := Put(session.answers, questionId, stored)));
      sessions := sessions[sessionId := session.(answers := Put(session.answers, questionId, Recorded(userAnswer, result)))];
      r := Ok(result);
    }

    /** `get_session_progress`: reads only; an unknown session raises. */
    method GetSessionProgress(sessionId: string) returns (r: Result<Progress>)
      requires Valid()
      ensures sessionId !in sessions ==> r == Err(ValueError("Unknown session"))
      ensures sessionId in sessions ==> r == Ok(ProgressOf(sessions[sessionId]))
      ensures r.Ok? ==> r.value.answered <= r.value.totalQuestions && 0 <= r.value.averageScore <= 100
    {
      if sessionId !in sessions {
        return Err(ValueError("Unknown session"));
      }
      var session := sessions[sessionId];
      var answered := |session.answers|;
      var total := |session.questions|;
      var sum := 0;
      for i := 0 to answered
        invariant sum == ScoreSum(session.answers[..i])
      {
        assert session.answers[..i + 1][..i] == session.answers[..i];
        sum := sum + session.answers[i].record.evaluation.score;
      }
      assert session.answers[..answered] == session.answers;
      var avg := if answered > 0 then RoundHalfEven(sum as real / answered as real) else 0;
      ProgressBounds(session);
      r := Ok(Progress(answered, total, avg));
    }

    /** `get_hint`: an unknown session raises `ValueError`, an unknown question a
        `KeyError`; otherwise the hint built from the gold answer. */
    method GetHint(sessionId: string, questionId: string, docId: string) returns (r: Result<string>)
      ensures sessionId !in sessions ==> r == Err(ValueError("Unknown session"))
      ensures sessionId in sessions && questionId !in sessions[sessionId].qmap ==> r == Err(KeyError(questionId))
      ensures sessionId in sessions && questionId in sessions[sessionId].qmap ==>
                r == Ok(Hint(sessions[sessionId].qmap[questionId].correctAnswer))
    {
      if sessionId !in sessions {
        return Err(ValueError("Unknown session"));
      }
      if questionId !in sessions[sessionId].qmap {
        return Err(KeyError(questionId));
      }
      var q := sessions[sessionId].qmap[questionId];
      r := Ok("Hint: " + Join(Prefix(Words(q.correctAnswer), 4), " ") + "...");
    }

    /** `end_session`: the final progress, then the session is gone; an unknown
        session raises before anything is removed. */
    method EndSession(sessionId: string) returns (r: Result<Progress>)
      requires Valid()
      modifies this
      ensures Valid()
      ensures old(sessionId !in sessions) ==> r == Err(ValueError("Unknown session")) && sessions == old(sessions)
      ensures old(sessionId in sessions) ==>
                r == Ok(ProgressOf(old(sessions)[sessionId])) && sessions == old(sessions) - {sessionId}
      ensures sessionId !in sessions
    {
      var progress := GetSessionProgress(sessionId);
      if progress.Err? {
        return progress;
      }
      RemoveSessionValid(sessions, sessionId);
      sessions := sessions - {sessionId};
      r := progress;
    }
  }

  ghost predicate AllSessionsValid(sessions: map<string, Session>)
  {
    forall sid :: sid in sessions ==> SessionValid(sessions[sid])
  }

  /** Adding or replacing a valid session keeps every session valid. */
  lemma StoreSessionValid(sessions: map<string, Session>, sid: string, s: Session)
    requires AllSessionsValid(sessions) && SessionValid(s)
    ensures AllSessionsValid(sessions[sid := s])
  {
  }

  /** Removing a session keeps every other session valid. */
  lemma RemoveSessionValid(sessions: map<string, Session>, sid: string)
    requires AllSessionsValid(sessions)
    ensures AllSessionsValid(sessions - {sid})
  {
  }

  /** The similarity ratio always lies in [0, 1]. */
  ghost predicate RatioBounded(ratio: (string, string) -> real)
  {
    forall a, b :: 0.0 <= ratio(a, b) <= 1.0
  }
}
