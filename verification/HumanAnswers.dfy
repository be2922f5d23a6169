/** Answers to a batch of human questions: accepted as a whole and put into question order. */
module HumanAnswers {
  import opened Prelude
  import opened Text
  import opened Sorting

  const MAX_INPUT_BYTES := 262144
  const MAX_ANSWER_BYTES := 32768

  datatype Question = Question(id: string, options: Option<seq<string>>)

  datatype Answer =
    | Chosen(questionId: string, optionId: string)
    | Written(questionId: string, text: string)
    | Skipped(questionId: string)

  function AnswerId(a: Answer): string {
    a.questionId
  }

  function QuestionId(q: Question): string {
    q.id
  }

  /** Length of the answers as a JSON array, given the length of each. */
  function WireSize(answers: seq<Answer>, bytes: Answer -> nat): nat {
    2 + Total(answers, bytes) + (if answers == [] then 0 else |answers| - 1)
  }

  predicate ValidText(s: string) {
    Trim(s) != [] && Utf8Len(s) <= MAX_ANSWER_BYTES && '\0' !in s
  }

  predicate Fits(q: Question, a: Answer) {
    match a
    case Chosen(_, option) => q.options.Some? && option in q.options.value
    case Written(_, text) => ValidText(text)
    case Skipped(_) => true
  }

  /** `answer` is the one for `q`, and acceptable for it. */
  predicate Answers(q: Question, a: Answer) {
    a.questionId == q.id && Fits(q, a)
  }

  predicate Answered(q: Question, answers: seq<Answer>) {
    exists a :: a in answers && Answers(q, a)
  }

  predicate Acceptable(qs: seq<Question>, answers: seq<Answer>, bytes: Answer -> nat) {
    qs != [] && |answers| == |qs| && WireSize(answers, bytes) <= MAX_INPUT_BYTES
    && DistinctBy(answers, AnswerId) && DistinctBy(qs, QuestionId)
    && forall i :: 0 <= i < |qs| ==> Answered(qs[i], answers)
  }

  /** Each answer in the place of its question. */
  predicate InOrder(qs: seq<Question>, r: seq<Answer>) {
    |r| == |qs| && forall i :: 0 <= i < |qs| ==> Answers(qs[i], r[i])
  }

  /** The map collected from the answers: a later answer replaces an earlier one with the same id. */
  function ById(answers: seq<Answer>): (m: map<string, Answer>)
    ensures forall k :: k in m ==> m[k] in answers && m[k].questionId == k
    ensures forall a :: a in answers ==> a.questionId in m
  {
    if answers == [] then map[]
    else
      var last := answers[|answers| - 1];
      ById(answers[..|answers| - 1])[last.questionId := last]
  }

  lemma {:induction false} ByIdKeys(answers: seq<Answer>)
    ensures ById(answers).Keys == NameSet(answers, AnswerId)
  {
    if answers == [] {
    } else {
      ByIdKeys(answers[..|answers| - 1]);
    }
  }

  function Ids(qs: seq<Question>): set<string> {
    NameSet(qs, QuestionId)
  }

  /** In a batch of distinct ids, the map holds the only answer with each id. */
  lemma OnlyAnswer(answers: seq<Answer>, a: Answer)
    requires DistinctBy(answers, AnswerId) && a in answers
    ensures a.questionId in ById(answers) && ById(answers)[a.questionId] == a
  {
    var b := ById(answers)[a.questionId];
    var i :| 0 <= i < |answers| && answers[i] == a;
    var j :| 0 <= j < |answers| && answers[j] == b;
    assert AnswerId(answers[i]) == AnswerId(answers[j]);
  }

  /** Looking up a question's id decides whether the question is answered. */
  lemma AnswerLookup(q: Question, answers: seq<Answer>)
    requires DistinctBy(answers, AnswerId)
    ensures Answered(q, answers) <==> q.id in ById(answers) && Fits(q, ById(answers)[q.id])
  {
    hide Fits, ById;
    if Answered(q, answers) {
      var a :| a in answers && Answers(q, a);
      OnlyAnswer(answers, a);
    }
  }

  /**
   * A batch is accepted exactly when it is acceptable, and then comes back as a permutation of the input with
   * answer `i` belonging to question `i`.
   */
  method ValidateAnswers(qs: seq<Question>, answers: seq<Answer>, bytes: Answer -> nat)
    returns (r: Option<seq<Answer>>)
    ensures r.Some? <==> Acceptable(qs, answers, bytes)
    ensures r.Some? ==> InOrder(qs, r.value) && multiset(r.value) == multiset(answers)
  {
    hide Fits, WireSize, ById, Ids, Picked, Acceptable, InOrder;
    r := None;
    CountsDecide(qs, answers, bytes);
    if qs == [] || |answers| != |qs| || WireSize(answers, bytes) > MAX_INPUT_BYTES { return; }
    var byId, questionIds := ById(answers), Ids(qs);
    if |byId| != |answers| || |questionIds| != |qs| { return; }
    var ordered: seq<Answer> := [];
    PickedNone(qs, answers);
    for i := 0 to |qs|
      invariant Picked(qs, answers, ordered, i)
    {
      var q := qs[i];
      PickNext(qs, answers, ordered, i);
      if q.id !in byId {
        Unanswered(qs, answers, bytes, i);
        return;
      }
      var answer := byId[q.id];
      if !Fits(q, answer) {
        Unanswered(qs, answers, bytes, i);
        return;
      }
      ordered := ordered + [answer];
    }
    AllPicked(qs, answers, bytes, ordered);
    r := Some(ordered);
  }

  /** The checks before the loop: sizes, and no repeated id on either side. */
  predicate Countable(qs: seq<Question>, answers: seq<Answer>, bytes: Answer -> nat) {
    qs != [] && |answers| == |qs| && WireSize(answers, bytes) <= MAX_INPUT_BYTES
    && DistinctBy(answers, AnswerId) && DistinctBy(qs, QuestionId)
  }

  lemma CountsDecide(qs: seq<Question>, answers: seq<Answer>, bytes: Answer -> nat)
    ensures Countable(qs, answers, bytes) <==>
            qs != [] && |answers| == |qs| && WireSize(answers, bytes) <= MAX_INPUT_BYTES
            && |ById(answers)| == |answers| && |Ids(qs)| == |qs|
    ensures Acceptable(qs, answers, bytes) ==> Countable(qs, answers, bytes)
  {
    hide WireSize, DistinctBy, Answered, NameSet;
    ByIdKeys(answers);
    NameSetCount(answers, AnswerId);
    NameSetCount(qs, QuestionId);
    assert |ById(answers)| == |ById(answers).Keys|;
  }

  /** The first `i` questions have their answers in place. */
  predicate Picked(qs: seq<Question>, answers: seq<Answer>, ordered: seq<Answer>, i: nat) {
    i <= |qs| && |ordered| == i
    && forall k :: 0 <= k < i ==> ordered[k] in answers && Answers(qs[k], ordered[k])
  }

  lemma PickedNone(qs: seq<Question>, answers: seq<Answer>)
    ensures Picked(qs, answers, [], 0)
  {
  }

  lemma PickNext(qs: seq<Question>, answers: seq<Answer>, ordered: seq<Answer>, i: nat)
    requires i < |qs| && Picked(qs, answers, ordered, i)
    ensures var m := ById(answers);
            qs[i].id in m && Fits(qs[i], m[qs[i].id]) ==> Picked(qs, answers, ordered + [m[qs[i].id]], i + 1)
  {
    hide Fits, Picked, ById;
    var m := ById(answers);
    if qs[i].id in m && Fits(qs[i], m[qs[i].id]) {
      FoundById(answers, qs[i].id);
      PickOne(qs, answers, ordered, i, m[qs[i].id]);
    }
  }

  lemma FoundById(answers: seq<Answer>, id: string)
    requires id in ById(answers)
    ensures ById(answers)[id] in answers && ById(answers)[id].questionId == id
  {
  }

  lemma PickOne(qs: seq<Question>, answers: seq<Answer>, ordered: seq<Answer>, i: nat, a: Answer)
    requires i < |qs| && Picked(qs, answers, ordered, i) && a in answers && Answers(qs[i], a)
    ensures Picked(qs, answers, ordered + [a], i + 1)
  {
    hide Answers;
  }

  lemma Unanswered(qs: seq<Question>, answers: seq<Answer>, bytes: Answer -> nat, i: nat)
    requires Countable(qs, answers, bytes) && i < |qs|
    requires qs[i].id !in ById(answers) || !Fits(qs[i], ById(answers)[qs[i].id])
    ensures !Acceptable(qs, answers, bytes)
  {
    hide Fits, Answered, ById, WireSize;
    AnswerLookup(qs[i], answers);
  }

  lemma AllPicked(qs: seq<Question>, answers: seq<Answer>, bytes: Answer -> nat, ordered: seq<Answer>)
    requires Countable(qs, answers, bytes) && Picked(qs, answers, ordered, |qs|)
    ensures Acceptable(qs, answers, bytes) && InOrder(qs, ordered) && multiset(ordered) == multiset(answers)
  {
    hide Fits, WireSize, DistinctBy;
    forall k | 0 <= k < |qs| ensures Answered(qs[k], answers) { assert Answers(qs[k], ordered[k]); }
    OrderedIsAll(qs, ordered, answers);
  }

  /** Answers in question order are distinct, so they use up the whole batch. */
  lemma OrderedIsAll(qs: seq<Question>, r: seq<Answer>, answers: seq<Answer>)
    requires InOrder(qs, r) && |answers| == |qs| && DistinctBy(qs, QuestionId)
    requires forall k :: 0 <= k < |r| ==> r[k] in answers
    ensures multiset(r) == multiset(answers)
  {
    hide Fits;
    forall i, j | 0 <= i < j < |r| ensures AnswerId(r[i]) != AnswerId(r[j]) {
      assert QuestionId(qs[i]) != QuestionId(qs[j]);
    }
    DistinctCover(r, answers, AnswerId);
  }

  /** The ordered answers are determined by the batch, whatever order it was submitted in. */
  lemma OrderIsUnique(qs: seq<Question>, answers: seq<Answer>, r: seq<Answer>, s: seq<Answer>)
    requires DistinctBy(answers, AnswerId) && InOrder(qs, r) && InOrder(qs, s)
    requires multiset(r) == multiset(answers) == multiset(s)
    ensures r == s
  {
    hide Fits;
    forall i | 0 <= i < |qs| ensures r[i] == s[i] {
      assert r[i] in multiset(answers) by { assert r[i] in multiset(r); }
      assert s[i] in multiset(answers) by { assert s[i] in multiset(s); }
      OnlyAnswer(answers, r[i]);
      OnlyAnswer(answers, s[i]);
    }
  }

  /** Whether a batch is acceptable does not depend on the order of its answers. */
  lemma AcceptablePermutation(qs: seq<Question>, a: seq<Answer>, b: seq<Answer>, bytes: Answer -> nat)
    requires multiset(a) == multiset(b) && Acceptable(qs, a, bytes)
    ensures Acceptable(qs, b, bytes)
  {
    hide Fits;
    assert |a| == |multiset(a)| == |multiset(b)| == |b|;
    TotalPermutation(a, b, bytes);
    DistinctByPermutation(a, b, AnswerId);
    forall i | 0 <= i < |qs| ensures Answered(qs[i], b) {
      assert Answered(qs[i], a);
      var x :| x in a && Answers(qs[i], x);
      assert x in multiset(a) && x in multiset(b);
    }
  }

  /** What acceptance means for each answer in its place, and for the batch. */
  lemma AcceptedMeans(qs: seq<Question>, answers: seq<Answer>, bytes: Answer -> nat, r: seq<Answer>, i: nat)
    requires Acceptable(qs, answers, bytes) && InOrder(qs, r) && multiset(r) == multiset(answers) && i < |r|
    ensures |r| == |qs| == |answers| && 0 < |qs| && Total(r, bytes) + |r| + 1 <= 262144
    ensures r[i].questionId == qs[i].id
    ensures r[i].Chosen? ==> qs[i].options.Some? && r[i].optionId in qs[i].options.value
    ensures r[i].Written? ==> !Blank(r[i].text) && Utf8Len(r[i].text) <= 32768 && '\0' !in r[i].text
  {
    hide Blank, Utf8Len, Trim;
    TotalPermutation(r, answers, bytes);
    assert Answers(qs[i], r[i]);
    if r[i].Written? { BlankIff(r[i].text); }
  }

  /** And nothing else is asked: any answer of one of these forms fits its question. */
  lemma FitsIff(q: Question, a: Answer)
    ensures Fits(q, a) <==>
            match a
            case Chosen(_, option) => q.options.Some? && option in q.options.value
            case Written(_, text) => !Blank(text) && Utf8Len(text) <= 32768 && '\0' !in text
            case Skipped(_) => true
  {
    hide Blank, Utf8Len, Trim;
    if a.Written? { BlankIff(a.text); }
  }

  /** What the submitted order cannot change: acceptance, and the accepted result. */
  lemma SubmissionOrderIrrelevant(qs: seq<Question>, a: seq<Answer>, b: seq<Answer>, bytes: Answer -> nat,
                                  r: seq<Answer>, s: seq<Answer>)
    requires multiset(a) == multiset(b) && Acceptable(qs, a, bytes)
    requires InOrder(qs, r) && multiset(r) == multiset(a) && InOrder(qs, s) && multiset(s) == multiset(b)
    ensures Acceptable(qs, b, bytes) && r == s
  {
    AcceptablePermutation(qs, a, b, bytes);
    OrderIsUnique(qs, a, r, s);
  }

  /** Revalidating an accepted result accepts it and changes nothing. */
  lemma RevalidationKeeps(qs: seq<Question>, answers: seq<Answer>, bytes: Answer -> nat, r: seq<Answer>, again: seq<Answer>)
    requires Acceptable(qs, answers, bytes) && InOrder(qs, r) && multiset(r) == multiset(answers)
    requires InOrder(qs, again) && multiset(again) == multiset(r)
    ensures Acceptable(qs, r, bytes) && again == r
  {
    AcceptablePermutation(qs, answers, r, bytes);
    OrderIsUnique(qs, answers, again, r);
  }

  /** Acceptance is a bijection: the answer ids are exactly the question ids, each once. */
  lemma IdsMatch(qs: seq<Question>, answers: seq<Answer>, bytes: Answer -> nat, r: seq<Answer>)
    requires Acceptable(qs, answers, bytes) && InOrder(qs, r) && multiset(r) == multiset(answers)
    ensures NameSet(answers, AnswerId) == Ids(qs) && |Ids(qs)| == |answers|
  {
    hide Fits, NameSet;
    NameSetCount(qs, QuestionId);
    forall n | n in NameSet(answers, AnswerId) ensures n in Ids(qs) {
      var k := NamedBy(answers, AnswerId, n);
      assert answers[k] in multiset(r) by { assert answers[k] in multiset(answers); }
      var i :| 0 <= i < |r| && r[i] == answers[k];
      assert qs[i] in qs && QuestionId(qs[i]) == n;
    }
    forall n | n in Ids(qs) ensures n in NameSet(answers, AnswerId) {
      var i := NamedBy(qs, QuestionId, n);
      assert r[i] in multiset(answers) by { assert r[i] in multiset(r); }
      assert AnswerId(r[i]) == n;
    }
  }
}
