/** The layered-process-audit quiz (frontend/src/components/LPAGame.tsx):
    choosing a template, answering its questions one by one, scoring the
    "Compliant" answers, and the final result. The result is kept as its
    score and question count; its text, the XP rounding and the answer POST
    are left out. */
module LpaGame {
  import opened Wrappers
  import opened TenantTypes
  import opened Sequences

  /** `ANSWERS`; the first is the only one that scores. */
  const Answers: seq<string> := ["Compliant", "Needs Improvement", "Not Applicable", "Escalate"]

  function Scores(answer: string): nat {
    if answer == Answers[0] then 1 else 0
  }

  /** The number of "Compliant" answers: the full count exactly when every
      answer is compliant, zero exactly when none is. */
  function CountCompliant(answers: seq<string>): (n: nat)
    ensures n <= |answers|
    ensures n == |answers| <==> forall i :: 0 <= i < |answers| ==> answers[i] == Answers[0]
    ensures n == 0 <==> forall i :: 0 <= i < |answers| ==> answers[i] != Answers[0]
  {
    if |answers| == 0 then 0
    else
      var init := answers[..|answers| - 1];
      assert forall i :: 0 <= i < |init| ==> init[i] == answers[i];
      CountCompliant(init) + Scores(answers[|answers| - 1])
  }

  /** Counting distributes over concatenation. */
  lemma {:induction false} CountCompliantConcat(a: seq<string>, b: seq<string>)
    ensures CountCompliant(a + b) == CountCompliant(a) + CountCompliant(b)
    decreases |b|
  {
    if |b| == 0 {
      assert a + b == a;
    } else {
      assert (a + b)[..|a + b| - 1] == a + b[..|b| - 1];
      CountCompliantConcat(a, b[..|b| - 1]);
    }
  }

  function TemplateId(t: LpaTemplate): string { t.id }

  /** `lpaAudits.find((a) => a.id === id) ?? null`. */
  function FindAudit(audits: seq<LpaTemplate>, id: Option<string>): Option<LpaTemplate> {
    FindById(audits, TemplateId, id)
  }

  datatype QuizResult = QuizResult(score: int, total: int)

  class LpaQuiz {
    /** `config?.lpaTemplates ?? []`. */
    const audits: seq<LpaTemplate>
    var selectedAuditId: Option<string>
    var currentQuestion: int
    var score: int
    var answers: seq<string>
    /** The result message: None is the empty message. */
    var result: Option<QuizResult>

    /** The score always counts the compliant answers given. */
    ghost predicate Valid()
      reads this
    {
      score == CountCompliant(answers) && currentQuestion >= 0
    }

    function SelectedAudit(): Option<LpaTemplate>
      reads this
    {
      FindAudit(audits, selectedAuditId)
    }

    /** A quiz under way: one answer per question already passed, and the
        current question exists. */
    ghost predicate InProgress()
      reads this
    {
      && SelectedAudit().Some?
      && result.None?
      && |answers| == currentQuestion < |SelectedAudit().value.questions|
    }

    /** A finished quiz: every question answered and the result reported. */
    ghost predicate Finished()
      reads this
    {
      && SelectedAudit().Some?
      && |answers| == |SelectedAudit().value.questions|
      && result == Some(QuizResult(score, |answers|))
    }

    constructor (audits: seq<LpaTemplate>)
      ensures Valid() && this.audits == audits
      ensures selectedAuditId.None? && currentQuestion == 0 && score == 0 && answers == [] && result.None?
    {
      this.audits := audits;
      selectedAuditId := None;
      currentQuestion := 0;
      score := 0;
      answers := [];
      result := None;
    }

    /** `resetAudit`: no selection and no progress. */
    method ResetAudit()
      modifies this
      ensures Valid()
      ensures selectedAuditId.None? && currentQuestion == 0 && score == 0 && answers == [] && result.None?
    {
      selectedAuditId := None;
      currentQuestion := 0;
      score := 0;
      answers := [];
      result := None;
    }

    /** `handleStartAudit(id)`: select the template and start from scratch. */
    method StartAudit(auditId: string)
      modifies this
      ensures Valid()
      ensures selectedAuditId == Some(auditId) && currentQuestion == 0 && score == 0 && answers == [] && result.None?
      ensures SelectedAudit().Some? && |SelectedAudit().value.questions| > 0 ==> InProgress()
    {
      selectedAuditId := Some(auditId);
      currentQuestion := 0;
      score := 0;
      answers := [];
      result := None;
    }

    /** `handleAnswer(answer)`. Without a selected template nothing happens.
        Otherwise a compliant answer adds one to the score, the answer is
        appended, and the quiz moves to the next question or, after the last,
        reports the score out of the number of questions. */
    method HandleAnswer(answer: string)
      requires Valid()
      modifies this
      ensures Valid()
      ensures old(SelectedAudit()).None? ==>
                && selectedAuditId == old(selectedAuditId) && currentQuestion == old(currentQuestion)
                && score == old(score) && answers == old(answers) && result == old(result)
      ensures old(SelectedAudit()).Some? ==>
                var total := |old(SelectedAudit()).value.questions|;
                && selectedAuditId == old(selectedAuditId)
                && answers == old(answers) + [answer]
                && score == old(score) + Scores(answer)
                && (old(currentQuestion) + 1 < total ==> currentQuestion == old(currentQuestion) + 1 && result == old(result))
                && (old(currentQuestion) + 1 >= total ==>
                      currentQuestion == old(currentQuestion) && result == Some(QuizResult(score, total)))
      ensures old(InProgress()) ==> InProgress() || Finished()
      ensures old(InProgress()) && result.Some? ==> result.value.score <= result.value.total
    {
      var audit := SelectedAudit();
      if audit.None? {
        return;
      }
      var isCorrect := Answers[0] == answer;
      CountCompliantConcat(answers, [answer]);
      if isCorrect {
        score := score + 1;
      }
      answers := answers + [answer];
      var total := |audit.value.questions|;
      if currentQuestion + 1 < total {
        currentQuestion := currentQuestion + 1;
      } else {
        result := Some(QuizResult(score, total));
      }
    }
  }
}
