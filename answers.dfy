/**
 * The answers attached to one registration position: a sequence of
 * (question identifier, answer text) pairs, in the order the platform
 * delivers them. A lookup returns the FIRST answer whose identifier
 * matches; later answers to the same question are ignored.
 */
module Answers {
  import opened Wrappers

  datatype Answer = Answer(question: string, value: string)

  /** No answer in `answers` belongs to question `q`. */
  ghost predicate Unanswered(answers: seq<Answer>, q: string) {
    forall k :: 0 <= k < |answers| ==> answers[k].question != q
  }

  /** `k` is the position of the first answer to question `q`. */
  ghost predicate IsFirst(answers: seq<Answer>, q: string, k: int) {
    0 <= k < |answers| && answers[k].question == q &&
    forall j :: 0 <= j < k ==> answers[j].question != q
  }

  /** `next((a.answer for a in answers if a.question.identifier == q), None)`. */
  function FindAnswer(answers: seq<Answer>, q: string): (r: Option<string>)
    ensures r.None? <==> Unanswered(answers, q)
    ensures forall k :: IsFirst(answers, q, k) ==> r == Some(answers[k].value)
  {
    if answers == [] then None
    else if answers[0].question == q then Some(answers[0].value)
    else FindAnswer(answers[1..], q)
  }

  /** `next((a.answer for a in answers if a.question.identifier == q), default)`. */
  function Lookup(answers: seq<Answer>, q: string, default: string): (r: string)
    ensures Unanswered(answers, q) ==> r == default
    ensures forall k :: IsFirst(answers, q, k) ==> r == answers[k].value
  {
    FindAnswer(answers, q).GetOr(default)
  }

  /** When the first answer is to another question, `q` is unanswered in all answers iff in the rest. */
  lemma UnansweredTail(a: seq<Answer>, q: string)
    requires a != [] && a[0].question != q
    ensures Unanswered(a, q) <==> Unanswered(a[1..], q)
  {
    if Unanswered(a[1..], q) {
      forall k | 0 <= k < |a| ensures a[k].question != q {
        if k > 0 { assert a[k] == a[1..][k - 1]; }
      }
    }
    if Unanswered(a, q) {
      forall k | 0 <= k < |a[1..]| ensures a[1..][k].question != q {
        assert a[1..][k] == a[k + 1];
      }
    }
  }

  /**
   * First match wins: appending more answers never changes the result of a
   * lookup that already succeeds, and a lookup that fails on the first part
   * is decided by the second.
   */
  lemma {:induction false} FirstMatchWins(a: seq<Answer>, b: seq<Answer>, q: string)
    ensures FindAnswer(a + b, q) == if Unanswered(a, q) then FindAnswer(b, q) else FindAnswer(a, q)
  {
    if a == [] {
      assert a + b == b;
    } else {
      assert (a + b)[0] == a[0];
      assert (a + b)[1..] == a[1..] + b;
      if a[0].question != q {
        FirstMatchWins(a[1..], b, q);
        UnansweredTail(a, q);
      }
    }
  }
}
