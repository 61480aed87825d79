/** `queryClusterInfo` (internal/controller/cluster.go): the answers of all ready pods arrive on a
    channel in any order and are folded into the most informative one. */
module Aggregation {
  import opened Options

  /** The cluster state and the number of assigned slots that a pod reports. */
  datatype Answer = Answer(state: string, slots: int)

  /** What a pod that cannot be asked contributes. */
  const NO_ANSWER := Answer("", 0)

  function Better(best: Answer, a: Answer): Answer {
    if a == NO_ANSWER then best
    else if a.slots > best.slots || (a.slots == best.slots && a.state == "ok") then a
    else best
  }

  function Fold(answers: seq<Answer>): Answer {
    if |answers| == 0 then NO_ANSWER else Better(Fold(answers[..|answers| - 1]), answers[|answers| - 1])
  }

  predicate Responded(answers: seq<Answer>) {
    exists a | a in answers :: a != NO_ANSWER
  }

  lemma RespondedNext(answers: seq<Answer>, a: Answer)
    ensures Responded(answers + [a]) <==> Responded(answers) || a != NO_ANSWER
  {
    assert a in answers + [a];
    if Responded(answers) {
      var x :| x in answers && x != NO_ANSWER;
      assert x in answers + [a];
    }
  }

  function Aggregate(answers: seq<Answer>): Option<Answer> {
    if Responded(answers) then Some(Fold(answers)) else None
  }

  /** Drains the channel; fails when no pod responds. */
  method QueryClusterInfo(answers: seq<Answer>) returns (r: Option<Answer>)
    ensures r == Aggregate(answers)
  {
    var bestState, bestSlots := "", 0;
    var responded := 0;
    for i := 0 to |answers|
      invariant Answer(bestState, bestSlots) == Fold(answers[..i])
      invariant responded >= 0 && (responded > 0 <==> Responded(answers[..i]))
    {
      var a := answers[i];
      assert answers[..i + 1] == answers[..i] + [a];
      RespondedNext(answers[..i], a);
      if a.slots == 0 && a.state == "" {
        continue;
      }
      responded := responded + 1;
      if a.slots > bestSlots || (a.slots == bestSlots && a.state == "ok") {
        bestSlots, bestState := a.slots, a.state;
      }
    }
    assert answers[..|answers|] == answers;
    if responded == 0 {
      return None;
    }
    return Some(Answer(bestState, bestSlots));
  }

  // ----------------------------------------------------------------- the order of arrival

  /** The states that Valkey reports; slots are never negative. */
  predicate Regular(a: Answer) {
    a == NO_ANSWER || ((a.state == "ok" || a.state == "fail") && a.slots >= 0)
  }

  predicate AllRegular(answers: seq<Answer>) {
    forall a | a in answers :: Regular(a)
  }

  /** The largest number of slots, at least zero. */
  predicate IsMost(answers: seq<Answer>, slots: int) {
    && slots >= 0
    && (forall a | a in answers :: a.slots <= slots)
    && (slots > 0 ==> exists a | a in answers :: a.slots == slots)
  }

  predicate OkWith(answers: seq<Answer>, slots: int) {
    exists a | a in answers :: a.slots == slots && a.state == "ok"
  }

  /** The fold is the maximum, whatever the states are. */
  lemma {:induction false} FoldIsMost(answers: seq<Answer>)
    ensures IsMost(answers, Fold(answers).slots)
  {
    if |answers| > 0 {
      var init, last := answers[..|answers| - 1], answers[|answers| - 1];
      FoldIsMost(init);
      assert answers == init + [last];
      var best, most := Fold(init), Fold(answers);
      if most == last {
        assert last in answers;
      } else if most.slots > 0 {
        var a :| a in init && a.slots == best.slots;
        assert a in answers;
      }
    }
  }

  lemma {:induction false} FoldState(answers: seq<Answer>)
    requires AllRegular(answers)
    ensures var r := Fold(answers);
            r.state == if OkWith(answers, r.slots) then "ok" else if r.slots > 0 then "fail" else ""
  {
    if |answers| > 0 {
      var init, last := answers[..|answers| - 1], answers[|answers| - 1];
      FoldState(init);
      FoldIsMost(init);
      assert answers == init + [last] && Regular(last);
      var best, r := Fold(init), Fold(answers);
      if last.slots == r.slots && last.state == "ok" {
        assert last in answers;
      } else {
        assert OkWith(answers, r.slots) ==> OkWith(init, r.slots);
        assert OkWith(init, best.slots) ==> exists a | a in answers :: a.slots == best.slots && a.state == "ok";
      }
    }
  }

  /** Every order of arrival gives the largest slot count, and "ok" exactly when an answer with
      that count says so. */
  lemma AggregateMeans(answers: seq<Answer>)
    requires AllRegular(answers)
    ensures Aggregate(answers).Some? <==> Responded(answers)
    ensures match Aggregate(answers)
            case None => true
            case Some(r) =>
              && IsMost(answers, r.slots)
              && r.state == (if OkWith(answers, r.slots) then "ok" else if r.slots > 0 then "fail" else "")
  {
    FoldIsMost(answers);
    FoldState(answers);
  }

  lemma AggregatePermuted(a: seq<Answer>, b: seq<Answer>)
    requires AllRegular(a) && multiset(a) == multiset(b)
    ensures Aggregate(a) == Aggregate(b)
  {
    assert forall x :: x in a <==> x in multiset(a);
    assert forall x :: x in b <==> x in multiset(b);
    AggregateMeans(a);
    AggregateMeans(b);
    FoldIsMost(a);
    FoldIsMost(b);
    assert Fold(a).slots == Fold(b).slots;
  }
}
