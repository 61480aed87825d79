/** `setCondition` (internal/controller/valkeycluster_controller.go): the list of conditions in the
    status of the resource. */
module Conditions {
  datatype Condition = Condition(kind: string, status: string, reason: string, message: string, lastTransition: int)

  datatype Call = Call(condition: Condition, now: int)

  function IndexFrom(cs: seq<Condition>, kind: string, i: nat): int
    requires i <= |cs|
    decreases |cs| - i
  {
    if i == |cs| then -1 else if cs[i].kind == kind then i else IndexFrom(cs, kind, i + 1)
  }

  lemma {:induction false} IndexFromMeans(cs: seq<Condition>, kind: string, i: nat)
    requires i <= |cs|
    ensures var r := IndexFrom(cs, kind, i);
            if r == -1 then forall k | i <= k < |cs| :: cs[k].kind != kind
            else i <= r < |cs| && cs[r].kind == kind
    decreases |cs| - i
  {
    if i < |cs| && cs[i].kind != kind {
      IndexFromMeans(cs, kind, i + 1);
    }
  }

  /** The list after one call. */
  function Set(cs: seq<Condition>, call: Call): seq<Condition> {
    var c, i := call.condition, IndexFrom(cs, call.condition.kind, 0);
    if 0 <= i < |cs| then
      cs[i := c.(lastTransition := if cs[i].status == c.status then cs[i].lastTransition else call.now)]
    else cs + [c.(lastTransition := call.now)]
  }

  class Status {
    var conditions: seq<Condition>

    method SetCondition(condition: Condition, now: int)
      modifies this
      ensures conditions == Set(old(conditions), Call(condition, now))
    {
      var cond := condition.(lastTransition := now);
      for i := 0 to |conditions|
        invariant conditions == old(conditions)
        invariant IndexFrom(conditions, condition.kind, 0) == IndexFrom(conditions, condition.kind, i)
      {
        var existing := conditions[i];
        if existing.kind == cond.kind {
          if existing.status == cond.status {
            cond := cond.(lastTransition := existing.lastTransition);
          }
          conditions := conditions[i := cond];
          return;
        }
      }
      conditions := conditions + [cond];
    }
  }

  // ----------------------------------------------------------------- history

  predicate Unique(cs: seq<Condition>) {
    forall i, j | 0 <= i < j < |cs| :: cs[i].kind != cs[j].kind
  }

  /** The list after a history of calls, from an empty one. */
  function After(calls: seq<Call>): seq<Condition> {
    if |calls| == 0 then [] else Set(After(calls[..|calls| - 1]), calls[|calls| - 1])
  }

  lemma {:induction false} KindsUnique(calls: seq<Call>)
    ensures Unique(After(calls))
  {
    if |calls| > 0 {
      KindsUnique(calls[..|calls| - 1]);
      IndexFromMeans(After(calls[..|calls| - 1]), calls[|calls| - 1].condition.kind, 0);
    }
  }

  /** The last of the first `m` calls that is for the kind, or -1. */
  function LastBefore(calls: seq<Call>, kind: string, m: nat): (r: int)
    requires m <= |calls|
    ensures -1 <= r < m && (r >= 0 ==> calls[r].condition.kind == kind)
  {
    if m == 0 then -1 else if calls[m - 1].condition.kind == kind then m - 1 else LastBefore(calls, kind, m - 1)
  }

  lemma {:induction false} LastBeforeNext(calls: seq<Call>, call: Call, kind: string, m: nat)
    requires m <= |calls|
    ensures LastBefore(calls + [call], kind, m) == LastBefore(calls, kind, m)
  {
    if m > 0 {
      assert (calls + [call])[m - 1] == calls[m - 1];
      LastBeforeNext(calls, call, kind, m - 1);
    }
  }

  /** All calls for the kind from `m` to `n` have the status. */
  ghost predicate SameStatus(calls: seq<Call>, kind: string, status: string, m: int, n: int) {
    forall k | 0 <= k < |calls| && m <= k <= n ::
      calls[k].condition.kind == kind ==> calls[k].condition.status == status
  }

  /** The condition is that of call `n`, the last one for its kind, and its time is that of call
      `m`, the first of the unbroken run of calls with this status: the call for the kind in
      front of `m`, if there is one, has another status. */
  ghost predicate ExplainedBy(calls: seq<Call>, c: Condition, m: nat, n: nat) {
    && m <= n < |calls| && n == LastBefore(calls, c.kind, |calls|)
    && calls[m].condition.kind == c.kind && SameStatus(calls, c.kind, c.status, m, n)
    && (var p := LastBefore(calls, c.kind, m); p >= 0 ==> calls[p].condition.status != c.status)
    && c == calls[n].condition.(lastTransition := calls[m].now)
  }

  ghost predicate Explains(calls: seq<Call>, c: Condition) {
    exists m: nat, n: nat :: ExplainedBy(calls, c, m, n)
  }

  lemma ExplainsKept(calls: seq<Call>, call: Call, c: Condition)
    requires Explains(calls, c) && call.condition.kind != c.kind
    ensures Explains(calls + [call], c)
  {
    var m: nat, n: nat :| ExplainedBy(calls, c, m, n);
    LastBeforeNext(calls, call, c.kind, |calls|);
    LastBeforeNext(calls, call, c.kind, m);
    assert ExplainedBy(calls + [call], c, m, n);
  }

  /** Another call with the same status continues the run. */
  lemma ExplainsContinued(calls: seq<Call>, call: Call, c: Condition)
    requires Explains(calls, c) && call.condition.kind == c.kind && call.condition.status == c.status
    ensures Explains(calls + [call], call.condition.(lastTransition := c.lastTransition))
  {
    var m: nat, n: nat :| ExplainedBy(calls, c, m, n);
    LastBeforeNext(calls, call, c.kind, m);
    NoneBehind(calls, c.kind, |calls|);
    assert ExplainedBy(calls + [call], call.condition.(lastTransition := c.lastTransition), m, |calls|);
  }

  lemma {:induction false} NoneBehind(calls: seq<Call>, kind: string, m: nat)
    requires m <= |calls|
    ensures forall k | LastBefore(calls, kind, m) < k < m :: calls[k].condition.kind != kind
  {
    if m > 0 && calls[m - 1].condition.kind != kind {
      NoneBehind(calls, kind, m - 1);
    }
  }

  /** A call with another status, or the first for its kind, starts a new run. */
  lemma ExplainsChanged(calls: seq<Call>, call: Call)
    requires var p := LastBefore(calls, call.condition.kind, |calls|);
             p >= 0 ==> calls[p].condition.status != call.condition.status
    ensures Explains(calls + [call], call.condition.(lastTransition := call.now))
  {
    LastBeforeNext(calls, call, call.condition.kind, |calls|);
    assert ExplainedBy(calls + [call], call.condition.(lastTransition := call.now), |calls|, |calls|);
  }

  predicate Mentions(calls: seq<Call>, kind: string) {
    exists k | 0 <= k < |calls| :: calls[k].condition.kind == kind
  }

  lemma MentionsNext(calls: seq<Call>, call: Call, kind: string)
    ensures Mentions(calls + [call], kind) <==> Mentions(calls, kind) || call.condition.kind == kind
  {
    var calls' := calls + [call];
    assert calls'[|calls|] == call;
    if Mentions(calls, kind) {
      var k :| 0 <= k < |calls| && calls[k].condition.kind == kind;
      assert calls'[k] == calls[k];
    }
  }

  predicate Has(cs: seq<Condition>, kind: string) {
    exists i | 0 <= i < |cs| :: cs[i].kind == kind
  }

  lemma SetHas(cs: seq<Condition>, call: Call, kind: string)
    ensures Has(Set(cs, call), kind) <==> Has(cs, kind) || call.condition.kind == kind
  {
    var cs', i := Set(cs, call), IndexFrom(cs, call.condition.kind, 0);
    IndexFromMeans(cs, call.condition.kind, 0);
    if Has(cs, kind) {
      var k :| 0 <= k < |cs| && cs[k].kind == kind;
      assert cs'[k].kind == kind;
    }
    assert cs'[if i >= 0 then i else |cs|].kind == call.condition.kind;
  }

  /** An element of the new list is an old one of another kind, or stands for the call. */
  lemma SetElement(cs: seq<Condition>, call: Call, c: Condition)
    requires Unique(cs) && c in Set(cs, call) && !(c in cs && c.kind != call.condition.kind)
    ensures var i := IndexFrom(cs, call.condition.kind, 0);
            c == call.condition.(lastTransition :=
                 if 0 <= i < |cs| && cs[i].status == call.condition.status then cs[i].lastTransition else call.now)
  {
    IndexFromMeans(cs, call.condition.kind, 0);
    var k :| 0 <= k < |Set(cs, call)| && Set(cs, call)[k] == c;
    assert k < |cs| && Set(cs, call)[k] == cs[k] ==> cs[k] in cs;
  }

  lemma StepExplained(calls: seq<Call>, call: Call, c: Condition)
    requires Unique(After(calls)) && forall c | c in After(calls) :: Explains(calls, c)
    requires Has(After(calls), call.condition.kind) <==> Mentions(calls, call.condition.kind)
    requires c in Set(After(calls), call)
    ensures Explains(calls + [call], c)
  {
    var cs := After(calls);
    if c in cs && c.kind != call.condition.kind {
      ExplainsKept(calls, call, c);
    } else {
      var i := IndexFrom(cs, call.condition.kind, 0);
      IndexFromMeans(cs, call.condition.kind, 0);
      SetElement(cs, call, c);
      if i >= 0 {
        assert Explains(calls, cs[i]);
        if cs[i].status == call.condition.status {
          ExplainsContinued(calls, call, cs[i]);
        } else {
          ExplainsChanged(calls, call);
        }
      } else {
        assert !Mentions(calls, call.condition.kind);
        ExplainsChanged(calls, call);
      }
    }
  }

  /** The list holds one condition for every kind that was ever set: the last one set, with the
      time at which the latest unbroken run of calls with its status began. */
  lemma {:induction false} History(calls: seq<Call>)
    ensures Unique(After(calls))
    ensures forall c | c in After(calls) :: Explains(calls, c)
    ensures forall kind :: Has(After(calls), kind) <==> Mentions(calls, kind)
  {
    KindsUnique(calls);
    if |calls| > 0 {
      var init, call := calls[..|calls| - 1], calls[|calls| - 1];
      assert calls == init + [call];
      History(init);
      forall c | c in After(calls) ensures Explains(calls, c) {
        StepExplained(init, call, c);
      }
      forall kind ensures Has(After(calls), kind) <==> Mentions(calls, kind) {
        SetHas(After(init), call, kind);
        MentionsNext(init, call, kind);
      }
    }
  }
}
