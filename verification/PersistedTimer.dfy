/** A timestamp that passes write and drop: what its presence says about the run behind it. */
module PersistedTimer {
  import opened Options
  import opened Annotations

  /** What one pass has seen of the thing that is timed, and whether its patch was accepted. A
      pass that does not look sees nothing. */
  datatype Event = Event(now: int, failing: bool, healthy: bool, accepted: bool)

  /** One pass. Without an accepted patch nothing changes. Otherwise the stamp is kept, dropped or
      written anew by a pass that has seen a failure, and it does not survive a pass that has
      seen good health. */
  predicate Step(before: Option<Value>, after: Option<Value>, e: Event) {
    && (!e.accepted ==> after == before)
    && (after == before || after == None || (after == Some(Printed(e.now)) && e.failing))
    && (e.accepted && e.healthy ==> after == None || (after == Some(Printed(e.now)) && e.failing))
  }

  ghost predicate Steps(states: seq<Option<Value>>, events: seq<Event>) {
    && |states| == |events| + 1
    && forall i | 0 <= i < |events| :: Step(states[i], states[i + 1], events[i])
  }

  /** Pass `i` persisted the stamp, and no pass behind it and in front of `n` persisted good health. */
  ghost predicate PersistedAt(events: seq<Event>, n: nat, value: Value, i: nat) {
    && i < n <= |events|
    && events[i].failing && events[i].accepted && value == Printed(events[i].now)
    && forall j | i < j < n :: !(events[j].healthy && events[j].accepted)
  }

  /** Every stamp that a pass finds was persisted by an earlier pass that saw the failure. */
  lemma {:induction false} Origin(states: seq<Option<Value>>, events: seq<Event>, n: nat, value: Value) returns (i: nat)
    requires Steps(states, events) && states[0] == None
    requires n <= |events| && states[n] == Some(value)
    ensures PersistedAt(events, n, value, i)
  {
    assert Step(states[n - 1], states[n], events[n - 1]);
    if events[n - 1].failing && events[n - 1].accepted && value == Printed(events[n - 1].now) {
      i := n - 1;
    } else {
      i := Origin(states, events, n - 1, value);
    }
  }

  // ----------------------------------------------------------------- the other direction

  /** One pass that presses on: it sees the failure and nothing else, and its patch is accepted.
      Without a stamp it writes one; a stamp stays unless the pass acts on it. */
  predicate Presses(before: Option<Value>, after: Option<Value>, now: int, acts: bool) {
    && (before == None ==> after == Some(Printed(now)))
    && (before != None && !acts ==> after == before)
  }

  /** The stamp was made no later than `t`. */
  predicate NoLaterThan(v: Option<Value>, t: int) {
    match v
    case Some(Stamp(at)) => at <= t
    case _ => false
  }

  /** Along a stretch of passes that press on without acting, the stamp is no younger than the
      first of them. */
  lemma {:induction false} Lasts(states: seq<Option<Value>>, nows: seq<int>, i: nat, n: nat)
    requires i < n < |states| && |nows| >= n
    requires states[i] == None || NoLaterThan(states[i], nows[i])
    requires forall m | i <= m < n :: Presses(states[m], states[m + 1], nows[m], false)
    ensures NoLaterThan(states[n], nows[i])
  {
    if n > i + 1 {
      Lasts(states, nows, i, n - 1);
    }
    assert Presses(states[n - 1], states[n], nows[n - 1], false);
  }

  // ----------------------------------------------------------------- starting over

  /** No stamp, or one that was made after `t`, up to the second that printing loses. */
  predicate Younger(v: Option<Value>, t: int) {
    match v
    case None => true
    case Some(Stamp(at)) => at > t - SECOND
    case Some(Malformed) => false
  }

  /** Once there is no older stamp, there will be none: passes write only their own time. */
  lemma {:induction false} StaysYounger(states: seq<Option<Value>>, events: seq<Event>, i: nat, n: nat, t: int)
    requires Steps(states, events) && i <= n <= |events|
    requires Younger(states[i], t) && forall m | i <= m < n :: events[m].failing ==> events[m].now >= t
    ensures Younger(states[n], t)
  {
    if n > i {
      StaysYounger(states, events, i, n - 1, t);
      assert Step(states[n - 1], states[n], events[n - 1]);
    }
  }
}
