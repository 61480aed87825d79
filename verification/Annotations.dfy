/** The annotations of the ValkeyCluster resource: the only memory the operator has between passes.

    A pass works on a copy of the resource. A patch sends the difference between the copy and a
    base taken earlier, so it writes only what the step has changed. When the server accepts it,
    the copy receives the server's annotations; annotations that the server does not have may stay
    behind in the copy, and the model leaves open which. When the patch is rejected, copy and
    server stay as they are. */
module Annotations {
  import opened Options

  // Times are nanoseconds since the epoch.
  const SECOND: int := 1_000_000_000

  datatype Key =
    | ClusterNotOkSince
    | LastResetTime
    | StaleSince(id: string)
    | CrashSince(pod: string)
    | Foreign(name: string)

  /** A text that parses as an RFC 3339 time, or one that does not. */
  datatype Value = Stamp(at: int) | Malformed

  type Entries = map<Key, Value>

  /** Printing a time without fractional seconds and parsing it again. */
  function Truncated(now: int): (t: int)
    ensures now - SECOND < t <= now
  {
    now - now % SECOND
  }

  function Printed(now: int): Value {
    Stamp(Truncated(now))
  }

  /** The name of the annotation. */
  function Name(k: Key): string {
    match k
    case ClusterNotOkSince => "valkey.io/cluster-not-ok-since"
    case LastResetTime => "valkey.io/last-reset-time"
    case StaleSince(id) => "valkey.io/stale-since." + id
    case CrashSince(pod) => "valkey.io/crash-since." + pod
    case Foreign(name) => name
  }

  /** The operator's own annotations do not collide. */
  lemma NamesDiffer(a: Key, b: Key)
    requires !a.Foreign? && !b.Foreign? && Name(a) == Name(b)
    ensures a == b
  {
    // The names differ at the eleventh character, or the twelfth.
    assert Name(a)[10] == Name(b)[10] && Name(a)[11] == Name(b)[11];
    match (a, b)
    case (StaleSince(i), StaleSince(j)) =>
      assert i == Name(a)[|"valkey.io/stale-since."|..] && j == Name(b)[|"valkey.io/stale-since."|..];
    case (CrashSince(p), CrashSince(q)) =>
      assert p == Name(a)[|"valkey.io/crash-since."|..] && q == Name(b)[|"valkey.io/crash-since."|..];
    case _ =>
  }

  // ----------------------------------------------------------------- patches

  /** The server's answer to a patch; `kept` are the annotations that the copy keeps although the
      server does not have them. */
  datatype PatchOutcome = Rejected | Accepted(kept: set<Key>)

  /** The copy and the server. */
  datatype Memory = Memory(mem: Entries, stored: Entries)

  /** A stamp that is at least `age` old. */
  predicate Aged(v: Option<Value>, now: int, age: int) {
    match v
    case Some(Stamp(t)) => now - t >= age
    case _ => false
  }

  function Lookup(m: Entries, k: Key): Option<Value> {
    if k in m then Some(m[k]) else None
  }

  /** The server's annotations after the difference between `base` and `mem` is applied. */
  function Merge(stored: Entries, base: Entries, mem: Entries): Entries {
    map k | k in stored.Keys + mem.Keys && MergedAt(stored, base, mem, k).Some? :: MergedAt(stored, base, mem, k).value
  }

  function MergedAt(stored: Entries, base: Entries, mem: Entries, k: Key): Option<Value> {
    if Lookup(mem, k) != Lookup(base, k) then Lookup(mem, k) else Lookup(stored, k)
  }

  function Refreshed(mem: Entries, stored: Entries, kept: set<Key>): Entries {
    (map k | k in mem && k in kept :: mem[k]) + stored
  }

  function Patched(s: Memory, base: Entries, outcome: PatchOutcome): Memory {
    match outcome
    case Rejected => s
    case Accepted(kept) =>
      var stored := Merge(s.stored, base, s.mem);
      Memory(Refreshed(s.mem, stored, kept), stored)
  }

  /** An accepted patch, annotation by annotation. */
  lemma PatchedAt(s: Memory, base: Entries, kept: set<Key>, k: Key)
    ensures var after := Patched(s, base, Accepted(kept));
            && Lookup(after.stored, k) == MergedAt(s.stored, base, s.mem, k)
            && Lookup(after.mem, k) ==
               if MergedAt(s.stored, base, s.mem, k).Some? then MergedAt(s.stored, base, s.mem, k)
               else if k in kept then Lookup(s.mem, k) else None
  {
  }

  /** Copy and server say the same about `k`. */
  predicate Agree(s: Memory, k: Key) {
    Lookup(s.mem, k) == Lookup(s.stored, k)
  }

  /** The server's value for `k` is as before, and the copy has not departed from it. */
  predicate Leaves(before: Memory, after: Memory, k: Key) {
    Lookup(after.stored, k) == Lookup(before.stored, k) && (Agree(before, k) ==> Agree(after, k))
  }

  /** A patch of a step that has not touched `k` leaves it alone, on both sides. */
  lemma PatchLeaves(s: Memory, base: Entries, outcome: PatchOutcome, k: Key)
    requires Lookup(s.mem, k) == Lookup(base, k)
    ensures Leaves(s, Patched(s, base, outcome), k)
  {
    if outcome.Accepted? {
      PatchedAt(s, base, outcome.kept, k);
    }
  }

  /** An accepted patch writes what the step has done to `k`. */
  lemma PatchWrites(s: Memory, base: Entries, kept: set<Key>, k: Key)
    requires Lookup(base, k) == Lookup(s.stored, k)
    ensures var after := Patched(s, base, Accepted(kept));
            Lookup(after.stored, k) == Lookup(s.mem, k) && Agree(after, k)
  {
    PatchedAt(s, base, kept, k);
  }

  /** The resource as a pass holds it. */
  class ClusterResource {
    var annotations: Entries
    var stored: Entries

    function State(): Memory
      reads this
    {
      Memory(annotations, stored)
    }

    /** Annotation by annotation: an accepted patch writes what the copy has changed since `base`
        and nothing else, and the copy then has what the server has. */
    method Patch(base: Entries, outcome: PatchOutcome) returns (ok: bool)
      modifies this
      ensures ok == outcome.Accepted?
      ensures !ok ==> State() == old(State())
      ensures ok ==> forall k | Lookup(old(annotations), k) != Lookup(base, k) ::
                       Lookup(stored, k) == Lookup(old(annotations), k)
      ensures ok ==> forall k | Lookup(old(annotations), k) == Lookup(base, k) ::
                       Lookup(stored, k) == Lookup(old(stored), k)
      ensures ok ==> forall k | k in stored :: Lookup(annotations, k) == Lookup(stored, k)
      ensures ok ==> forall k | k !in stored ::
                       Lookup(annotations, k) == if k in outcome.kept then Lookup(old(annotations), k) else None
      ensures State() == Patched(old(State()), base, outcome)
    {
      ok := outcome.Accepted?;
      if ok {
        stored := Merge(stored, base, annotations);
        annotations := Refreshed(annotations, stored, outcome.kept);
      }
    }
  }
}
