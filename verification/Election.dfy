/** The election of a replica for a failing primary: the candidates
    (`findReplicaPodsForMaster` in internal/controller/failover.go), the choice by lag alone
    (`pickBestReplicaByLag`) and the choice by lag and zone (`pickBestReplicaTopologyAware` in
    internal/controller/topology.go). Scores are exact reals. */
module Election {
  import opened Options
  import opened ClusterNodes

  datatype Pod = Pod(name: string, ip: string, dns: string, running: bool, terminating: bool)

  // ----------------------------------------------------------------- candidates

  /** The pod may take over: it runs, is not the primary, and is listed as one of its replicas. */
  predicate MayTakeOver(p: Pod, primary: string, ips: set<string>, hostnames: set<string>) {
    && p.name != primary
    && !p.terminating && p.ip != "" && p.running
    && (p.ip in ips || p.dns in hostnames)
  }

  function Filtered(pods: seq<Pod>, primary: string, ips: set<string>, hostnames: set<string>): seq<Pod> {
    if |pods| == 0 then []
    else
      var last := pods[|pods| - 1];
      Filtered(pods[..|pods| - 1], primary, ips, hostnames)
      + if MayTakeOver(last, primary, ips, hostnames) then [last] else []
  }

  lemma {:induction false} FilteredMeans(pods: seq<Pod>, primary: string, ips: set<string>, hostnames: set<string>,
                                         p: Pod)
    ensures p in Filtered(pods, primary, ips, hostnames) <==> p in pods && MayTakeOver(p, primary, ips, hostnames)
  {
    if |pods| > 0 {
      FilteredMeans(pods[..|pods| - 1], primary, ips, hostnames, p);
      assert pods == pods[..|pods| - 1] + [pods[|pods| - 1]];
    }
  }

  /** A line of the text lists the pod, by address or by name, as a replica of the primary. */
  ghost predicate ListedReplica(p: Pod, raw: string, masterId: string) {
    exists row | row in Rows(raw) ::
      && ReplicaRow(row, masterId)
      && ((p.ip != "" && AddrIp(row[1]) == p.ip) || (AddrHostname(row[1]) != "" && AddrHostname(row[1]) == p.dns))
  }

  lemma CandidateIsListed(p: Pod, raw: string, masterId: string, primary: string)
    ensures MayTakeOver(p, primary, IpsOf(Rows(raw), row => ReplicaRow(row, masterId)),
                        HostnamesOf(Rows(raw), row => ReplicaRow(row, masterId)))
            <==> && p.name != primary && p.running && !p.terminating && p.ip != "" && ListedReplica(p, raw, masterId)
  {
    var ips := IpsOf(Rows(raw), row => ReplicaRow(row, masterId));
    var hostnames := HostnamesOf(Rows(raw), row => ReplicaRow(row, masterId));
    if p.ip in ips {
      var row :| row in Rows(raw) && ReplicaRow(row, masterId) && AddrIp(row[1]) == p.ip && p.ip != "";
      assert ListedReplica(p, raw, masterId);
    } else if p.dns in hostnames {
      var row :| && row in Rows(raw) && ReplicaRow(row, masterId)
                 && AddrHostname(row[1]) != "" && AddrHostname(row[1]) == p.dns;
      assert ListedReplica(p, raw, masterId);
    }
  }

  /** The candidates for the primary; fails without a CLUSTER NODES text. */
  method FindReplicaPods(pods: seq<Pod>, raw: string, masterId: string, primary: string)
    returns (r: Option<seq<Pod>>)
    ensures r.None? <==> raw == ""
    ensures r.Some? ==>
              forall p :: p in r.value <==>
                && p in pods && p.name != primary && p.running && !p.terminating && p.ip != ""
                && ListedReplica(p, raw, masterId)
    ensures r.Some? ==> r.value == Filtered(pods, primary, IpsOf(Rows(raw), row => ReplicaRow(row, masterId)),
                                            HostnamesOf(Rows(raw), row => ReplicaRow(row, masterId)))
  {
    if raw == "" {
      return None;
    }
    var ips, hostnames := ParseReplicaAddrsForMaster(raw, masterId);
    var result: seq<Pod> := [];
    for i := 0 to |pods|
      invariant result == Filtered(pods[..i], primary, ips, hostnames)
    {
      assert pods[..i + 1][..i] == pods[..i];
      var pod := pods[i];
      if pod.name == primary {
        continue;
      }
      if pod.terminating || pod.ip == "" {
        continue;
      }
      if !pod.running {
        continue;
      }
      if pod.ip in ips || pod.dns in hostnames {
        result := result + [pod];
      }
    }
    assert pods[..|pods|] == pods;
    forall p
      ensures p in result <==> && p in pods && p.name != primary && p.running && !p.terminating && p.ip != ""
                               && ListedReplica(p, raw, masterId)
    {
      FilteredMeans(pods, primary, ips, hostnames, p);
      CandidateIsListed(p, raw, masterId, primary);
    }
    return Some(result);
  }

  // ----------------------------------------------------------------- scores

  /** A candidate's answer to the question for its replication offset. */
  datatype Reply = Unanswered | Offset(offset: int)

  datatype Candidate = Candidate(pod: Pod, zone: string, reply: Reply)

  /** How the choice by lag and zone reads a reply: no answer counts as offset 0. */
  function ZoneAwareOffset(c: Candidate): int {
    if c.reply.Unanswered? then 0 else c.reply.offset
  }

  /** How the choice by lag reads it: no answer rules the candidate out. */
  function LagOffset(c: Candidate): int {
    if c.reply.Unanswered? then -1 else c.reply.offset
  }

  datatype Preferences = Preferences(failedZone: string, preferred: seq<string>, avoidSameZone: bool)

  /** The zone of the failed primary, when that is to be avoided. */
  predicate Shunned(zone: string, prefs: Preferences) {
    prefs.avoidSameZone && zone != "" && zone == prefs.failedZone
  }

  function ZoneScore(zone: string, prefs: Preferences): real {
    if prefs.avoidSameZone && zone != "" && zone == prefs.failedZone then 0.0
    else if zone in prefs.preferred then 1.0
    else 0.5
  }

  method TopologyScore(zone: string, prefs: Preferences) returns (score: real)
    ensures Shunned(zone, prefs) ==> score == 0.0
    ensures !Shunned(zone, prefs) && zone in prefs.preferred ==> score == 1.0
    ensures !Shunned(zone, prefs) && zone !in prefs.preferred ==> score == 0.5
  {
    if prefs.avoidSameZone && zone != "" && zone == prefs.failedZone {
      return 0.0;
    }
    for i := 0 to |prefs.preferred|
      invariant zone !in prefs.preferred[..i]
    {
      if prefs.preferred[i] == zone {
        return 1.0;
      }
    }
    return 0.5;
  }

  datatype Assignment = Assignment(podIndex: int, preferred: seq<string>)

  /** The preferences of the first assignment for that pod. */
  method PreferredZones(assignments: seq<Assignment>, podIndex: int) returns (zones: seq<string>)
    ensures (exists i | 0 <= i < |assignments| ::
               && assignments[i].podIndex == podIndex && zones == assignments[i].preferred
               && forall j | 0 <= j < i :: assignments[j].podIndex != podIndex)
            || (zones == [] && forall a | a in assignments :: a.podIndex != podIndex)
  {
    for i := 0 to |assignments|
      invariant forall j | 0 <= j < i :: assignments[j].podIndex != podIndex
    {
      if assignments[i].podIndex == podIndex {
        return assignments[i].preferred;
      }
    }
    return [];
  }

  /** The largest offset, at least zero. */
  function MaxOffset(cs: seq<Candidate>): int {
    if |cs| == 0 then 0
    else
      var rest, o := MaxOffset(cs[..|cs| - 1]), ZoneAwareOffset(cs[|cs| - 1]);
      if o > rest then o else rest
  }

  lemma {:induction false} MaxOffsetMeans(cs: seq<Candidate>)
    ensures MaxOffset(cs) >= 0 && forall c | c in cs :: ZoneAwareOffset(c) <= MaxOffset(cs)
    ensures MaxOffset(cs) > 0 ==> exists c | c in cs :: ZoneAwareOffset(c) == MaxOffset(cs)
  {
    if |cs| > 0 {
      MaxOffsetMeans(cs[..|cs| - 1]);
      assert cs == cs[..|cs| - 1] + [cs[|cs| - 1]];
    }
  }

  function LagScore(c: Candidate, maxOffset: int): real {
    if maxOffset > 0 then ZoneAwareOffset(c) as real / maxOffset as real else 1.0
  }

  /** `weight` is a percentage. */
  function Score(c: Candidate, maxOffset: int, weight: int, prefs: Preferences): real {
    var w := weight as real / 100.0;
    Blend(1.0 - w, w, LagScore(c, maxOffset), ZoneScore(c.zone, prefs))
  }

  function Blend(v: real, w: real, lag: real, zone: real): real {
    v * lag + w * zone
  }

  function Scores(arrived: seq<Candidate>, weight: int, prefs: Preferences): seq<real> {
    var max := MaxOffset(arrived);
    seq(|arrived|, k requires 0 <= k < |arrived| => Score(arrived[k], max, weight, prefs))
  }

  // ----------------------------------------------------------------- the two choices

  /** The first position with the largest value. */
  predicate IsFirstMax(values: seq<real>, i: nat) {
    && i < |values|
    && (forall k | 0 <= k < |values| :: values[k] <= values[i])
    && (forall k | 0 <= k < i :: values[k] < values[i])
  }

  /** Position `i` has the best score, and no earlier arrival has it too. */
  predicate IsBest(arrived: seq<Candidate>, weight: int, prefs: Preferences, i: nat) {
    IsFirstMax(Scores(arrived, weight, prefs), i)
  }

  method ScoreOf(c: Candidate, maxOffset: int, weight: int, prefs: Preferences) returns (score: real)
    ensures score == Score(c, maxOffset, weight, prefs)
  {
    var w := weight as real / 100.0;
    var lag := 1.0;
    if maxOffset > 0 {
      lag := ZoneAwareOffset(c) as real / maxOffset as real;
    }
    var zone := TopologyScore(c.zone, prefs);
    score := (1.0 - w) * lag + w * zone;
  }

  method FindMaxOffset(arrived: seq<Candidate>) returns (maxOffset: int)
    ensures maxOffset == MaxOffset(arrived)
  {
    maxOffset := 0;
    for i := 0 to |arrived|
      invariant maxOffset == MaxOffset(arrived[..i])
    {
      assert arrived[..i + 1][..i] == arrived[..i];
      if ZoneAwareOffset(arrived[i]) > maxOffset {
        maxOffset := ZoneAwareOffset(arrived[i]);
      }
    }
    assert arrived[..|arrived|] == arrived;
  }

  method PickTopologyAware(arrived: seq<Candidate>, weight: int, prefs: Preferences) returns (r: Option<nat>)
    ensures r.None? <==> arrived == []
    ensures r.Some? ==> IsBest(arrived, weight, prefs, r.value)
  {
    var maxOffset := FindMaxOffset(arrived);
    ghost var scores := Scores(arrived, weight, prefs);
    var best: Option<nat>, bestScore := None, -1.0;
    for i := 0 to |arrived|
      invariant best.None? <==> i == 0
      invariant best.Some? ==> best.value < i && bestScore == scores[best.value] && IsFirstMax(scores[..i], best.value)
    {
      var score := ScoreOf(arrived[i], maxOffset, weight, prefs);
      assert score == scores[i];
      if best.None? || score > bestScore {
        best, bestScore := Some(i), score;
      }
    }
    assert scores[..|arrived|] == scores;
    return best;
  }

  /** Position `i` has the largest offset that was answered, and no earlier arrival has it too. */
  ghost predicate IsFreshest(arrived: seq<Candidate>, i: nat) {
    && i < |arrived| && LagOffset(arrived[i]) > -1
    && (forall k | 0 <= k < |arrived| :: LagOffset(arrived[k]) <= LagOffset(arrived[i]))
    && (forall k | 0 <= k < i :: LagOffset(arrived[k]) < LagOffset(arrived[i]))
  }

  /** Among the candidates that have answered, it has the largest offset; the first of them. */
  lemma FreshestMeans(arrived: seq<Candidate>, i: nat)
    ensures IsFreshest(arrived, i) <==>
            && i < |arrived| && arrived[i].reply.Offset? && arrived[i].reply.offset > -1
            && forall k | 0 <= k < |arrived| && arrived[k].reply.Offset? ::
                 if k < i then arrived[k].reply.offset < arrived[i].reply.offset
                 else arrived[k].reply.offset <= arrived[i].reply.offset
  {
  }

  method PickByLag(arrived: seq<Candidate>) returns (r: Option<nat>)
    ensures r.None? <==> forall c | c in arrived :: c.reply.Unanswered? || c.reply.offset <= -1
    ensures r.Some? ==> IsFreshest(arrived, r.value)
  {
    var best: Option<nat>, bestOffset := None, -1;
    for i := 0 to |arrived|
      invariant best.None? ==> bestOffset == -1
      invariant best.Some? ==> best.value < i && bestOffset == LagOffset(arrived[best.value]) && bestOffset > -1
      invariant forall k | 0 <= k < i :: LagOffset(arrived[k]) <= bestOffset
      invariant best.Some? ==> forall k | 0 <= k < best.value :: LagOffset(arrived[k]) < bestOffset
    {
      if LagOffset(arrived[i]) > bestOffset {
        best, bestOffset := Some(i), LagOffset(arrived[i]);
      }
    }
    return best;
  }

  // ----------------------------------------------------------------- what the choices mean

  /** At least as good in both respects, and better in one. */
  predicate Dominates(a: Candidate, b: Candidate, prefs: Preferences) {
    && ZoneAwareOffset(a) >= ZoneAwareOffset(b) && ZoneScore(a.zone, prefs) >= ZoneScore(b.zone, prefs)
    && (ZoneAwareOffset(a) > ZoneAwareOffset(b) || ZoneScore(a.zone, prefs) > ZoneScore(b.zone, prefs))
  }

  lemma LagScoreOrder(a: Candidate, b: Candidate, maxOffset: int)
    requires maxOffset > 0
    ensures ZoneAwareOffset(a) < ZoneAwareOffset(b) <==> LagScore(a, maxOffset) < LagScore(b, maxOffset)
  {
    var x, y, m := ZoneAwareOffset(a) as real, ZoneAwareOffset(b) as real, maxOffset as real;
    assert (x / m) * m == x && (y / m) * m == y;
    if x / m < y / m {
      assert (x / m) * m < (y / m) * m;
    }
  }

  lemma Gains(v: real, w: real, dl: real, dz: real)
    requires v > 0.0 && w > 0.0 && dl >= 0.0 && dz >= 0.0 && (dl > 0.0 || dz > 0.0)
    ensures v * dl + w * dz > 0.0
  {
    if dl > 0.0 {
      assert v * dl > 0.0 && w * dz >= 0.0;
    } else {
      assert w * dz > 0.0 && v * dl == 0.0;
    }
  }

  lemma Expand(v: real, w: real, lag: real, lag': real, zone: real, zone': real)
    requires v * (lag - lag') + w * (zone - zone') > 0.0
    ensures v * lag + w * zone > v * lag' + w * zone'
  {
  }

  lemma BlendOrder(v: real, w: real, lag: real, lag': real, zone: real, zone': real)
    requires v > 0.0 && w > 0.0 && lag >= lag' && zone >= zone' && (lag > lag' || zone > zone')
    ensures Blend(v, w, lag, zone) > Blend(v, w, lag', zone')
  {
    Gains(v, w, lag - lag', zone - zone');
    Expand(v, w, lag, lag', zone, zone');
  }

  lemma DominatesScore(a: Candidate, b: Candidate, maxOffset: int, weight: int, prefs: Preferences)
    requires 0 < weight < 100 && maxOffset > 0 && Dominates(a, b, prefs)
    ensures Score(a, maxOffset, weight, prefs) > Score(b, maxOffset, weight, prefs)
  {
    LagScoreOrder(a, b, maxOffset);
    LagScoreOrder(b, a, maxOffset);
    var w := weight as real / 100.0;
    BlendOrder(1.0 - w, w, LagScore(a, maxOffset), LagScore(b, maxOffset), ZoneScore(a.zone, prefs),
               ZoneScore(b.zone, prefs));
  }

  /** With some progress in replication and a weight strictly between 0 and 100, no candidate
      beats the elected one in one respect while matching it in the other. */
  lemma ElectedIsUndominated(arrived: seq<Candidate>, weight: int, prefs: Preferences, i: nat, k: nat)
    requires 0 < weight < 100 && MaxOffset(arrived) > 0
    requires IsBest(arrived, weight, prefs, i) && k < |arrived|
    ensures !Dominates(arrived[k], arrived[i], prefs)
  {
    var max := MaxOffset(arrived);
    assert Scores(arrived, weight, prefs)[k] == Score(arrived[k], max, weight, prefs);
    assert Scores(arrived, weight, prefs)[i] == Score(arrived[i], max, weight, prefs);
    if Dominates(arrived[k], arrived[i], prefs) {
      DominatesScore(arrived[k], arrived[i], max, weight, prefs);
    }
  }

  // The trade-off between offset and zone, without the scores.

  lemma Scaling(m: real, offset: real, v: real, w: real, lag: real, zone: real)
    requires lag * m == offset
    ensures 100.0 * m * Blend(v, w, lag, zone) == 100.0 * v * offset + 100.0 * w * m * zone
  {
    calc {
      100.0 * m * Blend(v, w, lag, zone);
      100.0 * (m * (v * lag)) + 100.0 * (m * (w * zone));
      { assert m * (v * lag) == v * (lag * m); }
      100.0 * v * offset + 100.0 * w * m * zone;
    }
  }

  /** The score in units of the largest offset. */
  lemma ScoreScaled(c: Candidate, maxOffset: int, weight: int, prefs: Preferences)
    requires maxOffset > 0
    ensures 100.0 * maxOffset as real * Score(c, maxOffset, weight, prefs) ==
            (100 - weight) as real * ZoneAwareOffset(c) as real
            + weight as real * maxOffset as real * ZoneScore(c.zone, prefs)
  {
    var w, m, o := weight as real / 100.0, maxOffset as real, ZoneAwareOffset(c) as real;
    assert o / m * m == o;
    Scaling(m, o, 1.0 - w, w, LagScore(c, maxOffset), ZoneScore(c.zone, prefs));
    assert 100.0 * w == weight as real && 100.0 * (1.0 - w) == (100 - weight) as real;
  }

  lemma RealProduct(x: int, y: int)
    ensures (x * y) as real == x as real * y as real
  {
  }

  /** From the zone to be avoided to a neutral one, or from there to a preferred one. */
  predicate StepUp(a: string, b: string, prefs: Preferences) {
    || (!Shunned(a, prefs) && a in prefs.preferred && !Shunned(b, prefs) && b !in prefs.preferred)
    || (!Shunned(a, prefs) && a !in prefs.preferred && Shunned(b, prefs))
  }

  /** One step up in zone is worth half of the weight: it outweighs a lag exactly up to that. */
  lemma TradeOff(a: Candidate, b: Candidate, maxOffset: int, weight: int, prefs: Preferences)
    requires maxOffset > 0 && StepUp(a.zone, b.zone, prefs)
    ensures Score(a, maxOffset, weight, prefs) > Score(b, maxOffset, weight, prefs) <==>
            weight * maxOffset > 2 * ((100 - weight) * (ZoneAwareOffset(b) - ZoneAwareOffset(a)))
  {
    ScoreScaled(a, maxOffset, weight, prefs);
    ScoreScaled(b, maxOffset, weight, prefs);
    var m, x, y := maxOffset as real, ZoneAwareOffset(a), ZoneAwareOffset(b);
    RealProduct(weight, maxOffset);
    RealProduct(100 - weight, y - x);
    Steps(m, weight as real, (100 - weight) as real, x as real, y as real, ZoneScore(b.zone, prefs));
    Magnified(100.0 * m, Score(a, maxOffset, weight, prefs), Score(b, maxOffset, weight, prefs));
  }

  lemma Steps(m: real, w: real, v: real, x: real, y: real, zone: real)
    ensures v * x + w * m * (zone + 0.5) > v * y + w * m * zone <==> w * m > 2.0 * (v * (y - x))
  {
    assert v * (y - x) == v * y - v * x;
    assert w * m * (zone + 0.5) == w * m * zone + w * m * 0.5;
  }

  lemma Magnified(k: real, x: real, y: real)
    requires k > 0.0
    ensures x > y <==> k * x > k * y
  {
    if x > y {
      assert k * (x - y) > 0.0;
    } else {
      assert k * (y - x) >= 0.0;
    }
  }

  /** Without any progress in replication the zone alone decides. */
  lemma ZoneDecides(a: Candidate, b: Candidate, weight: int, prefs: Preferences)
    requires StepUp(a.zone, b.zone, prefs)
    ensures Score(a, 0, weight, prefs) > Score(b, 0, weight, prefs) <==> weight > 0
  {
  }

  /** A pod in the zone to be avoided is elected only ahead of candidates from other zones that lag
      behind it; with equal offsets never. */
  lemma ShunnedLoses(arrived: seq<Candidate>, weight: int, prefs: Preferences, i: nat, k: nat)
    requires 0 < weight <= 100 && IsBest(arrived, weight, prefs, i) && k < |arrived|
    requires prefs.avoidSameZone && arrived[i].zone != "" && arrived[i].zone == prefs.failedZone
    ensures arrived[k].zone == prefs.failedZone || ZoneAwareOffset(arrived[k]) < ZoneAwareOffset(arrived[i])
  {
    var max, a, b := MaxOffset(arrived), arrived[k], arrived[i];
    assert Scores(arrived, weight, prefs)[k] == Score(a, max, weight, prefs);
    assert Scores(arrived, weight, prefs)[i] == Score(b, max, weight, prefs);
    MaxOffsetMeans(arrived);
    if a.zone != prefs.failedZone && ZoneAwareOffset(a) >= ZoneAwareOffset(b) {
      if max > 0 {
        LagScoreOrder(a, b, max);
      }
      BetterZoneWins(weight as real / 100.0, LagScore(a, max), LagScore(b, max), ZoneScore(a.zone, prefs));
      assert false;
    }
  }

  lemma BetterZoneWins(w: real, lag: real, lag': real, zone: real)
    requires 0.0 < w <= 1.0 && lag >= lag' && zone > 0.0
    ensures Blend(1.0 - w, w, lag, zone) > Blend(1.0 - w, w, lag', 0.0)
  {
    assert (1.0 - w) * (lag - lag') >= 0.0 && w * zone > 0.0;
    assert (1.0 - w) * (lag - lag') == (1.0 - w) * lag - (1.0 - w) * lag';
  }

  /** At weight 0 the zone is ignored. */
  lemma WeightZero(c: Candidate, maxOffset: int, prefs: Preferences)
    ensures Score(c, maxOffset, 0, prefs) == LagScore(c, maxOffset)
  {
    assert 0 as real / 100.0 == 0.0;
  }

  lemma ScoresAtZero(arrived: seq<Candidate>, prefs: Preferences, i: nat)
    requires IsBest(arrived, 0, prefs, i)
    ensures forall k | 0 <= k < |arrived| ::
              LagScore(arrived[k], MaxOffset(arrived)) <= LagScore(arrived[i], MaxOffset(arrived))
    ensures forall k | 0 <= k < i ::
              LagScore(arrived[k], MaxOffset(arrived)) < LagScore(arrived[i], MaxOffset(arrived))
  {
    var scores := Scores(arrived, 0, prefs);
    forall k | 0 <= k < |arrived| ensures scores[k] == LagScore(arrived[k], MaxOffset(arrived)) {
      WeightZero(arrived[k], MaxOffset(arrived), prefs);
    }
  }

  /** At weight 0 the choice is that by lag, for the same order of arrival, exactly when some
      offset is positive or the first arrival has answered with offset 0: a candidate that does
      not answer counts as offset 0 in one choice and is ruled out in the other. */
  lemma WeightZeroIsLag(arrived: seq<Candidate>, prefs: Preferences, i: nat)
    requires IsBest(arrived, 0, prefs, i)
    ensures IsFreshest(arrived, i) <==> MaxOffset(arrived) > 0 || arrived[0].reply == Offset(0)
  {
    MaxOffsetMeans(arrived);
    if MaxOffset(arrived) > 0 {
      PositiveMax(arrived, prefs, i);
    } else {
      ScoresAtZero(arrived, prefs, i);
      assert i == 0 by {
        assert LagScore(arrived[0], MaxOffset(arrived)) == LagScore(arrived[i], MaxOffset(arrived));
      }
      assert forall k | 0 <= k < |arrived| :: arrived[k] in arrived;
    }
  }

  /** The two choices can differ: a first candidate that does not answer, and one at offset 0. */
  lemma WeightZeroDiffers(p: Pod, q: Pod, prefs: Preferences)
    ensures var arrived := [Candidate(p, "", Unanswered), Candidate(q, "", Offset(0))];
            IsBest(arrived, 0, prefs, 0) && IsFreshest(arrived, 1)
  {
    var a, b := Candidate(p, "", Unanswered), Candidate(q, "", Offset(0));
    var arrived := [a, b];
    assert arrived[..1] == [a] && [a][..0] == [];
    assert MaxOffset([a]) == 0;
    WeightZero(a, 0, prefs);
    WeightZero(b, 0, prefs);
    assert Scores(arrived, 0, prefs) == [1.0, 1.0];
  }

  lemma PositiveMax(arrived: seq<Candidate>, prefs: Preferences, i: nat)
    requires IsBest(arrived, 0, prefs, i) && MaxOffset(arrived) > 0
    ensures IsFreshest(arrived, i)
  {
    var max := MaxOffset(arrived);
    MaxOffsetMeans(arrived);
    ScoresAtZero(arrived, prefs, i);
    forall k | 0 <= k < |arrived|
      ensures ZoneAwareOffset(arrived[k]) <= ZoneAwareOffset(arrived[i])
      ensures k < i ==> ZoneAwareOffset(arrived[k]) < ZoneAwareOffset(arrived[i])
    {
      LagScoreOrder(arrived[i], arrived[k], max);
      LagScoreOrder(arrived[k], arrived[i], max);
    }
    var c :| c in arrived && ZoneAwareOffset(c) == max;
    assert ZoneAwareOffset(arrived[i]) == max;
  }

  // ----------------------------------------------------------------- the election

  /** Zones count when the cluster has a topology. */
  datatype Topology = Topology(weight: int, prefs: Preferences)

  /** Every candidate has sent one reply; the replies come in the order of `arrived`. */
  predicate RepliesOf(arrived: seq<Candidate>, candidates: seq<Pod>) {
    |arrived| == |candidates| && forall c | c in arrived :: c.pod in candidates
  }

  /** No candidate has answered with an offset above -1. */
  predicate NoneAnswered(arrived: seq<Candidate>) {
    forall c | c in arrived :: c.reply.Unanswered? || c.reply.offset <= -1
  }

  /** The elected pod runs, does not terminate, is not the primary, and is listed as its replica. */
  method PickBestReplicaForShard(pods: seq<Pod>, raw: string, masterId: string, primary: string,
                                 topology: Option<Topology>, arrived: seq<Candidate>) returns (r: Option<Pod>)
    requires RepliesOf(arrived, Filtered(pods, primary, IpsOf(Rows(raw), row => ReplicaRow(row, masterId)),
                                         HostnamesOf(Rows(raw), row => ReplicaRow(row, masterId))))
    ensures r.None? <==> raw == "" || arrived == [] || (topology.None? && NoneAnswered(arrived))
    ensures r.Some? ==> r.value in pods && r.value.name != primary && r.value.running && !r.value.terminating
    ensures r.Some? ==> ListedReplica(r.value, raw, masterId)
    ensures r.Some? ==> exists i: nat | i < |arrived| ::
              && arrived[i].pod == r.value
              && match topology
                 case None => IsFreshest(arrived, i)
                 case Some(t) => IsBest(arrived, t.weight, t.prefs, i)
  {
    var candidates := FindReplicaPods(pods, raw, masterId, primary);
    if candidates.None? || |candidates.value| == 0 {
      return None;
    }
    var i: Option<nat>;
    match topology {
      case Some(t) =>
        i := PickTopologyAware(arrived, t.weight, t.prefs);
      case None =>
        i := PickByLag(arrived);
    }
    if i.None? {
      return None;
    }
    assert arrived[i.value] in arrived;
    return Some(arrived[i.value].pod);
  }
}
