/** The miss/hit lifecycle of assets: the per-asset operations and the batch form of a run. */
module AssetLifecycle {
  const MAX_MISS := 0xFFFF_FFFF
  const MAX_THRESHOLD := 1000

  datatype Status = Active | Inactive | Ignored

  /** The two lifecycle columns of a live asset row. */
  datatype Row = Row(misses: nat, status: Status)

  predicate Stored(r: Row) {
    r.misses <= MAX_MISS
  }

  /** RecordMiss on the row. */
  function Miss(threshold: nat, r: Row): Row {
    if r.status != Active || r.misses >= MAX_MISS then r
    else Row(r.misses + 1, if r.misses + 1 < threshold then Active else Inactive)
  }

  /** RecordHit on the row. */
  function Hit(r: Row): Row {
    if r.status == Ignored then r else Row(0, Active)
  }

  /** One asset of ApplyDiscoveryObservationLifecycle. */
  function Observe(threshold: nat, allowMiss: bool, hit: bool, r: Row): Row {
    if hit then Row(0, if r.status == Inactive then Active else r.status)
    else if !allowMiss || r.status == Ignored then r
    else
      var misses := if r.misses < MAX_MISS then r.misses + 1 else r.misses;
      Row(misses, if r.status == Active && misses >= threshold then Inactive else r.status)
  }

  // ----------------------------------------------------------- the programs

  /** One asset as the asset service stores it. */
  class AssetRecord {
    var misses: nat
    var status: Status
    const threshold: nat

    function State(): Row
      reads this
    {
      Row(misses, status)
    }

    /** RecordMiss: only active assets count, a full counter stays, the threshold flips. */
    method RecordMiss() returns (transitioned: bool)
      requires Stored(State())
      modifies this`misses, this`status
      ensures Stored(State()) && State() == Miss(threshold, old(State()))
      ensures transitioned <==> old(status) == Active && status == Inactive
    {
      if status != Active { return false; }
      if misses >= MAX_MISS { return false; }
      var newMiss := misses + 1;
      if newMiss < threshold {
        misses := newMiss;
        return false;
      }
      misses, status := newMiss, Inactive;
      return true;
    }

    /** RecordHit: reset, and revive an inactive asset. */
    method RecordHit() returns (transitioned: bool)
      modifies this`misses, this`status
      ensures State() == Hit(old(State()))
      ensures transitioned <==> old(status) == Inactive
    {
      match status {
        case Active =>
          if misses == 0 { return false; }
          misses := 0;
          return false;
        case Inactive =>
          misses, status := 0, Active;
          return true;
        case Ignored => return false;
      }
    }
  }

  /** The project's asset rows as the run's closing transaction sees them. */
  class AssetTable {
    var rows: map<nat, Row>

    /** ApplyDiscoveryObservationLifecycle over the listed assets; a zero threshold means three. */
    method ApplyDiscoveryObservationLifecycle(listed: seq<nat>, hits: set<nat>, missThreshold: nat, allowMiss: bool)
      requires forall i | 0 <= i < |listed| :: listed[i] in rows
      requires forall i, j | 0 <= i < j < |listed| :: listed[i] != listed[j]
      modifies this
      ensures var threshold := if missThreshold == 0 then 3 else missThreshold;
              rows == map id | id in old(rows) ::
                if id in listed then Observe(threshold, allowMiss, id in hits, old(rows)[id]) else old(rows)[id]
    {
      var threshold := if missThreshold == 0 then 3 else missThreshold;
      ghost var before := rows;
      for i := 0 to |listed|
        invariant rows.Keys == before.Keys
        invariant forall id | id in before ::
          rows[id] == if id in listed[..i] then Observe(threshold, allowMiss, id in hits, before[id]) else before[id]
      {
        var id := listed[i];
        assert listed[..i + 1] == listed[..i] + [id];
        var item := rows[id];
        assert id !in listed[..i];
        var newMiss, newStatus := item.misses, item.status;
        if id in hits {
          newMiss := 0;
          if item.status == Inactive { newStatus := Active; }
        } else if !allowMiss || item.status == Ignored {
          continue;
        } else {
          if newMiss < MAX_MISS { newMiss := newMiss + 1; }
          if item.status == Active && newMiss >= threshold { newStatus := Inactive; }
        }
        if newMiss == item.misses && newStatus == item.status { continue; }
        rows := rows[id := Row(newMiss, newStatus)];
      }
      assert listed[..|listed|] == listed;
    }
  }

  // -------------------------------------------------------------- histories

  /** What one run says about an asset: seen, missed, or missed by a run that does not count. */
  datatype Signal = Seen | Missed | Uncounted

  function ByService(threshold: nat, r: Row, history: seq<Signal>): Row {
    if history == [] then r
    else
      var before := ByService(threshold, r, history[..|history|-1]);
      match history[|history|-1]
      case Seen => Hit(before)
      case Missed => Miss(threshold, before)
      case Uncounted => before
  }

  function ByRuns(threshold: nat, r: Row, history: seq<Signal>): Row {
    if history == [] then r
    else
      var last := history[|history|-1];
      Observe(threshold, last == Missed, last == Seen, ByRuns(threshold, r, history[..|history|-1]))
  }

  /** The misses since the asset was last seen. */
  function Trailing(history: seq<Signal>): nat {
    if history == [] then 0
    else
      match history[|history|-1]
      case Seen => 0
      case Missed => Trailing(history[..|history|-1]) + 1
      case Uncounted => Trailing(history[..|history|-1])
  }

  const NEW := Row(0, Active)

  function Min(a: nat, b: nat): nat {
    if a < b then a else b
  }

  /** From a new asset both forms give the same status at every step: inactive exactly when the
      asset was missed at least `threshold` times since it was last seen. The service's counter
      stops at the threshold, the batch counter at the 32-bit ceiling. */
  lemma {:induction false} FormsAgree(threshold: nat, history: seq<Signal>)
    requires 1 <= threshold <= MAX_THRESHOLD
    ensures var (one, batch) := (ByService(threshold, NEW, history), ByRuns(threshold, NEW, history));
            && one.status == batch.status == (if Trailing(history) >= threshold then Inactive else Active)
            && one.misses == Min(Trailing(history), threshold) && batch.misses == Min(Trailing(history), MAX_MISS)
    decreases |history|
  {
    if history != [] { FormsAgree(threshold, history[..|history|-1]); }
  }

  /** Ignored assets keep their status under both forms, whatever happens. */
  lemma {:induction false} IgnoredStays(threshold: nat, r: Row, history: seq<Signal>)
    requires r.status == Ignored
    ensures ByService(threshold, r, history) == r && ByRuns(threshold, r, history).status == Ignored
    decreases |history|
  {
    if history != [] { IgnoredStays(threshold, r, history[..|history|-1]); }
  }

  /** Neither counter ever leaves 32 bits. */
  lemma {:induction false} CountersStay(threshold: nat, r: Row, history: seq<Signal>)
    requires Stored(r)
    ensures Stored(ByService(threshold, r, history)) && Stored(ByRuns(threshold, r, history))
    decreases |history|
  {
    if history != [] { CountersStay(threshold, r, history[..|history|-1]); }
  }

  /** An active asset whose counter is already full: the service never retires it, a run does. */
  predicate Full(r: Row) {
    r.status == Active && r.misses == MAX_MISS
  }

  /** From any stored row the two forms agree on the status for ever, unless it is such a row. */
  lemma {:induction false} FormsAgreeFrom(threshold: nat, r: Row, history: seq<Signal>)
    requires 1 <= threshold <= MAX_THRESHOLD && Stored(r) && !Full(r)
    ensures var (one, batch) := (ByService(threshold, r, history), ByRuns(threshold, r, history));
            one.status == batch.status && !Full(one) && (one.status == Active ==> one.misses == batch.misses)
    decreases |history|
  {
    if history != [] {
      FormsAgreeFrom(threshold, r, history[..|history|-1]);
      CountersStay(threshold, r, history[..|history|-1]);
    }
  }

  /** The exact condition: the forms agree on every history exactly from the rows that are not full. */
  lemma AgreementCondition(threshold: nat, r: Row)
    requires 1 <= threshold <= MAX_THRESHOLD && Stored(r)
    ensures (forall history :: ByService(threshold, r, history).status == ByRuns(threshold, r, history).status)
            <==> !Full(r)
  {
    if Full(r) {
      var history := [Missed];
      assert history[..0] == [];
      assert ByService(threshold, r, history).status == Active && ByRuns(threshold, r, history).status == Inactive;
    } else {
      forall history ensures ByService(threshold, r, history).status == ByRuns(threshold, r, history).status {
        FormsAgreeFrom(threshold, r, history);
      }
    }
  }
}
