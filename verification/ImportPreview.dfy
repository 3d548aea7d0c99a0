/** The import preview and the import it predicts. */
module ImportPreview {
  import opened Options

  const MAX_BATCH := 500

  const MAX_TENANT := 64
  const MAX_ORG := 64
  const MAX_DISPLAY_NAME := 255
  const MAX_SOURCE := 64
  const MAX_OWNER := 64
  const MAX_BUSINESS_UNIT := 128
  const MAX_ACTOR := 64

  const STATUSES: set<string> := {"active", "inactive", "ignored", "deleted"}

  /** A normalised asset key: its text, and the text the table's case-insensitive collation
      compares by. */
  datatype Key = Key(text: string, folded: string)

  /** The identifiers a batch puts on every row, by the lengths of their texts. */
  datatype Ids = Ids(tenant: nat, org: nat, actor: nat)

  /** A row to import: what Normalize makes of its type and value (None when it refuses them), its
      status text, and the lengths of its metadata texts. */
  datatype Row = Row(key: Option<Key>, status: string, ids: Ids,
                     displayName: nat, source: nat, owner: nat, businessUnit: nat)

  datatype RowError = NotNormal | BadStatus | TooLong

  datatype RowStatus = RowInvalid | RowDuplicate | RowUpdate | RowNew

  datatype ImportStatus = RowImported | RowFailed

  datatype Preview = Preview(total: nat, new_: nat, update: nat, duplicate: nat, failed: nat, rows: seq<RowStatus>)

  datatype Report = Report(total: nat, success: nat, failed: nat, rows: seq<ImportStatus>)

  // ------------------------------------------------------------- row checks

  /** The seven widths of checkMetadataLen. */
  function Widths(r: Row): seq<(nat, nat)> {
    [(r.ids.tenant, MAX_TENANT), (r.ids.org, MAX_ORG), (r.displayName, MAX_DISPLAY_NAME), (r.source, MAX_SOURCE),
     (r.owner, MAX_OWNER), (r.businessUnit, MAX_BUSINESS_UNIT), (r.ids.actor, MAX_ACTOR)]
  }

  predicate WithinWidths(r: Row) {
    forall i | 0 <= i < |Widths(r)| :: Widths(r)[i].0 <= Widths(r)[i].1
  }

  /** checkMetadataLen. */
  method CheckMetadataLen(r: Row) returns (ok: bool)
    ensures ok <==> WithinWidths(r)
  {
    var fields := Widths(r);
    for i := 0 to |fields|
      invariant forall j | 0 <= j < i :: fields[j].0 <= fields[j].1
    {
      if fields[i].0 > fields[i].1 { return false; }
    }
    return true;
  }

  predicate ValidStatus(status: string) {
    status in STATUSES
  }

  /** What DryRun reports of a row before it looks at keys: Normalize, then validateRowFields on the
      row as the caller gave it. */
  function PreviewError(r: Row): Option<RowError> {
    if r.key == None then Some(NotNormal)
    else if !ValidStatus(if r.status == "" then "active" else r.status) then Some(BadStatus)
    else if !WithinWidths(r) then Some(TooLong)
    else None
  }

  /** What ImportBatch makes of a row before importing it. */
  function WithIds(r: Row, ids: Ids): Row {
    r.(ids := ids)
  }

  /** The typed error importWith ends with on the row as the batch passes it, if any. */
  function ImportError(r: Row): Option<RowError> {
    match r.key
    case None => Some(NotNormal)
    case Some(_) =>
      var status := if r.status == "" then "active" else r.status;
      if ValidStatus(status) then (if WithinWidths(r) then None else Some(TooLong)) else Some(BadStatus)
  }

  predicate IdsFit(ids: Ids) {
    ids.tenant <= MAX_TENANT && ids.org <= MAX_ORG && ids.actor <= MAX_ACTOR
  }

  /** The checks that do not concern the identifiers. */
  predicate PassesTheRest(r: Row) {
    && r.key.Some? && (r.status == "" || r.status in {"active", "inactive", "ignored", "deleted"})
    && r.displayName <= MAX_DISPLAY_NAME && r.source <= MAX_SOURCE && r.owner <= MAX_OWNER
    && r.businessUnit <= MAX_BUSINESS_UNIT
  }

  predicate Previewable(r: Row) {
    PreviewError(r) == None
  }

  predicate Importable(r: Row, ids: Ids) {
    ImportError(WithIds(r, ids)) == None
  }

  lemma WidthsMean(r: Row)
    ensures WithinWidths(r) <==>
              && IdsFit(r.ids) && r.displayName <= MAX_DISPLAY_NAME && r.source <= MAX_SOURCE
              && r.owner <= MAX_OWNER && r.businessUnit <= MAX_BUSINESS_UNIT
  {
    var w := Widths(r);
    assert w[0] == (r.ids.tenant, MAX_TENANT) && w[1] == (r.ids.org, MAX_ORG) && w[2] == (r.displayName, MAX_DISPLAY_NAME);
    assert w[3] == (r.source, MAX_SOURCE) && w[4] == (r.owner, MAX_OWNER);
    assert w[5] == (r.businessUnit, MAX_BUSINESS_UNIT) && w[6] == (r.ids.actor, MAX_ACTOR);
  }

  /** Which of its errors a preview row gets: an unreadable value before a bad status, an empty status
      meaning active, before a text beyond its column. */
  lemma PreviewErrorMeans(r: Row)
    ensures var known := r.status in {"", "active", "inactive", "ignored", "deleted"};
            var fits := r.ids.tenant <= 64 && r.ids.org <= 64 && r.displayName <= 255 && r.source <= 64
                        && r.owner <= 64 && r.businessUnit <= 128 && r.ids.actor <= 64;
            && (PreviewError(r) == Some(NotNormal) <==> r.key == None)
            && (PreviewError(r) == Some(BadStatus) <==> r.key.Some? && !known)
            && (PreviewError(r) == Some(TooLong) <==> r.key.Some? && known && !fits)
            && (PreviewError(r) == None <==> r.key.Some? && known && fits)
  {
    WidthsMean(r);
    hide WithinWidths;
  }

  /** Preview and import report the same error for a row, or none, exactly when the row fails another
      check anyway or its own identifiers fit just as the batch's do. */
  lemma ErrorsAgree(r: Row, ids: Ids)
    ensures PreviewError(r) == ImportError(WithIds(r, ids))
            <==> (PassesTheRest(r) ==> (IdsFit(r.ids) <==> IdsFit(ids)))
    ensures (Previewable(r) <==> Importable(r, ids)) <==> PreviewError(r) == ImportError(WithIds(r, ids))
    ensures Previewable(r) ==> r.key.Some?
    ensures Importable(r, ids) ==> r.key.Some?
  {
    WidthsMean(r);
    WidthsMean(WithIds(r, ids));
  }

  // ---------------------------------------------------------- specification

  /** The keys of the rows the preview counts. */
  ghost function SeenKeys(rows: seq<Row>): set<Key> {
    if rows == [] then {}
    else
      var last := rows[|rows|-1];
      SeenKeys(rows[..|rows|-1]) + (if Previewable(last) then {last.key.value} else {})
  }

  ghost function PreviewStatus(live: set<string>, rows: seq<Row>, i: nat): RowStatus
    requires i < |rows|
  {
    if !Previewable(rows[i]) then RowInvalid
    else if rows[i].key.value in SeenKeys(rows[..i]) then RowDuplicate
    else if rows[i].key.value.folded in live then RowUpdate
    else RowNew
  }

  ghost function CountOf<T>(statuses: seq<T>, s: T): nat {
    if statuses == [] then 0
    else CountOf(statuses[..|statuses|-1], s) + (if statuses[|statuses|-1] == s then 1 else 0)
  }

  /** The counters are the numbers of rows of each status. */
  ghost predicate Tallied(p: Preview) {
    && p.failed == CountOf(p.rows, RowInvalid) && p.duplicate == CountOf(p.rows, RowDuplicate)
    && p.update == CountOf(p.rows, RowUpdate) && p.new_ == CountOf(p.rows, RowNew)
  }

  /** One row's status appended and counted. */
  function Record(p: Preview, status: RowStatus): Preview {
    var q := p.(rows := p.rows + [status]);
    match status
    case RowInvalid => q.(failed := p.failed + 1)
    case RowDuplicate => q.(duplicate := p.duplicate + 1)
    case RowUpdate => q.(update := p.update + 1)
    case RowNew => q.(new_ := p.new_ + 1)
  }

  lemma CountAppend<T>(statuses: seq<T>, status: T, s: T)
    ensures CountOf(statuses + [status], s) == CountOf(statuses, s) + (if s == status then 1 else 0)
  {
    assert (statuses + [status])[..|statuses|] == statuses;
  }

  lemma TallyStep(p: Preview, status: RowStatus)
    ensures Tallied(p) ==> Tallied(Record(p, status))
    ensures Record(p, status).rows == p.rows + [status] && Record(p, status).total == p.total
  {
    hide CountOf;
    CountAppend(p.rows, status, RowInvalid);
    CountAppend(p.rows, status, RowDuplicate);
    CountAppend(p.rows, status, RowUpdate);
    CountAppend(p.rows, status, RowNew);
  }

  ghost predicate Counted(r: Report) {
    r.success == CountOf(r.rows, RowImported) && r.failed == CountOf(r.rows, RowFailed)
  }

  /** One row's outcome appended and counted. */
  function Note(r: Report, status: ImportStatus): Report {
    var q := r.(rows := r.rows + [status]);
    if status == RowImported then q.(success := r.success + 1) else q.(failed := r.failed + 1)
  }

  lemma CountStep(r: Report, status: ImportStatus)
    ensures Counted(r) ==> Counted(Note(r, status))
    ensures Note(r, status).rows == r.rows + [status] && Note(r, status).total == r.total
  {
    hide CountOf;
    CountAppend(r.rows, status, RowImported);
    CountAppend(r.rows, status, RowFailed);
  }

  /** The report after the first `i` rows. */
  ghost predicate ReportsFirst(r: Report, rows: seq<Row>, ids: Ids, i: nat) {
    && r.total == |rows| && |r.rows| == i <= |rows| && Counted(r)
    && forall j | 0 <= j < i :: r.rows[j] == if Importable(rows[j], ids) then RowImported else RowFailed
  }

  lemma ReportStep(r: Report, rows: seq<Row>, ids: Ids, i: nat)
    requires ReportsFirst(r, rows, ids, i) && i < |rows|
    ensures ReportsFirst(Note(r, if Importable(rows[i], ids) then RowImported else RowFailed), rows, ids, i + 1)
  {
    hide Counted, Note, Importable;
    CountStep(r, if Importable(rows[i], ids) then RowImported else RowFailed);
  }

  lemma ReportDone(r: Report, rows: seq<Row>, ids: Ids)
    requires ReportsFirst(r, rows, ids, |rows|)
    ensures r.total == |rows| == |r.rows| && Counted(r)
    ensures forall i | 0 <= i < |rows| :: r.rows[i] == if Importable(rows[i], ids) then RowImported else RowFailed
  {}

  lemma ImportedStep(live: set<string>, rows: seq<Row>, ids: Ids, i: nat)
    requires i < |rows|
    ensures Imported(live, rows[..i + 1], ids)
            == Imported(live, rows[..i], ids) + (if Importable(rows[i], ids) then {rows[i].key.value.folded} else {})
  {
    assert rows[..i + 1][..i] == rows[..i];
  }

  /** The live assets, by folded key, after importing the rows. */
  ghost function Imported(live: set<string>, rows: seq<Row>, ids: Ids): set<string> {
    if rows == [] then live
    else
      var last := rows[|rows|-1];
      Imported(live, rows[..|rows|-1], ids) + (if Importable(last, ids) then {last.key.value.folded} else {})
  }

  // ------------------------------------------------------------ the program

  /** One project's live assets. */
  class AssetService {
    var live: set<string>

    /** DryRun: classify every row without writing. */
    method DryRun(rows: seq<Row>) returns (r: Option<Preview>)
      ensures r == None <==> |rows| > MAX_BATCH
      ensures r.Some? ==>
        && r.value.total == |rows| == |r.value.rows|
        && (forall i | 0 <= i < |rows| :: r.value.rows[i] == PreviewStatus(live, rows, i))
        && Tallied(r.value)
    {
      if |rows| > MAX_BATCH { return None; }
      var p := Preview(|rows|, 0, 0, 0, 0, []);
      var seen: set<Key> := {};
      assert Tallied(p) && seen == SeenKeys(rows[..0]);
      hide PreviewStatus, Previewable, PreviewError, SeenKeys, Tallied, Record;
      for i := 0 to |rows|
        invariant p.total == |rows| && |p.rows| == i && seen == SeenKeys(rows[..i])
        invariant forall j | 0 <= j < i :: p.rows[j] == PreviewStatus(live, rows, j)
        invariant Tallied(p)
      {
        var status;
        status, seen := Classify(rows, i, seen);
        TallyStep(p, status);
        p := Record(p, status);
      }
      return Some(p);
    }

    /** One row of the preview: validity first, then duplicates, then the stored assets. */
    method Classify(rows: seq<Row>, i: nat, seen0: set<Key>) returns (status: RowStatus, seen: set<Key>)
      requires i < |rows| && seen0 == SeenKeys(rows[..i])
      ensures status == PreviewStatus(live, rows, i) && seen == SeenKeys(rows[..i + 1])
    {
      seen := seen0;
      var row := rows[i];
      assert rows[..i + 1][..i] == rows[..i];
      if row.key == None { return RowInvalid, seen; }
      var error := ValidateRowFields(row);
      if error.Some? { return RowInvalid, seen; }
      if row.key.value in seen { return RowDuplicate, seen; }
      seen := seen + {row.key.value};
      return if row.key.value.folded in live then RowUpdate else RowNew, seen;
    }

    /** validateRowFields: the status, empty meaning active, then the widths. */
    method ValidateRowFields(r: Row) returns (error: Option<RowError>)
      requires r.key.Some?
      ensures error == PreviewError(r)
    {
      hide WithinWidths;
      var status := r.status;
      if status == "" { status := "active"; }
      if !ValidStatus(status) { return Some(BadStatus); }
      var ok := CheckMetadataLen(r);
      return if ok then None else Some(TooLong);
    }

    /** importWith: normalise, check, upsert by key. */
    method ImportWith(r: Row) returns (error: Option<RowError>)
      modifies this
      ensures error == ImportError(r)
      ensures live == if error == None then old(live) + {r.key.value.folded} else old(live)
    {
      hide WithinWidths;
      if r.key == None { return Some(NotNormal); }
      var status := r.status;
      if status == "" { status := "active"; }
      if !ValidStatus(status) { return Some(BadStatus); }
      var ok := CheckMetadataLen(r);
      if !ok { return Some(TooLong); }
      live := live + {r.key.value.folded};
      return None;
    }

    /** ImportBatch without storage failures: the batch's identifiers replace every row's. */
    method ImportBatch(rows: seq<Row>, ids: Ids) returns (r: Option<Report>)
      modifies this
      ensures r == None <==> |rows| > MAX_BATCH
      ensures live == if r == None then old(live) else Imported(old(live), rows, ids)
      ensures r.Some? ==>
        && r.value.total == |rows| == |r.value.rows|
        && (forall i | 0 <= i < |rows| :: r.value.rows[i] == if Importable(rows[i], ids) then RowImported else RowFailed)
        && Counted(r.value)
    {
      if |rows| > MAX_BATCH { return None; }
      var report := Report(|rows|, 0, 0, []);
      assert ReportsFirst(report, rows, ids, 0) && live == Imported(live, rows[..0], ids);
      hide ImportError, WithIds, ReportsFirst, Imported, Note;
      for i := 0 to |rows|
        invariant ReportsFirst(report, rows, ids, i) && live == Imported(old(live), rows[..i], ids)
      {
        ImportedStep(old(live), rows, ids, i);
        ReportStep(report, rows, ids, i);
        var error := ImportWith(WithIds(rows[i], ids));
        report := Note(report, if error == None then RowImported else RowFailed);
      }
      assert rows[..|rows|] == rows;
      ReportDone(report, rows, ids);
      return Some(report);
    }
  }

  // ----------------------------------------------------------- main results

  /** The preview of a batch, row by row. */
  ghost function Statuses(live: set<string>, rows: seq<Row>): seq<RowStatus> {
    seq(|rows|, i requires 0 <= i < |rows| => PreviewStatus(live, rows, i))
  }

  /** The outcome of the import, row by row. */
  ghost function Outcomes(rows: seq<Row>, ids: Ids): seq<ImportStatus> {
    seq(|rows|, i requires 0 <= i < |rows| => if Importable(rows[i], ids) then RowImported else RowFailed)
  }

  /** Every row that passes the other checks has identifiers within width iff the batch has. */
  predicate SameIds(rows: seq<Row>, ids: Ids) {
    forall i | 0 <= i < |rows| :: PassesTheRest(rows[i]) ==> (IdsFit(rows[i].ids) <==> IdsFit(ids))
  }

  /** The preview's validation and the import's agree on every row of a batch, down to the error they
      report, exactly when each otherwise acceptable row has tenant, organization and actor within
      width iff the batch has: the preview measures identifiers that the import replaces. */
  lemma PreviewPredictsFailures(live: set<string>, rows: seq<Row>, ids: Ids)
    ensures (forall i | 0 <= i < |rows| ::
               Statuses(live, rows)[i] == RowInvalid <==> Outcomes(rows, ids)[i] == RowFailed)
            <==> SameIds(rows, ids)
    ensures (forall i | 0 <= i < |rows| :: PreviewError(rows[i]) == ImportError(WithIds(rows[i], ids)))
            <==> SameIds(rows, ids)
  {
    hide PreviewError, ImportError, WithinWidths, PassesTheRest, IdsFit, SeenKeys;
    forall i | 0 <= i < |rows|
      ensures (Statuses(live, rows)[i] == RowInvalid <==> Outcomes(rows, ids)[i] == RowFailed)
              <==> (PassesTheRest(rows[i]) ==> (IdsFit(rows[i].ids) <==> IdsFit(ids)))
      ensures PreviewError(rows[i]) == ImportError(WithIds(rows[i], ids))
              <==> (PassesTheRest(rows[i]) ==> (IdsFit(rows[i].ids) <==> IdsFit(ids)))
    {
      ErrorsAgree(rows[i], ids);
    }
  }

  /** The four preview counts sum to the total. */
  lemma {:induction false} CountsSum(statuses: seq<RowStatus>)
    ensures CountOf(statuses, RowInvalid) + CountOf(statuses, RowDuplicate)
            + CountOf(statuses, RowUpdate) + CountOf(statuses, RowNew) == |statuses|
    decreases |statuses|
  {
    if statuses != [] {
      CountsSum(statuses[..|statuses|-1]);
      match statuses[|statuses|-1] case RowInvalid => case RowDuplicate => case RowUpdate => case RowNew =>
    }
  }

  lemma PreviewCountsSum(live: set<string>, rows: seq<Row>)
    ensures var s := Statuses(live, rows);
            CountOf(s, RowInvalid) + CountOf(s, RowDuplicate) + CountOf(s, RowUpdate) + CountOf(s, RowNew) == |rows|
  {
    CountsSum(Statuses(live, rows));
  }

  /** Success is New plus Update plus Duplicate. */
  lemma {:induction false} SuccessIsPredicted(live: set<string>, rows: seq<Row>, ids: Ids)
    requires SameIds(rows, ids)
    ensures var s := Statuses(live, rows);
            CountOf(Outcomes(rows, ids), RowImported) == CountOf(s, RowNew) + CountOf(s, RowUpdate) + CountOf(s, RowDuplicate)
    decreases |rows|
  {
    if rows != [] {
      var n := |rows| - 1;
      SuccessIsPredicted(live, rows[..n], ids);
      StatusesPrefix(live, rows, n);
      ErrorsAgree(rows[n], ids);
      hide PreviewError, ImportError, PassesTheRest, SeenKeys;
      assert Outcomes(rows, ids)[..n] == Outcomes(rows[..n], ids);
    }
  }

  lemma StatusesPrefix(live: set<string>, rows: seq<Row>, n: nat)
    requires n <= |rows|
    ensures Statuses(live, rows)[..n] == Statuses(live, rows[..n])
  {
    forall i | 0 <= i < n ensures Statuses(live, rows)[i] == Statuses(live, rows[..n])[i] {
      assert rows[..n][..i] == rows[..i];
    }
  }

  /** The distinct keys the preview reports as new. */
  ghost function NewKeys(live: set<string>, rows: seq<Row>): set<Key> {
    set k | k in SeenKeys(rows) && k.folded !in live
  }

  lemma NewKeysStep(live: set<string>, rows: seq<Row>, n: nat)
    requires |rows| == n + 1
    ensures |NewKeys(live, rows)| == |NewKeys(live, rows[..n])| + (if PreviewStatus(live, rows, n) == RowNew then 1 else 0)
  {
    var before, last := NewKeys(live, rows[..n]), rows[n];
    if PreviewStatus(live, rows, n) == RowNew {
      assert NewKeys(live, rows) == before + {last.key.value} && last.key.value !in before;
    } else {
      assert NewKeys(live, rows) == before;
    }
  }

  lemma {:induction false} NewCountsKeys(live: set<string>, rows: seq<Row>)
    ensures CountOf(Statuses(live, rows), RowNew) == |NewKeys(live, rows)|
    decreases |rows|
  {
    if rows == [] {
      assert NewKeys(live, rows) == {};
    } else {
      var n := |rows| - 1;
      NewCountsKeys(live, rows[..n]);
      StatusesPrefix(live, rows, n);
      NewKeysStep(live, rows, n);
      hide PreviewStatus, NewKeys, SeenKeys;
      assert CountOf(Statuses(live, rows), RowNew) == CountOf(Statuses(live, rows[..n]), RowNew)
             + (if PreviewStatus(live, rows, n) == RowNew then 1 else 0);
    }
  }

  ghost function Folded(keys: set<Key>): set<string> {
    set k | k in keys :: k.folded
  }

  lemma {:induction false} AddedAreFolded(live: set<string>, rows: seq<Row>, ids: Ids)
    requires SameIds(rows, ids)
    ensures Imported(live, rows, ids) == live + Folded(NewKeys(live, rows))
    decreases |rows|
  {
    if rows == [] {
      assert Folded(NewKeys(live, rows)) == {};
    } else {
      var n := |rows| - 1;
      AddedAreFolded(live, rows[..n], ids);
      var before, after, last := NewKeys(live, rows[..n]), NewKeys(live, rows), rows[n];
      ErrorsAgree(last, ids);
      hide PreviewError, ImportError, PassesTheRest, IdsFit;
      if Importable(last, ids) {
        var k := last.key.value;
        assert SeenKeys(rows) == SeenKeys(rows[..n]) + {k};
        if k.folded in live {
          assert after == before;
        } else {
          assert after == before + {k};
          assert Folded(after) == Folded(before) + {k.folded};
        }
      } else {
        assert after == before;
      }
    }
  }

  predicate FoldsApart(keys: set<Key>) {
    forall j, k | j in keys && k in keys && j.folded == k.folded :: j == k
  }

  lemma {:induction false} FoldedSize(keys: set<Key>)
    ensures |Folded(keys)| <= |keys| && (|Folded(keys)| == |keys| <==> FoldsApart(keys))
    decreases |keys|
  {
    if keys == {} {
      assert Folded(keys) == {};
    } else {
      var k :| k in keys;
      var rest := keys - {k};
      FoldedSize(rest);
      assert Folded(keys) == Folded(rest) + {k.folded};
      if k.folded in Folded(rest) {
        var j :| j in rest && j.folded == k.folded;
        assert Folded(keys) == Folded(rest) && !FoldsApart(keys);
      } else {
        assert FoldsApart(keys) <==> FoldsApart(rest);
      }
    }
  }

  /** New never falls short of the live assets the import adds, and equals their number exactly
      when no two new keys of the batch differ only by what the collation ignores. */
  lemma NewPredictsAdded(live: set<string>, rows: seq<Row>, ids: Ids)
    requires SameIds(rows, ids)
    ensures var added := |Imported(live, rows, ids) - live|;
            var predicted := CountOf(Statuses(live, rows), RowNew);
            && added <= predicted
            && (predicted == added <==> FoldsApart(NewKeys(live, rows)))
  {
    AddedAreFolded(live, rows, ids);
    NewCountsKeys(live, rows);
    FoldedSize(NewKeys(live, rows));
    assert Imported(live, rows, ids) - live == Folded(NewKeys(live, rows));
  }

  /** Row `j` is acceptable and has the key. */
  predicate Carries(rows: seq<Row>, j: nat, key: Key) {
    j < |rows| && Previewable(rows[j]) && rows[j].key == Some(key)
  }

  lemma {:induction false} SeenMeans(rows: seq<Row>, key: Key)
    ensures key in SeenKeys(rows) <==> exists j: nat :: Carries(rows, j, key)
    decreases |rows|
  {
    hide PreviewError;
    if rows != [] {
      var n := |rows| - 1;
      SeenMeans(rows[..n], key);
      ErrorsAgree(rows[n], rows[n].ids);
      forall j: nat | j < n ensures Carries(rows, j, key) <==> Carries(rows[..n], j, key) {}
      if Carries(rows, n, key) { assert key in SeenKeys(rows); }
      if key in SeenKeys(rows) && key !in SeenKeys(rows[..n]) { assert Carries(rows, n, key); }
    }
  }

  lemma {:induction false} ImportedGrows(live: set<string>, rows: seq<Row>, ids: Ids, j: nat)
    requires j < |rows| && Importable(rows[j], ids)
    ensures ImportError(WithIds(rows[j], ids)) == None && rows[j].key.Some?
    ensures rows[j].key.value.folded in Imported(live, rows, ids) && live <= Imported(live, rows, ids)
    decreases |rows|
  {
    var n := |rows| - 1;
    ErrorsAgree(rows[j], ids);
    hide ImportError, WithIds;
    if j < n { ImportedGrows(live, rows[..n], ids, j); } else { LiveStays(live, rows[..n], ids); }
  }

  lemma {:induction false} LiveStays(live: set<string>, rows: seq<Row>, ids: Ids)
    ensures live <= Imported(live, rows, ids)
    decreases |rows|
  {
    hide ImportError, WithIds;
    if rows != [] { LiveStays(live, rows[..|rows|-1], ids); }
  }

  /** What the statuses of a preview say about the import of the same batch, row by row in order: an
      invalid row fails; a duplicate has the key of an earlier acceptable row and an update that of a
      live asset, so neither adds an asset; a new row has neither, and adds one unless an earlier row
      of the batch has a key that folds to the same text. */
  lemma StatusesMean(live: set<string>, rows: seq<Row>, ids: Ids, i: nat)
    requires SameIds(rows, ids) && i < |rows|
    ensures var status := Statuses(live, rows)[i];
            var before, after := Imported(live, rows[..i], ids), Imported(live, rows[..i + 1], ids);
            && (status == RowInvalid <==> Outcomes(rows, ids)[i] == RowFailed)
            && (status != RowInvalid ==>
                  && rows[i].key.Some?
                  && var key := rows[i].key.value;
                     var repeated := exists j: nat :: j < i && Carries(rows, j, key);
                     && (status == RowDuplicate <==> repeated)
                     && (status == RowUpdate <==> !repeated && key.folded in live)
                     && (status == RowNew <==> !repeated && key.folded !in live)
                     && after == before + {key.folded})
            && (status != RowNew ==> after == before)
  {
    ErrorsAgree(rows[i], ids);
    ImportedStep(live, rows, ids, i);
    hide PreviewError, ImportError, PassesTheRest, IdsFit;
    if Previewable(rows[i]) {
      var key := rows[i].key.value;
      SeenMeans(rows[..i], key);
      forall j: nat | j < i ensures Carries(rows, j, key) <==> Carries(rows[..i], j, key) {}
      if j: nat :| j < i && Carries(rows, j, key) {
        ErrorsAgree(rows[j], ids);
        ImportedGrows(live, rows[..i], ids, j);
      }
      LiveStays(live, rows[..i], ids);
    }
  }

  const PLAIN := Row(None, "", Ids(1, 1, 1), 0, 0, 0, 0)
  const UPPER := Key("web:https://a.cn/Login", "web:https://a.cn/login")
  const LOWER := Key("web:https://a.cn/login", "web:https://a.cn/login")

  /** Two web URLs that differ only in the case of their path keep different keys, since web values
      are only trimmed, but compare equal in the table: the preview announces two new assets, the
      import adds one. */
  lemma TwoSpellings()
    ensures var rows := [PLAIN.(key := Some(UPPER)), PLAIN.(key := Some(LOWER))];
            && SameIds(rows, PLAIN.ids)
            && CountOf(Statuses({}, rows), RowNew) == 2 && |Imported({}, rows, PLAIN.ids)| == 1
  {
    SpellingsDiffer();
    PlainRow(UPPER);
    PlainRow(LOWER);
    hide PreviewError, ImportError, WithinWidths, PassesTheRest;
    SameFold(PLAIN.(key := Some(UPPER)), PLAIN.(key := Some(LOWER)), PLAIN.ids);
  }

  lemma SameFold(a: Row, b: Row, ids: Ids)
    requires Previewable(a) && Previewable(b) && SameIds([a, b], ids) && a.key.Some? && b.key.Some?
    requires a.key.value != b.key.value && a.key.value.folded == b.key.value.folded
    ensures CountOf(Statuses({}, [a, b]), RowNew) == 2 && |Imported({}, [a, b], ids)| == 1
  {
    hide PreviewError, ImportError, PassesTheRest, IdsFit;
    var j, k := a.key.value, b.key.value;
    NewCountsKeys({}, [a, b]);
    AddedAreFolded({}, [a, b], ids);
    TwoKeys(a, b);
    hide CountOf, Imported, SeenKeys, Statuses;
    assert NewKeys({}, [a, b]) == {j, k} && |{j, k}| == 2;
    assert Folded({j, k}) == {j.folded};
  }

  lemma SpellingsDiffer()
    ensures UPPER != LOWER && UPPER.folded == LOWER.folded
  {
    assert UPPER.text[17] != LOWER.text[17];
  }

  lemma PlainRow(key: Key)
    ensures Previewable(PLAIN.(key := Some(key))) && IdsFit(PLAIN.ids)
  {
    WidthsMean(PLAIN.(key := Some(key)));
  }

  lemma TwoKeys(a: Row, b: Row)
    requires Previewable(a) && Previewable(b)
    ensures SeenKeys([a, b]) == {a.key.value, b.key.value}
  {
    assert [a, b][..1] == [a] && [a][..0] == [];
    assert SeenKeys([a]) == {a.key.value};
  }

  /** A row that carries an actor of 65 bytes: too long for the preview, imported by a batch whose own
      actor fits. */
  lemma OverriddenIds(key: Key)
    ensures var rows := [PLAIN.(key := Some(key), ids := Ids(1, 1, 65))];
            && PreviewError(rows[0]) == Some(TooLong) && Statuses({}, rows)[0] == RowInvalid
            && Outcomes(rows, PLAIN.ids)[0] == RowImported && key.folded in Imported({}, rows, PLAIN.ids)
  {
    var row := PLAIN.(key := Some(key), ids := Ids(1, 1, 65));
    WidthsMean(row);
    WidthsMean(WithIds(row, PLAIN.ids));
    assert [row][..0] == [];
  }
}
