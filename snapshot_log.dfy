/**
 * The rank snapshot ledger: a worksheet used as an upsert table keyed by
 * a hash of (date, time slot, keyword, place URL), the history query
 * over it, and the row the execution log gets after each crawl.
 *
 * A record is the dict the crawler hands over, as a map from field name
 * to text; a missing field and an empty one both read as "".
 */
module SnapshotLog {
  import opened Common
  import opened Sorting
  import Recovery

  type Record = map<string, string>

  /** `data.get(k, "") or ""`. */
  function Get(r: Record, k: string): string {
    if k in r then r[k] else ""
  }

  /** A field is given when it is present and not empty (`data.get(k)` is truthy). */
  predicate Present(r: Record, k: string) {
    Get(r, k) != ""
  }

  const SnapshotHeaders: seq<string> := [
    "unique_key", "date", "time_slot", "agency", "client_name", "group", "keyword", "place_url",
    "place_id", "rank", "saves", "blog_reviews", "visitor_reviews", "n2_score", "collected_at", "source"]

  const LogHeaders: seq<string> := [
    "executed_at", "time_slot", "success_count", "failed_count", "elapsed_seconds", "message", "failed_details"]

  // ---------------------------------------------------------------------
  // The upsert key
  // ---------------------------------------------------------------------

  /** The text `generate_unique_key` hashes. */
  function KeyText(date: string, timeSlot: string, keyword: string, placeUrl: string): string {
    date + "|" + timeSlot + "|" + keyword + "|" + placeUrl
  }

  /** `generate_unique_key`; the digest (sha1 as hex) is the parameter `hash`. */
  function UniqueKey(hash: string -> string, date: string, timeSlot: string, keyword: string, placeUrl: string): string {
    hash(KeyText(date, timeSlot, keyword, placeUrl))
  }

  /**
   * The hashed text determines the four fields when none of them holds
   * a "|": splitting it at "|" gives them back, so two records with the
   * same key text agree on date, time slot, keyword and place URL.
   */
  lemma KeyTextFields(date: string, timeSlot: string, keyword: string, placeUrl: string)
    requires '|' !in date && '|' !in timeSlot && '|' !in keyword && '|' !in placeUrl
    ensures Split(KeyText(date, timeSlot, keyword, placeUrl), '|') == [date, timeSlot, keyword, placeUrl]
  {
    var parts := [date, timeSlot, keyword, placeUrl];
    assert Join(parts[3..], "|") == placeUrl;
    assert Join(parts[2..], "|") == keyword + "|" + placeUrl;
    assert Join(parts[1..], "|") == timeSlot + "|" + keyword + "|" + placeUrl;
    assert Join(parts, "|") == KeyText(date, timeSlot, keyword, placeUrl);
    SplitJoin(parts, '|');
  }

  // ---------------------------------------------------------------------
  // The key -> row map
  // ---------------------------------------------------------------------

  /** `headers.index("unique_key")`, the first column when the header is absent. */
  function KeyColumn(headers: seq<string>): nat {
    match Find(headers, "unique_key")
    case Some(i) => i
    case None => 0
  }

  /** The key cell of a row, "" when the row is too short. */
  function KeyAt(row: seq<string>, col: nat): string {
    if |row| > col then row[col] else ""
  }

  /**
   * The map `_build_key_row_map` fills from the data rows, numbered from
   * 2 as sheet rows are: a blank key is skipped, a repeated key keeps its
   * last row.
   */
  function KeyRows(rows: seq<seq<string>>, col: nat): map<string, nat> {
    if |rows| == 0 then map[]
    else
      var n := |rows| - 1;
      var m := KeyRows(rows[..n], col);
      var k := KeyAt(rows[n], col);
      if k != "" then m[k := n + 2] else m
  }

  /** Every key of the map is a non-blank key of the data row it points at. */
  lemma {:induction false} KeyRowsPoint(rows: seq<seq<string>>, col: nat)
    ensures forall k :: k in KeyRows(rows, col) ==>
      k != "" && 2 <= KeyRows(rows, col)[k] < |rows| + 2 && KeyAt(rows[KeyRows(rows, col)[k] - 2], col) == k
  {
    if |rows| > 0 {
      var n := |rows| - 1;
      KeyRowsPoint(rows[..n], col);
      var mi := KeyRows(rows[..n], col);
      forall k | k in KeyRows(rows, col)
        ensures k != "" && 2 <= KeyRows(rows, col)[k] < |rows| + 2 && KeyAt(rows[KeyRows(rows, col)[k] - 2], col) == k
      {
        if k != KeyAt(rows[n], col) {
          assert rows[..n][mi[k] - 2] == rows[mi[k] - 2];
        }
      }
    }
  }

  /** A key is in the map exactly when some data row holds it. */
  lemma {:induction false} KeyRowsSpec(rows: seq<seq<string>>, col: nat)
    ensures forall k :: k in KeyRows(rows, col) <==> k != "" && exists i :: 0 <= i < |rows| && KeyAt(rows[i], col) == k
  {
    if |rows| > 0 {
      var n := |rows| - 1;
      KeyRowsSpec(rows[..n], col);
      forall k
        ensures k in KeyRows(rows, col) <==> k != "" && exists i :: 0 <= i < |rows| && KeyAt(rows[i], col) == k
      {
        if exists i :: 0 <= i < |rows| && KeyAt(rows[i], col) == k {
          var i :| 0 <= i < |rows| && KeyAt(rows[i], col) == k;
          if i < n {
            assert KeyAt(rows[..n][i], col) == k;
          }
        }
        if k in KeyRows(rows[..n], col) {
          var i :| 0 <= i < n && KeyAt(rows[..n][i], col) == k;
          assert KeyAt(rows[i], col) == k;
        }
      }
    }
  }

  /** A repeated key points at the last row that holds it: no row holding the key comes after it. */
  lemma {:induction false} KeyRowsLast(rows: seq<seq<string>>, col: nat)
    ensures forall i :: 0 <= i < |rows| && KeyAt(rows[i], col) != "" ==>
      KeyAt(rows[i], col) in KeyRows(rows, col) && KeyRows(rows, col)[KeyAt(rows[i], col)] >= i + 2
  {
    if |rows| > 0 {
      var n := |rows| - 1;
      KeyRowsLast(rows[..n], col);
      forall i | 0 <= i < |rows| && KeyAt(rows[i], col) != ""
        ensures KeyAt(rows[i], col) in KeyRows(rows, col) && KeyRows(rows, col)[KeyAt(rows[i], col)] >= i + 2
      {
        if i < n && KeyAt(rows[i], col) != KeyAt(rows[n], col) {
          assert rows[..n][i] == rows[i];
        }
      }
    }
  }

  /** The imperative `_build_key_row_map`: the header row and the map from the data rows. */
  method BuildKeyRowMap(values: seq<seq<string>>) returns (keyToRow: map<string, nat>, headers: seq<string>)
    ensures |values| == 0 ==> keyToRow == map[] && headers == []
    ensures |values| > 0 ==> headers == values[0] && keyToRow == KeyRows(values[1..], KeyColumn(values[0]))
  {
    if |values| == 0 {
      return map[], [];
    }
    headers := values[0];
    var col := KeyColumn(headers);
    var rows := values[1..];
    keyToRow := map[];
    for i := 0 to |rows|
      invariant keyToRow == KeyRows(rows[..i], col)
    {
      assert rows[..i + 1][..i] == rows[..i];
      var row := rows[i];
      if |row| > col {
        var k := row[col];
        if k != "" {
          keyToRow := keyToRow[k := i + 2];
        }
      }
    }
    assert rows[..|rows|] == rows;
  }

  // ---------------------------------------------------------------------
  // upsert_bulk
  // ---------------------------------------------------------------------

  /** The four fields without which a record is counted as failed. */
  predicate HasRequired(r: Record) {
    Present(r, "date") && Present(r, "time_slot") && Present(r, "keyword") && Present(r, "place_url")
  }

  function KeyOf(hash: string -> string, r: Record): string {
    UniqueKey(hash, Get(r, "date"), Get(r, "time_slot"), Get(r, "keyword"), Get(r, "place_url"))
  }

  /**
   * The fields `upsert_bulk` sets on a record in place before writing
   * it: the key always; the place id from the URL, the batch time and
   * the source "adlog_crawl" only where the record has none.
   */
  function Fill(r: Record, collectedAt: string, hash: string -> string): Record {
    var f1 := r["unique_key" := KeyOf(hash, r)];
    var f2 :=
      if !Present(f1, "place_id") && Present(f1, "place_url") then
        match SlashDigits(Get(f1, "place_url"), 5)
        case Some(id) => f1["place_id" := id]
        case None => f1
      else f1;
    var f3 := if !Present(f2, "collected_at") then f2["collected_at" := collectedAt] else f2;
    if !Present(f3, "source") then f3["source" := "adlog_crawl"] else f3
  }

  /**
   * Filling sets the key, and only fills what is missing: a field the
   * record gives keeps its value, and no field other than the key, the
   * place id, the batch time and the source changes.
   */
  lemma FillSpec(r: Record, collectedAt: string, hash: string -> string)
    ensures var f := Fill(r, collectedAt, hash);
      && Get(f, "unique_key") == KeyOf(hash, r)
      && (forall k :: k != "unique_key" && Present(r, k) ==> Get(f, k) == Get(r, k))
      && (!Present(r, "place_id") ==> Get(f, "place_id") == match SlashDigits(Get(r, "place_url"), 5) case Some(id) => id case None => "")
      && (!Present(r, "collected_at") ==> Get(f, "collected_at") == collectedAt)
      && (!Present(r, "source") ==> Get(f, "source") == "adlog_crawl")
      && (forall k :: k != "unique_key" && k != "place_id" && k != "collected_at" && k != "source" ==> Get(f, k) == Get(r, k))
  {
  }

  /** `[str(data.get(h, "") or "") for h in headers]`. */
  function RowData(f: Record, headers: seq<string>): seq<string> {
    seq(|headers|, j requires 0 <= j < |headers| => Get(f, headers[j]))
  }

  datatype Counts = Counts(success: nat, failed: nat, updated: nat, added: nat)

  /**
   * A record as the loop of `upsert_bulk` sees it: missing a required
   * field, or ready with its key, its filled form and the row to write.
   */
  datatype Entry = Incomplete(r: Record) | Ready(key: string, f: Record, row: seq<string>)

  function Prepare(headers: seq<string>, collectedAt: string, hash: string -> string): Record -> Entry {
    r =>
      if !HasRequired(r) then Incomplete(r)
      else
        var f := Fill(r, collectedAt, hash);
        Ready(KeyOf(hash, r), f, RowData(f, headers))
  }

  /**
   * What the record loop of `upsert_bulk` has gathered: the counters, the
   * overwrites (sheet row number and row), the rows to append, and the
   * records as they stand after the in-place filling.
   */
  datatype Plan = Plan(counts: Counts, updates: seq<(nat, seq<string>)>, newRows: seq<seq<string>>, filled: seq<Record>)

  function PlanStep(p: Plan, e: Entry, keyToRow: map<string, nat>): Plan {
    match e
    case Incomplete(r) =>
      p.(counts := p.counts.(failed := p.counts.failed + 1), filled := p.filled + [r])
    case Ready(k, f, row) =>
      var c := p.counts.(success := p.counts.success + 1);
      if k in keyToRow then
        Plan(c.(updated := c.updated + 1), p.updates + [(keyToRow[k], row)], p.newRows, p.filled + [f])
      else
        Plan(c.(added := c.added + 1), p.updates, p.newRows + [row], p.filled + [f])
  }

  /** The record loop over `records`, classifying against the keys present before the call. */
  function PlanOf(records: seq<Record>, keyToRow: map<string, nat>, prep: Record -> Entry): Plan {
    if |records| == 0 then Plan(Counts(0, 0, 0, 0), [], [], [])
    else PlanStep(PlanOf(records[..|records| - 1], keyToRow, prep), prep(records[|records| - 1]), keyToRow)
  }

  /**
   * Every record is counted once, as failed or as a success, and every
   * success once as updated or added; the overwrites and the appended
   * rows match those counts, and no record is failed exactly when every
   * record is ready.
   */
  lemma {:induction false} PlanCounts(records: seq<Record>, keyToRow: map<string, nat>, prep: Record -> Entry)
    ensures var p := PlanOf(records, keyToRow, prep);
      && p.counts.success == p.counts.updated + p.counts.added
      && p.counts.success + p.counts.failed == |records|
      && |p.updates| == p.counts.updated && |p.newRows| == p.counts.added && |p.filled| == |records|
      && (p.counts.failed == 0 <==> forall i :: 0 <= i < |records| ==> prep(records[i]).Ready?)
  {
    if |records| > 0 {
      var n := |records| - 1;
      PlanCounts(records[..n], keyToRow, prep);
      if forall i :: 0 <= i < |records| ==> prep(records[i]).Ready? {
        assert forall i :: 0 <= i < n ==> prep(records[..n][i]).Ready?;
      } else if prep(records[n]).Ready? {
        var i :| 0 <= i < |records| && !prep(records[i]).Ready?;
        assert !prep(records[..n][i]).Ready?;
      }
    }
  }

  /** A record is ready exactly when it has the four required fields. */
  lemma PrepareReady(headers: seq<string>, collectedAt: string, hash: string -> string, r: Record)
    ensures Prepare(headers, collectedAt, hash)(r).Ready? <==> HasRequired(r)
  {
  }

  /** The batch range `A{n}:{end}{n}` replaces the row's first cells and leaves any after them. */
  function Overwrite(prev: seq<string>, row: seq<string>): seq<string> {
    if |prev| > |row| then row + prev[|row|..] else row
  }

  /** The `batch_update` calls, in order; a sheet row number `n` is index `n - 1`. */
  function ApplyUpdates(values: seq<seq<string>>, updates: seq<(nat, seq<string>)>): (r: seq<seq<string>>)
    ensures |r| == |values|
  {
    if |updates| == 0 then values
    else
      var v := ApplyUpdates(values, updates[..|updates| - 1]);
      var n := updates[|updates| - 1].0;
      if 1 <= n - 1 < |v| then v[n - 1 := Overwrite(v[n - 1], updates[|updates| - 1].1)] else v
  }

  /** A header row is missing when the sheet is empty or its first row is. */
  predicate NoHeaders(values: seq<seq<string>>) {
    |values| == 0 || values[0] == []
  }

  function HeadersOf(values: seq<seq<string>>): seq<string> {
    if NoHeaders(values) then SnapshotHeaders else values[0]
  }

  /** The sheet after the header row is appended to a sheet without one. */
  function Base(values: seq<seq<string>>): seq<seq<string>> {
    if NoHeaders(values) then values + [SnapshotHeaders] else values
  }

  function KeyMapOf(values: seq<seq<string>>): map<string, nat> {
    if NoHeaders(values) then map[] else KeyRows(values[1..], KeyColumn(values[0]))
  }

  /** Row 1 starts with the "unique_key" header. */
  predicate KeyHeaded(values: seq<seq<string>>) {
    |values| > 0 && |values[0]| > 0 && values[0][0] == "unique_key"
  }

  /**
   * The sheet as `get_or_create_worksheet` leaves it: SNAPSHOT_HEADERS is
   * inserted as row 1, pushing every row down, unless row 1 already starts
   * with "unique_key". A missing tab is created holding only the headers,
   * which is the same sheet as the repair of an empty one.
   */
  function Repaired(values: seq<seq<string>>): (r: seq<seq<string>>)
    ensures KeyHeaded(r) && !NoHeaders(r)
    ensures |values| <= |r| <= |values| + 1 && r[|r| - |values|..] == values
    ensures |r| == |values| <==> KeyHeaded(values)
    ensures !KeyHeaded(values) ==> r[0] == SnapshotHeaders
  {
    if KeyHeaded(values) then values else [SnapshotHeaders] + values
  }

  /** A repaired sheet is left alone by a second repair. */
  lemma RepairedStable(values: seq<seq<string>>)
    ensures Repaired(Repaired(values)) == Repaired(values)
  {
  }

  datatype Upserted = Upserted(counts: Counts, filled: seq<Record>, sheet: seq<seq<string>>)

  /** `upsert_bulk` on the sheet after `get_or_create_worksheet` has repaired its header row. */
  function UpsertOn(w: seq<seq<string>>, records: seq<Record>, collectedAt: string, hash: string -> string): Upserted {
    var p := PlanOf(records, KeyMapOf(w), Prepare(HeadersOf(w), collectedAt, hash));
    Upserted(p.counts, p.filled, ApplyUpdates(Base(w), p.updates) + p.newRows)
  }

  /**
   * `upsert_bulk` on a sheet: the counters, the records after filling, and
   * the new sheet. An empty batch returns before the worksheet is opened,
   * so only a non-empty one repairs the header row.
   */
  function Upsert(values: seq<seq<string>>, records: seq<Record>, collectedAt: string, hash: string -> string): Upserted {
    if records == [] then Upserted(Counts(0, 0, 0, 0), [], values)
    else UpsertOn(Repaired(values), records, collectedAt, hash)
  }

  /** Some overwrite targets sheet row `n`. */
  predicate Targeted(updates: seq<(nat, seq<string>)>, n: int) {
    exists j :: 0 <= j < |updates| && updates[j].0 == n
  }

  lemma {:induction false} ApplyUpdatesElsewhere(values: seq<seq<string>>, updates: seq<(nat, seq<string>)>)
    ensures forall i :: 0 <= i < |values| && !Targeted(updates, i + 1) ==> ApplyUpdates(values, updates)[i] == values[i]
  {
    if |updates| > 0 {
      var init := updates[..|updates| - 1];
      ApplyUpdatesElsewhere(values, init);
      forall i | 0 <= i < |values| && !Targeted(updates, i + 1)
        ensures ApplyUpdates(values, updates)[i] == values[i]
      {
        assert !Targeted(init, i + 1);
        assert updates[|updates| - 1].0 != i + 1;
      }
    }
  }

  /**
   * `upsert_bulk([])` reports zero counts and leaves the sheet alone.
   * Otherwise, on the sheet `w` whose header row has been repaired,
   * `success == updated + added`, `success + failed` is the number of
   * records, and nothing failed exactly when every record has the four
   * required fields; the sheet grows by exactly the added rows, which come
   * last; and every row of `w` no overwrite targets is as before. The
   * original rows are the last rows of `w`, one further down when a header
   * row was inserted.
   */
  lemma UpsertSpec(values: seq<seq<string>>, records: seq<Record>, collectedAt: string, hash: string -> string)
    ensures records == [] ==> Upsert(values, records, collectedAt, hash) == Upserted(Counts(0, 0, 0, 0), [], values)
    ensures records != [] ==>
      var u := Upsert(values, records, collectedAt, hash);
      var w := Repaired(values);
      var p := PlanOf(records, KeyMapOf(w), Prepare(HeadersOf(w), collectedAt, hash));
      && u.counts.success == u.counts.updated + u.counts.added
      && u.counts.success + u.counts.failed == |records|
      && (u.counts.failed == 0 <==> forall i :: 0 <= i < |records| ==> HasRequired(records[i]))
      && |u.sheet| == |w| + u.counts.added
      && u.sheet[|w|..] == p.newRows
      && (forall i :: 0 <= i < |w| && !Targeted(p.updates, i + 1) ==> u.sheet[i] == w[i])
      && (KeyHeaded(values) ==> w == values)
      && (!KeyHeaded(values) ==> w == [SnapshotHeaders] + values)
  {
    if records != [] {
      var w := Repaired(values);
      assert Base(w) == w;
      var prep := Prepare(HeadersOf(w), collectedAt, hash);
      var p := PlanOf(records, KeyMapOf(w), prep);
      PlanCounts(records, KeyMapOf(w), prep);
      forall i | 0 <= i < |records|
        ensures prep(records[i]).Ready? <==> HasRequired(records[i])
      {
        PrepareReady(HeadersOf(w), collectedAt, hash, records[i]);
      }
      ApplyUpdatesElsewhere(w, p.updates);
      var applied := ApplyUpdates(w, p.updates);
      assert (applied + p.newRows)[|w|..] == p.newRows;
      forall i | 0 <= i < |w| && !Targeted(p.updates, i + 1)
        ensures Upsert(values, records, collectedAt, hash).sheet[i] == w[i]
      {
        assert (applied + p.newRows)[i] == applied[i];
      }
    }
  }

  /** Every overwrite carries, in its key column, a key the map sends to the row it targets. */
  predicate KeyedUpdates(updates: seq<(nat, seq<string>)>, m: map<string, nat>, col: nat) {
    forall j :: 0 <= j < |updates| ==> KeyAt(updates[j].1, col) in m && m[KeyAt(updates[j].1, col)] == updates[j].0
  }

  /** Every key of the map is in the key column of the row it points at. */
  predicate KeysInPlace(values: seq<seq<string>>, m: map<string, nat>, col: nat) {
    forall k :: k in m ==> 1 <= m[k] - 1 < |values| && KeyAt(values[m[k] - 1], col) == k
  }

  /** Every ready entry's row holds its key in column `col`. */
  ghost predicate RowsKeyed(prep: Record -> Entry, col: nat) {
    forall r :: prep(r).Ready? ==> KeyAt(prep(r).row, col) == prep(r).key
  }

  /** The written row of a filled record holds its key under the "unique_key" header. */
  lemma PrepareKeyed(headers: seq<string>, collectedAt: string, hash: string -> string)
    requires "unique_key" in headers
    ensures RowsKeyed(Prepare(headers, collectedAt, hash), KeyColumn(headers))
  {
    var prep := Prepare(headers, collectedAt, hash);
    forall r | prep(r).Ready?
      ensures KeyAt(prep(r).row, KeyColumn(headers)) == prep(r).key
    {
      FillSpec(r, collectedAt, hash);
    }
  }

  /**
   * When each ready row holds its key, every overwrite is keyed, and
   * every ready record whose key was not present is appended with it.
   */
  lemma {:induction false} PlanKeys(records: seq<Record>, keyToRow: map<string, nat>, prep: Record -> Entry, col: nat)
    requires RowsKeyed(prep, col)
    ensures var p := PlanOf(records, keyToRow, prep);
      && KeyedUpdates(p.updates, keyToRow, col)
      && forall i :: 0 <= i < |records| && prep(records[i]).Ready? && prep(records[i]).key !in keyToRow ==>
           exists j :: 0 <= j < |p.newRows| && KeyAt(p.newRows[j], col) == prep(records[i]).key
  {
    if |records| > 0 {
      var n := |records| - 1;
      var q := PlanOf(records[..n], keyToRow, prep);
      var p := PlanOf(records, keyToRow, prep);
      PlanKeys(records[..n], keyToRow, prep, col);
      assert forall j :: 0 <= j < |q.updates| ==> p.updates[j] == q.updates[j];
      assert forall j :: 0 <= j < |q.newRows| ==> p.newRows[j] == q.newRows[j];
      forall i | 0 <= i < |records| && prep(records[i]).Ready? && prep(records[i]).key !in keyToRow
        ensures exists j :: 0 <= j < |p.newRows| && KeyAt(p.newRows[j], col) == prep(records[i]).key
      {
        if i < n {
          assert records[..n][i] == records[i];
          var j :| 0 <= j < |q.newRows| && KeyAt(q.newRows[j], col) == prep(records[i]).key;
          assert p.newRows[j] == q.newRows[j];
        } else {
          assert KeyAt(p.newRows[|q.newRows|], col) == prep(records[i]).key;
        }
      }
    }
  }

  /** Keyed overwrites keep every key of the map in the row it points at. */
  lemma {:induction false} ApplyKeyed(values: seq<seq<string>>, updates: seq<(nat, seq<string>)>, m: map<string, nat>, col: nat)
    requires KeysInPlace(values, m, col)
    requires KeyedUpdates(updates, m, col)
    ensures KeysInPlace(ApplyUpdates(values, updates), m, col)
  {
    if |updates| > 0 {
      var init := updates[..|updates| - 1];
      assert KeyedUpdates(init, m, col) by {
        forall j | 0 <= j < |init|
          ensures KeyAt(init[j].1, col) in m && m[KeyAt(init[j].1, col)] == init[j].0
        {
          assert init[j] == updates[j];
        }
      }
      ApplyKeyed(values, init, m, col);
      var v := ApplyUpdates(values, init);
      var (n, row) := updates[|updates| - 1];
      var k0 := KeyAt(row, col);
      assert k0 in m && m[k0] == n;
      var w := v[n - 1 := Overwrite(v[n - 1], row)];
      assert KeyAt(Overwrite(v[n - 1], row), col) == k0;
      forall k | k in m
        ensures 1 <= m[k] - 1 < |w| && KeyAt(w[m[k] - 1], col) == k
      {
        if m[k] == n {
          assert KeyAt(v[n - 1], col) == k && KeyAt(v[n - 1], col) == k0;
        }
      }
    }
  }

  /** The keys a data row of the sheet holds are all in its key map. */
  lemma KeyInMap(sheet: seq<seq<string>>, i: nat, k: string)
    requires 1 <= i < |sheet| && k != "" && KeyAt(sheet[i], KeyColumn(sheet[0])) == k
    ensures k in KeyMapOf(sheet) || NoHeaders(sheet)
  {
    if !NoHeaders(sheet) {
      KeyRowsSpec(sheet[1..], KeyColumn(sheet[0]));
      assert KeyAt(sheet[1..][i - 1], KeyColumn(sheet[0])) == k;
    }
  }

  /** Keys of the map of a sheet with headers point below the header row, at rows that hold them. */
  lemma KeyRowsBelow(values: seq<seq<string>>)
    ensures KeysInPlace(Base(values), KeyMapOf(values), KeyColumn(HeadersOf(values)))
    ensures forall k :: k in KeyMapOf(values) ==> KeyMapOf(values)[k] != 1 && k != ""
  {
    if !NoHeaders(values) {
      var m := KeyMapOf(values);
      KeyRowsPoint(values[1..], KeyColumn(values[0]));
      forall k | k in m
        ensures 1 <= m[k] - 1 < |values| && KeyAt(values[m[k] - 1], KeyColumn(values[0])) == k
      {
        assert values[1..][m[k] - 2] == values[m[k] - 1];
      }
    }
  }

  /** When every record is ready and its key already present, every record is an overwrite. */
  lemma {:induction false} AllUpdated(records: seq<Record>, keyToRow: map<string, nat>, prep: Record -> Entry)
    requires forall i :: 0 <= i < |records| ==> prep(records[i]).Ready? && prep(records[i]).key in keyToRow
    ensures var p := PlanOf(records, keyToRow, prep);
      p.counts.updated == |records| && p.counts.added == 0 && p.newRows == []
  {
    if |records| > 0 {
      var n := |records| - 1;
      assert forall i :: 0 <= i < n ==> records[..n][i] == records[i];
      AllUpdated(records[..n], keyToRow, prep);
    }
  }

  /**
   * Keyed overwrites of a sheet whose key map points below the header row,
   * followed by appended rows, leave the header row alone and leave every
   * key of the map, and every key an appended row holds, in the new
   * sheet's key map.
   */
  lemma KeysKept(base: seq<seq<string>>, updates: seq<(nat, seq<string>)>, newRows: seq<seq<string>>, m: map<string, nat>)
    requires |base| > 0 && !NoHeaders(base)
    requires KeysInPlace(base, m, KeyColumn(base[0])) && KeyedUpdates(updates, m, KeyColumn(base[0]))
    requires forall k :: k in m ==> m[k] != 1 && k != ""
    ensures var sheet := ApplyUpdates(base, updates) + newRows;
      && sheet[0] == base[0]
      && (forall k :: k in m ==> k in KeyMapOf(sheet))
      && forall j :: 0 <= j < |newRows| && KeyAt(newRows[j], KeyColumn(base[0])) != "" ==> KeyAt(newRows[j], KeyColumn(base[0])) in KeyMapOf(sheet)
  {
    var col := KeyColumn(base[0]);
    var applied := ApplyUpdates(base, updates);
    var sheet := applied + newRows;
    ApplyUpdatesElsewhere(base, updates);
    assert !Targeted(updates, 1);
    assert sheet[0] == applied[0] == base[0];
    ApplyKeyed(base, updates, m, col);
    forall k | k in m
      ensures k in KeyMapOf(sheet)
    {
      assert sheet[m[k] - 1] == applied[m[k] - 1];
      KeyInMap(sheet, m[k] - 1, k);
    }
    forall j | 0 <= j < |newRows| && KeyAt(newRows[j], col) != ""
      ensures KeyAt(newRows[j], col) in KeyMapOf(sheet)
    {
      assert sheet[|base| + j] == newRows[j];
      KeyInMap(sheet, |base| + j, KeyAt(newRows[j], col));
    }
  }

  /**
   * After an upsert the sheet keeps the header row of the repaired sheet,
   * which starts with "unique_key" (so no later call inserts another), and
   * every complete record's key is in its key map.
   */
  lemma KeysAfterUpsert(values: seq<seq<string>>, records: seq<Record>, collectedAt: string, hash: string -> string)
    requires records != []
    requires forall t :: hash(t) != ""
    ensures var sheet := Upsert(values, records, collectedAt, hash).sheet;
      && KeyHeaded(sheet) && HeadersOf(sheet) == HeadersOf(Repaired(values))
      && forall i :: 0 <= i < |records| && HasRequired(records[i]) ==> KeyOf(hash, records[i]) in KeyMapOf(sheet)
  {
    var w := Repaired(values);
    var base := Base(w);
    var headers := HeadersOf(w);
    var m := KeyMapOf(w);
    var col := KeyColumn(headers);
    var prep := Prepare(headers, collectedAt, hash);
    var p := PlanOf(records, m, prep);
    var sheet := ApplyUpdates(base, p.updates) + p.newRows;
    assert sheet == Upsert(values, records, collectedAt, hash).sheet;
    assert base[0] == headers;
    assert "unique_key" in headers;
    PrepareKeyed(headers, collectedAt, hash);
    PlanKeys(records, m, prep, col);
    KeyRowsBelow(w);
    KeysKept(base, p.updates, p.newRows, m);
    forall i | 0 <= i < |records| && HasRequired(records[i])
      ensures KeyOf(hash, records[i]) in KeyMapOf(sheet)
    {
      assert prep(records[i]).Ready? && prep(records[i]).key == KeyOf(hash, records[i]);
    }
  }

  /**
   * Upserting the same records again, when each has the four required
   * fields and no digest is empty, overwrites one row per record and
   * appends nothing, whatever the sheet held before the first call: every
   * key the first call wrote is found by the second, and the header row
   * the first call repaired needs no second repair.
   */
  lemma Reupsert(values: seq<seq<string>>, records: seq<Record>, collectedAt: string, collectedAt2: string, hash: string -> string)
    requires records != []
    requires forall i :: 0 <= i < |records| ==> HasRequired(records[i])
    requires forall t :: hash(t) != ""
    ensures var u1 := Upsert(values, records, collectedAt, hash);
      var u2 := Upsert(u1.sheet, records, collectedAt2, hash);
      && u2.counts.updated == |records| && u2.counts.added == 0 && u2.counts.failed == 0
      && |u2.sheet| == |u1.sheet|
  {
    var sheet := Upsert(values, records, collectedAt, hash).sheet;
    KeysAfterUpsert(values, records, collectedAt, hash);
    assert Repaired(sheet) == sheet;
    assert Base(sheet) == sheet;
    var prep := Prepare(HeadersOf(sheet), collectedAt2, hash);
    forall i | 0 <= i < |records|
      ensures prep(records[i]).Ready? && prep(records[i]).key in KeyMapOf(sheet)
    {
      assert HasRequired(records[i]);
    }
    AllUpdated(records, KeyMapOf(sheet), prep);
    PlanCounts(records, KeyMapOf(sheet), prep);
  }

  /** The worksheet `upsert_bulk` reads and writes. */
  class SnapshotSheet {
    var values: seq<seq<string>>

    constructor (values: seq<seq<string>>)
      ensures this.values == values
    {
      this.values := values;
    }

    /**
     * `get_or_create_worksheet`: unless row 1 starts with "unique_key",
     * SNAPSHOT_HEADERS is inserted as row 1.
     */
    method GetOrCreateWorksheet()
      modifies this
      ensures values == Repaired(old(values))
    {
      var firstRow := if |values| > 0 then values[0] else [];
      if firstRow == [] || firstRow[0] != "unique_key" {
        values := [SnapshotHeaders] + values;
      }
    }

    /**
     * The imperative `upsert_bulk`: open the worksheet, read the key map
     * once, classify the records, send the overwrites, then append the new
     * rows.
     */
    method UpsertBulk(records: seq<Record>, collectedAt: string, hash: string -> string) returns (result: Counts, filled: seq<Record>)
      modifies this
      ensures Upserted(result, filled, values) == Upsert(old(values), records, collectedAt, hash)
    {
      result := Counts(0, 0, 0, 0);
      filled := [];
      if records == [] {
        return;
      }
      GetOrCreateWorksheet();
      ghost var prev := values;
      // The repaired row 1 is never empty, so the `if not headers` branch,
      // which appends SNAPSHOT_HEADERS, has nothing left to do.
      var keyToRow, headers := BuildKeyRowMap(values);
      assert headers == HeadersOf(prev) && keyToRow == KeyMapOf(prev) && values == Base(prev);
      var prep := Prepare(headers, collectedAt, hash);
      var plan := ClassifyRecords(records, keyToRow, prep);
      result, filled := plan.counts, plan.filled;
      var applied := ApplyBatch(values, plan.updates);
      values := applied + plan.newRows;
    }

    /** `get_history`: open the worksheet, which may repair its header row, then query it. */
    method GetHistory(q: HistoryQuery, cutoff: string) returns (results: seq<Record>)
      modifies this
      ensures values == Repaired(old(values))
      ensures results == History(values, q, cutoff)
    {
      GetOrCreateWorksheet();
      results := ScanHistory(values, q, cutoff);
    }
  }

  /** The batched overwrites of `upsert_bulk`, sent in order; a row number outside the sheet is not written. */
  method ApplyBatch(values: seq<seq<string>>, batch: seq<(nat, seq<string>)>) returns (v: seq<seq<string>>)
    ensures v == ApplyUpdates(values, batch)
  {
    v := values;
    for j := 0 to |batch|
      invariant v == ApplyUpdates(values, batch[..j])
    {
      assert batch[..j + 1][..j] == batch[..j];
      var (n, row) := batch[j];
      if 1 <= n - 1 < |v| {
        v := v[n - 1 := Overwrite(v[n - 1], row)];
      }
    }
    assert batch[..|batch|] == batch;
  }

  /** The per-record part of the loop of `upsert_bulk`: the required check and the in-place filling. */
  method PrepareRecord(data: Record, headers: seq<string>, collectedAt: string, hash: string -> string) returns (e: Entry)
    ensures e == Prepare(headers, collectedAt, hash)(data)
  {
    if !HasRequired(data) {
      return Incomplete(data);
    }
    var key := KeyOf(hash, data);
    var f := data["unique_key" := key];
    if !Present(f, "place_id") && Present(f, "place_url") {
      match SlashDigits(Get(f, "place_url"), 5)
      case Some(id) => f := f["place_id" := id];
      case None =>
    }
    if !Present(f, "collected_at") {
      f := f["collected_at" := collectedAt];
    }
    if !Present(f, "source") {
      f := f["source" := "adlog_crawl"];
    }
    e := Ready(key, f, RowData(f, headers));
  }

  /** The record loop of `upsert_bulk`: counters, overwrites, new rows and filled records. */
  method ClassifyRecords(records: seq<Record>, keyToRow: map<string, nat>, prep: Record -> Entry)
    returns (p: Plan)
    ensures p == PlanOf(records, keyToRow, prep)
  {
    var result := Counts(0, 0, 0, 0);
    var filled: seq<Record> := [];
    var updates: seq<(nat, seq<string>)> := [];
    var newRows: seq<seq<string>> := [];
    for i := 0 to |records|
      invariant Plan(result, updates, newRows, filled) == PlanOf(records[..i], keyToRow, prep)
    {
      assert records[..i + 1][..i] == records[..i];
      match prep(records[i])
      case Incomplete(data) =>
        result := result.(failed := result.failed + 1);
        filled := filled + [data];
      case Ready(key, f, row) =>
        if key in keyToRow {
          updates := updates + [(keyToRow[key], row)];
          result := result.(updated := result.updated + 1);
        } else {
          newRows := newRows + [row];
          result := result.(added := result.added + 1);
        }
        result := result.(success := result.success + 1);
        filled := filled + [f];
    }
    assert records[..|records|] == records;
    p := Plan(result, updates, newRows, filled);
  }

  // ---------------------------------------------------------------------
  // get_history
  // ---------------------------------------------------------------------

  /** The arguments of `get_history`; "" stands for an argument not given. */
  datatype HistoryQuery = HistoryQuery(dateFrom: string, dateTo: string, clientId: string, keyword: string, days: int)

  /** `headers.index(name)`, or `default` when the header is absent. */
  function ColumnOr(headers: seq<string>, name: string, default: nat): nat {
    match Find(headers, name)
    case Some(i) => i
    case None => default
  }

  /** The client column: "client_id", else "place_id", else none (-1). */
  function ClientColumn(headers: seq<string>): int {
    match Find(headers, "client_id")
    case Some(i) => i
    case None =>
      match Find(headers, "place_id")
      case Some(i) => i
      case None => -1
  }

  /**
   * Whether `get_history` keeps a data row. `cutoff` is the date `days`
   * days before now; it applies only when `days > 0` and no `date_from`
   * is given. A row too short for the client or keyword column passes
   * that filter.
   */
  predicate Keeps(row: seq<string>, headers: seq<string>, q: HistoryQuery, cutoff: string) {
    var dateIdx := ColumnOr(headers, "date", 1);
    var clientIdx := ClientColumn(headers);
    var keywordIdx := ColumnOr(headers, "keyword", 6);
    && |row| > dateIdx
    && !(q.dateFrom != "" && StrLess(row[dateIdx], q.dateFrom))
    && !(q.dateTo != "" && StrLess(q.dateTo, row[dateIdx]))
    && !(q.dateFrom == "" && q.days > 0 && StrLess(row[dateIdx], cutoff))
    && !(q.clientId != "" && clientIdx >= 0 && |row| > clientIdx && row[clientIdx] != q.clientId)
    && !(q.keyword != "" && |row| > keywordIdx && row[keywordIdx] != q.keyword)
  }

  /** `{headers[i]: row[i]}` over the cells that have a header; a repeated header keeps its last cell. */
  function Zip(headers: seq<string>, row: seq<string>): (item: Record)
    ensures forall h :: h in item ==> h in headers
  {
    if |row| == 0 then map[]
    else
      var n := |row| - 1;
      var m := Zip(headers, row[..n]);
      if n < |headers| then m[headers[n] := row[n]] else m
  }

  function KeptItem(headers: seq<string>, q: HistoryQuery, cutoff: string): seq<string> -> Option<Record> {
    row => if Keeps(row, headers, q, cutoff) then Some(Zip(headers, row)) else None
  }

  /** The sort key `(date, time_slot)`. */
  function Stamp(item: Record): (string, string) {
    (Get(item, "date"), Get(item, "time_slot"))
  }

  /** `reverse=True` on `(date, time_slot)`: the later stamp comes first. */
  predicate LaterStamp(a: (string, string), b: (string, string)) {
    StrLess(b.0, a.0) || (a.0 == b.0 && StrLess(b.1, a.1))
  }

  lemma LaterStampStrict()
    ensures StrictOrder(LaterStamp)
  {
    forall a: (string, string)
      ensures !LaterStamp(a, a)
    {
      StrLessIrreflexive(a.0);
      StrLessIrreflexive(a.1);
    }
    forall a: (string, string), b: (string, string), c: (string, string) | LaterStamp(a, b) && LaterStamp(b, c)
      ensures LaterStamp(a, c)
    {
      if StrLess(b.0, a.0) && StrLess(c.0, b.0) {
        StrLessTransitive(c.0, b.0, a.0);
      } else if a.0 == b.0 && b.0 == c.0 {
        StrLessTransitive(c.1, b.1, a.1);
      }
    }
  }

  /** `get_history`: the kept rows as records, latest stamp first, equal stamps in sheet order. */
  function History(values: seq<seq<string>>, q: HistoryQuery, cutoff: string): seq<Record> {
    if |values| <= 1 then []
    else SortBy(Collect(values[1..], KeptItem(values[0], q, cutoff)), Stamp, LaterStamp)
  }

  /** Sorting by stamp, latest first, keeps the items, orders them and keeps the items of one stamp in order. */
  lemma SortedByStamp(items: seq<Record>)
    ensures var r := SortBy(items, Stamp, LaterStamp);
      && multiset(r) == multiset(items)
      && SortedBy(r, Stamp, LaterStamp)
      && forall s :: Select(r, Stamp, s) == Select(items, Stamp, s)
  {
    LaterStampStrict();
    SortBySorted(items, Stamp, LaterStamp);
    forall s
      ensures Select(SortBy(items, Stamp, LaterStamp), Stamp, s) == Select(items, Stamp, s)
    {
      SortByStable(items, Stamp, LaterStamp, s);
    }
  }

  /** The kept items are exactly the records of the data rows that pass every filter. */
  lemma KeptRows(values: seq<seq<string>>, q: HistoryQuery, cutoff: string)
    requires |values| > 1
    ensures forall x :: x in Collect(values[1..], KeptItem(values[0], q, cutoff)) <==>
      exists i :: 1 <= i < |values| && Keeps(values[i], values[0], q, cutoff) && x == Zip(values[0], values[i])
  {
    forall x
      ensures x in Collect(values[1..], KeptItem(values[0], q, cutoff)) <==>
        exists i :: 1 <= i < |values| && Keeps(values[i], values[0], q, cutoff) && x == Zip(values[0], values[i])
    {
      if exists i :: 1 <= i < |values| && Keeps(values[i], values[0], q, cutoff) && x == Zip(values[0], values[i]) {
        var i :| 1 <= i < |values| && Keeps(values[i], values[0], q, cutoff) && x == Zip(values[0], values[i]);
        KeptRowIn(values, q, cutoff, i);
      }
      if x in Collect(values[1..], KeptItem(values[0], q, cutoff)) {
        var i := KeptRowFrom(values, q, cutoff, x);
      }
    }
  }

  /** A data row that passes every filter has its record kept. */
  lemma KeptRowIn(values: seq<seq<string>>, q: HistoryQuery, cutoff: string, i: nat)
    requires 1 <= i < |values| && Keeps(values[i], values[0], q, cutoff)
    ensures Zip(values[0], values[i]) in Collect(values[1..], KeptItem(values[0], q, cutoff))
  {
    var f := KeptItem(values[0], q, cutoff);
    CollectSpec(values[1..], f);
    assert values[1..][i - 1] == values[i];
    assert f(values[1..][i - 1]) == Some(Zip(values[0], values[i]));
  }

  /** A kept record is that of a data row that passes every filter. */
  lemma KeptRowFrom(values: seq<seq<string>>, q: HistoryQuery, cutoff: string, x: Record) returns (i: nat)
    requires |values| > 1 && x in Collect(values[1..], KeptItem(values[0], q, cutoff))
    ensures 1 <= i < |values| && Keeps(values[i], values[0], q, cutoff) && x == Zip(values[0], values[i])
  {
    var f := KeptItem(values[0], q, cutoff);
    CollectSpec(values[1..], f);
    var k :| 0 <= k < |values| - 1 && f(values[1..][k]) == Some(x);
    i := k + 1;
    assert values[1..][k] == values[i];
    assert f(values[i]) == if Keeps(values[i], values[0], q, cutoff) then Some(Zip(values[0], values[i])) else None;
  }

  /**
   * The history holds, once each, the records of exactly the data rows
   * that pass every filter, sorted latest stamp first, with the rows of
   * one stamp in sheet order.
   */
  lemma HistorySpec(values: seq<seq<string>>, q: HistoryQuery, cutoff: string)
    requires |values| > 1
    ensures var kept := Collect(values[1..], KeptItem(values[0], q, cutoff));
      var r := History(values, q, cutoff);
      && multiset(r) == multiset(kept)
      && SortedBy(r, Stamp, LaterStamp)
      && (forall s :: Select(r, Stamp, s) == Select(kept, Stamp, s))
      && (forall x :: x in r <==> exists i :: 1 <= i < |values| && Keeps(values[i], values[0], q, cutoff) && x == Zip(values[0], values[i]))
  {
    var kept := Collect(values[1..], KeptItem(values[0], q, cutoff));
    SortedByStamp(kept);
    KeptRows(values, q, cutoff);
    var r := History(values, q, cutoff);
    forall x
      ensures x in r <==> x in kept
    {
      assert x in r <==> x in multiset(r);
      assert x in kept <==> x in multiset(kept);
    }
  }

  /** The query part of `get_history` on the values read: the filtering loop, then the sort. */
  method ScanHistory(values: seq<seq<string>>, q: HistoryQuery, cutoff: string) returns (results: seq<Record>)
    ensures results == History(values, q, cutoff)
  {
    if |values| <= 1 {
      return [];
    }
    var headers := values[0];
    var rows := values[1..];
    var found: seq<Record> := [];
    for i := 0 to |rows|
      invariant found == Collect(rows[..i], KeptItem(headers, q, cutoff))
    {
      assert rows[..i + 1][..i] == rows[..i];
      if Keeps(rows[i], headers, q, cutoff) {
        found := found + [Zip(headers, rows[i])];
      }
    }
    assert rows[..|rows|] == rows;
    results := SortBy(found, Stamp, LaterStamp);
  }

  // ---------------------------------------------------------------------
  // The time slot and the execution log row
  // ---------------------------------------------------------------------

  /** `get_current_time_slot` and the slot `log_execution` records: morning until noon. */
  function TimeSlot(hour: int): (s: string)
    ensures s == "09:00" || s == "15:00"
    ensures s == "09:00" <==> hour < 12
  {
    if hour < 12 then "09:00" else "15:00"
  }

  /** `failed_details` of a run: a list (stored as JSON, first ten only) or any other value (stored as its text). */
  datatype FailedDetails = DetailList(items: seq<string>) | DetailText(text: string)

  /** The crawl result `log_execution` receives. */
  datatype Execution = Execution(successCount: int, failedCount: int, elapsedSeconds: string, message: string, failedDetails: FailedDetails)

  function Take(xs: seq<string>, n: nat): (r: seq<string>)
    ensures |r| <= n && |r| <= |xs| && r == xs[..|r|]
  {
    if |xs| <= n then xs else xs[..n]
  }

  /** The row `log_execution` appends; `encode` is `json.dumps`. */
  function LogRow(now: string, hour: int, e: Execution, encode: seq<string> -> string): (row: seq<string>)
    ensures |row| == |LogHeaders|
  {
    [now, TimeSlot(hour), IntToString(e.successCount), IntToString(e.failedCount), e.elapsedSeconds, e.message,
     match e.failedDetails
     case DetailList(items) => encode(Take(items, 10))
     case DetailText(t) => t]
  }

  /** A negative count is written with a sign, which the failure log reads as 0. */
  lemma FailedCountOfText(i: int)
    ensures Recovery.FailedCount(IntToString(i)) == if i >= 0 then i else 0
  {
    if i >= 0 {
      NatOfNatToString(i);
    } else {
      assert !IsDigit(IntToString(i)[0]);
    }
  }

  /** The header map of a seven-column header row, written out: each later header overrides an earlier equal one. */
  lemma HeaderIndexesSeven(headers: seq<string>)
    requires |headers| == 7
    ensures Recovery.HeaderIndexes(headers)
      == map[][headers[0] := 0][headers[1] := 1][headers[2] := 2][headers[3] := 3][headers[4] := 4][headers[5] := 5][headers[6] := 6]
  {
    var h := headers;
    assert h[..1][..0] == [];
    assert Recovery.HeaderIndexes(h[..1]) == map[][h[0] := 0];
    assert h[..2][..1] == h[..1];
    assert Recovery.HeaderIndexes(h[..2]) == map[][h[0] := 0][h[1] := 1];
    assert h[..3][..2] == h[..2];
    assert Recovery.HeaderIndexes(h[..3]) == map[][h[0] := 0][h[1] := 1][h[2] := 2];
    assert h[..4][..3] == h[..3];
    assert Recovery.HeaderIndexes(h[..4]) == map[][h[0] := 0][h[1] := 1][h[2] := 2][h[3] := 3];
    assert h[..5][..4] == h[..4];
    assert Recovery.HeaderIndexes(h[..5]) == map[][h[0] := 0][h[1] := 1][h[2] := 2][h[3] := 3][h[4] := 4];
    assert h[..6][..5] == h[..5];
    assert Recovery.HeaderIndexes(h[..6]) == map[][h[0] := 0][h[1] := 1][h[2] := 2][h[3] := 3][h[4] := 4][h[5] := 5];
    assert h[..6] == h[..|h| - 1];
  }

  /** The failure log finds each column it reads at the position the log headers give it. */
  predicate LogColumnsAt(idx: map<string, nat>) {
    && Recovery.ColumnOf(idx, "executed_at", 0) == 0
    && Recovery.ColumnOf(idx, "time_slot", 1) == 1
    && Recovery.ColumnOf(idx, "failed_count", 3) == 3
    && Recovery.ColumnOf(idx, "message", 5) == 5
    && Recovery.ColumnOf(idx, "failed_details", 6) == 6
  }

  /** A header row with the log headers in their places puts the columns the failure log reads there. */
  lemma LogColumnsOf(headers: seq<string>)
    requires |headers| == 7 && headers[0] == "executed_at" && headers[1] == "time_slot" && headers[2] == "success_count"
    requires headers[3] == "failed_count" && headers[4] == "elapsed_seconds" && headers[5] == "message" && headers[6] == "failed_details"
    ensures LogColumnsAt(Recovery.HeaderIndexes(headers))
  {
    HeaderIndexesSeven(headers);
  }

  /** The log headers stand where the failure log's default columns are. */
  lemma LogColumns(headers: seq<string>)
    requires headers == LogHeaders
    ensures LogColumnsAt(Recovery.HeaderIndexes(headers))
  {
    LogColumnsOf(headers);
  }

  /**
   * The failure log reads back what `log_execution` wrote, under the log
   * headers (`LogColumns`) or none: the row is a recent failure exactly
   * when its date is not before the cutoff and its count or message says
   * so, and then the record carries the time, the slot, the count (a
   * negative one as 0) and, for a list, its first ten details.
   */
  lemma LogRowReadBack(now: string, hour: int, e: Execution, encode: seq<string> -> string,
                       idx: map<string, nat>, decode: string -> Option<seq<string>>, cutoff: string)
    requires LogColumnsAt(idx)
    requires forall xs :: encode(xs) != "" && decode(encode(xs)) == Some(xs)
    ensures var f := Recovery.FailureOf(LogRow(now, hour, e, encode), idx, cutoff, decode);
      var count := if e.failedCount >= 0 then e.failedCount else 0;
      && (f.Some? <==> !StrLess(Recovery.LogDate(now), cutoff) && Recovery.IsFailure(count, e.message))
      && (f.Some? ==> f.value.timeSlot == TimeSlot(hour) && f.value.failedCount == count && f.value.executedAt == now)
      && (f.Some? && e.failedDetails.DetailList? ==> f.value.failedDetails == Take(e.failedDetails.items, 10))
  {
    FailedCountOfText(e.failedCount);
    var row := LogRow(now, hour, e, encode);
    if e.failedDetails.DetailList? {
      var xs := Take(e.failedDetails.items, 10);
      assert row[6] == encode(xs);
      assert Recovery.Details(row[6], decode) == xs;
    }
  }
}
