/** What a TMO sync records beside payments and loans: the connection's state,
    the account, and one overview and one portfolio snapshot a day. */
module TmoRecord {
  import opened Wrappers
  import opened Text
  import opened TmoTables

  datatype Connection = Connection(
    slug: string, metadata: (string, string), status: string, lastError: Option<string>,
    lastSyncedAt: Option<string>, updatedAt: string)

  /** The account's row has one id. */
  datatype AccountRow = AccountRow(user: User, lastLoginAt: string, createdAt: string, updatedAt: string)

  datatype OverviewRow = OverviewRow(overview: Overview, createdAt: string, updatedAt: string)

  datatype OverviewKey = OverviewKey(connection: int, date: string)

  datatype SnapshotRow = SnapshotRow(overview: Overview, syncedAt: string)

  datatype Record = Record(
    connections: map<int, Connection>, account: Option<AccountRow>, overviews: map<OverviewKey, OverviewRow>,
    snapshots: map<string, SnapshotRow>)

  predicate IsTmo(r: Record, connection: int) {
    connection in r.connections && r.connections[connection].slug == "tmo"
  }

  function DetailWarning(failures: int): Option<string> {
    if failures > 0 then
      Some(Decimal(failures) + " TMO loan detail request(s) failed; portfolio summaries were synchronized.")
    else None
  }

  function ConnectionAfter(row: Connection, c: Capture): Connection {
    row.(metadata := (c.companyId, c.account), status := if c.detailFailures > 0 then "degraded" else "active",
         lastError := DetailWarning(c.detailFailures), lastSyncedAt := Some(c.capturedAt), updatedAt := c.capturedAt)
  }

  function AccountAfter(row: Option<AccountRow>, c: Capture): AccountRow {
    AccountRow(c.user, c.capturedAt, if row.Some? then row.value.createdAt else c.capturedAt, c.capturedAt)
  }

  function OverviewAfter(rows: map<OverviewKey, OverviewRow>, c: Capture): OverviewRow {
    var k := OverviewKey(c.connection, c.snapshotDate);
    OverviewRow(c.overview, if k in rows then rows[k].createdAt else c.capturedAt, c.capturedAt)
  }

  function RecordSync(r: Record, c: Capture): Record
    requires IsTmo(r, c.connection)
  {
    Record(
      r.connections[c.connection := ConnectionAfter(r.connections[c.connection], c)],
      Some(AccountAfter(r.account, c)),
      r.overviews[OverviewKey(c.connection, c.snapshotDate) := OverviewAfter(r.overviews, c)],
      r.snapshots[c.snapshotDate := SnapshotRow(c.overview, c.capturedAt)])
  }

  // ---- what is recorded ----

  /** The connection is active, without an error, exactly if every loan's detail
      came; otherwise it is degraded and says so. */
  lemma ActiveIffAllDetails(r: Record, c: Capture)
    requires IsTmo(r, c.connection) && ValidCapture(c)
    ensures var row := RecordSync(r, c).connections[c.connection];
            && row.slug == "tmo" && row.lastSyncedAt == Some(c.capturedAt)
            && (row.status == "active" <==> |c.details| == |c.loans|)
            && (row.lastError.None? <==> |c.details| == |c.loans|)
            && (row.status != "active" ==> row.status == "degraded")
    ensures forall other :: other in r.connections && other != c.connection ==>
              RecordSync(r, c).connections[other] == r.connections[other]
  {
    hide *;
    EveryDetailCounts(c);
    TmoIsThere(r, c.connection);
    ConnectionShows(r.connections[c.connection], c);
    ConnectionsAfter(r, c);
  }

  lemma TmoIsThere(r: Record, connection: int)
    requires IsTmo(r, connection)
    ensures connection in r.connections && r.connections[connection].slug == "tmo"
  {
  }

  lemma ConnectionShows(row: Connection, c: Capture)
    ensures var row' := ConnectionAfter(row, c);
            && row'.slug == row.slug && row'.lastSyncedAt == Some(c.capturedAt)
            && row'.status == (if c.detailFailures > 0 then "degraded" else "active")
            && (row'.lastError.None? <==> c.detailFailures <= 0)
    ensures "active" != "degraded"
  {
    WarnsIff(c.detailFailures);
    hide DetailWarning;
    assert "active"[0] != "degraded"[0];
  }

  lemma ConnectionsAfter(r: Record, c: Capture)
    requires IsTmo(r, c.connection)
    ensures RecordSync(r, c).connections
            == r.connections[c.connection := ConnectionAfter(r.connections[c.connection], c)]
  {
    hide ConnectionAfter, AccountAfter, OverviewAfter;
  }

  lemma EveryDetailCounts(c: Capture)
    requires ValidCapture(c)
    ensures c.detailFailures >= 0 && |c.details| + c.detailFailures == |c.loans|
  {
    hide DistinctAccounts, HasAccount, AllDated, DistinctIds, RequiredDate, Trim;
  }

  lemma WarnsIff(failures: int)
    ensures DetailWarning(failures).Some? <==> failures > 0
  {
    hide Decimal;
  }

  lemma SnapshotsAfter(r: Record, c: Capture)
    requires IsTmo(r, c.connection)
    ensures RecordSync(r, c).snapshots == r.snapshots[c.snapshotDate := SnapshotRow(c.overview, c.capturedAt)]
    ensures RecordSync(r, c).overviews
            == r.overviews[OverviewKey(c.connection, c.snapshotDate) := OverviewAfter(r.overviews, c)]
    ensures forall id :: IsTmo(r, id) ==> IsTmo(RecordSync(r, c), id)
  {
    hide DetailWarning, AccountAfter, OverviewAfter;
  }

  /** What a day shows after some syncs is the last capture of that day. */
  function AfterRecords(r: Record, captures: seq<Capture>): Record
    requires forall i :: 0 <= i < |captures| ==> IsTmo(r, captures[i].connection)
    ensures forall id :: IsTmo(r, id) ==> IsTmo(AfterRecords(r, captures), id)
  {
    hide RecordSync, IsTmo;
    if captures == [] then r
    else
      var before := AfterRecords(r, captures[..|captures| - 1]);
      SnapshotsAfter(before, captures[|captures| - 1]);
      RecordSync(before, captures[|captures| - 1])
  }

  function LastOfDay(captures: seq<Capture>, date: string): Option<Capture> {
    if captures == [] then None
    else if captures[|captures| - 1].snapshotDate == date then Some(captures[|captures| - 1])
    else LastOfDay(captures[..|captures| - 1], date)
  }

  lemma OneMoreSnapshot(r: Record, r': Record, day: string, shown: SnapshotRow, date: string)
    requires r'.snapshots == r.snapshots[day := shown]
    ensures day == date ==> date in r'.snapshots && r'.snapshots[date] == shown
    ensures day != date ==> (date in r'.snapshots <==> date in r.snapshots)
    ensures day != date && date in r.snapshots ==> r'.snapshots[date] == r.snapshots[date]
  {
  }

  /** Over any syncs: one snapshot a day, that of the day's last capture; days
      without one keep theirs, and no snapshot ever disappears. */
  lemma {:induction false} DayShowsItsLastCapture(r: Record, captures: seq<Capture>, date: string)
    requires forall i :: 0 <= i < |captures| ==> IsTmo(r, captures[i].connection)
    ensures var r', last := AfterRecords(r, captures), LastOfDay(captures, date);
            && (last.Some? ==>
                  date in r'.snapshots && r'.snapshots[date] == SnapshotRow(last.value.overview, last.value.capturedAt))
            && (last.None? ==>
                  (date in r'.snapshots <==> date in r.snapshots)
                  && (date in r.snapshots ==> r'.snapshots[date] == r.snapshots[date]))
  {
    if captures != [] {
      DayShowsItsLastCapture(r, captures[..|captures| - 1], date);
      var before, c := AfterRecords(r, captures[..|captures| - 1]), captures[|captures| - 1];
      SnapshotsAfter(before, c);
      hide RecordSync, OverviewAfter, IsTmo;
      OneMoreSnapshot(before, RecordSync(before, c), c.snapshotDate, SnapshotRow(c.overview, c.capturedAt), date);
      assert AfterRecords(r, captures) == RecordSync(before, c);
      hide AfterRecords;
    }
  }

  /** The connection's overview of the day is the day's snapshot. */
  predicate ShowsOverview(r: Record, connection: int, date: string) {
    var k := OverviewKey(connection, date);
    && k in r.overviews && date in r.snapshots
    && r.overviews[k].overview == r.snapshots[date].overview
    && r.overviews[k].updatedAt == r.snapshots[date].syncedAt
  }

  lemma OneMoreOverview(r: Record, c: Capture, date: string)
    requires IsTmo(r, c.connection)
    ensures var r', k := RecordSync(r, c), OverviewKey(c.connection, date);
            && (c.snapshotDate == date || ShowsOverview(r, c.connection, date) ==>
                  ShowsOverview(r', c.connection, date))
            && (k in r.overviews ==> k in r'.overviews && r'.overviews[k].createdAt == r.overviews[k].createdAt)
  {
    SnapshotsAfter(r, c);
    OverviewTimes(r.overviews, c);
    var row := OverviewAfter(r.overviews, c);
    hide RecordSync, IsTmo, OverviewAfter;
    ShownAfterwards(
      r, RecordSync(r, c), c.connection, c.snapshotDate, row, SnapshotRow(c.overview, c.capturedAt), date);
  }

  lemma OverviewTimes(rows: map<OverviewKey, OverviewRow>, c: Capture)
    ensures var k, row := OverviewKey(c.connection, c.snapshotDate), OverviewAfter(rows, c);
            && row.overview == c.overview && row.updatedAt == c.capturedAt
            && (k in rows ==> row.createdAt == rows[k].createdAt)
  {
  }

  lemma ShownAfterwards(
    r: Record, r': Record, connection: int, day: string, row: OverviewRow, shown: SnapshotRow, date: string)
    requires row.overview == shown.overview && row.updatedAt == shown.syncedAt
    requires OverviewKey(connection, day) in r.overviews ==>
               row.createdAt == r.overviews[OverviewKey(connection, day)].createdAt
    requires r'.overviews == r.overviews[OverviewKey(connection, day) := row]
    requires r'.snapshots == r.snapshots[day := shown]
    ensures day == date || ShowsOverview(r, connection, date) ==> ShowsOverview(r', connection, date)
    ensures var k := OverviewKey(connection, date);
            k in r.overviews ==> k in r'.overviews && r'.overviews[k].createdAt == r.overviews[k].createdAt
  {
  }

  /** Where all captures are of one connection, its overview of a day is that
      day's snapshot, and its first time of creation stays. */
  lemma {:induction false} OverviewIsSnapshot(r: Record, captures: seq<Capture>, connection: int, date: string)
    requires forall i :: 0 <= i < |captures| ==>
               IsTmo(r, captures[i].connection) && captures[i].connection == connection
    ensures var r', k := AfterRecords(r, captures), OverviewKey(connection, date);
            && (LastOfDay(captures, date).Some? ==> ShowsOverview(r', connection, date))
            && (k in r.overviews ==> k in r'.overviews && r'.overviews[k].createdAt == r.overviews[k].createdAt)
  {
    if captures != [] {
      OverviewIsSnapshot(r, captures[..|captures| - 1], connection, date);
      OneMoreOverview(AfterRecords(r, captures[..|captures| - 1]), captures[|captures| - 1], date);
      hide RecordSync, IsTmo, ShowsOverview;
    }
  }

  lemma RecordingIsIdempotent(r: Record, c: Capture)
    requires IsTmo(r, c.connection)
    ensures IsTmo(RecordSync(r, c), c.connection)
    ensures RecordSync(RecordSync(r, c), c) == RecordSync(r, c)
  {
    SnapshotsAfter(r, c);
    hide DetailWarning;
    var row, k := r.connections[c.connection], OverviewKey(c.connection, c.snapshotDate);
    var r' := RecordSync(r, c);
    assert ConnectionAfter(ConnectionAfter(row, c), c) == ConnectionAfter(row, c);
    assert AccountAfter(Some(AccountAfter(r.account, c)), c) == AccountAfter(r.account, c);
    assert OverviewAfter(r'.overviews, c) == OverviewAfter(r.overviews, c);
    hide RecordSync, ConnectionAfter, AccountAfter, OverviewAfter;
    SameAgain(r.connections, c.connection, ConnectionAfter(row, c));
    SameAgain(r.overviews, k, OverviewAfter(r.overviews, c));
    SameAgain(r.snapshots, c.snapshotDate, SnapshotRow(c.overview, c.capturedAt));
    RecordParts(r, c);
    RecordParts(r', c);
  }

  lemma SameAgain<K, V>(m: map<K, V>, k: K, v: V)
    ensures m[k := v][k := v] == m[k := v]
  {
  }

  lemma RecordParts(r: Record, c: Capture)
    requires IsTmo(r, c.connection)
    ensures RecordSync(r, c) == Record(
              r.connections[c.connection := ConnectionAfter(r.connections[c.connection], c)],
              Some(AccountAfter(r.account, c)),
              r.overviews[OverviewKey(c.connection, c.snapshotDate) := OverviewAfter(r.overviews, c)],
              r.snapshots[c.snapshotDate := SnapshotRow(c.overview, c.capturedAt)])
  {
    hide ConnectionAfter, AccountAfter, OverviewAfter;
  }

  /** What each row shows of the capture. */
  lemma RecordShows(r: Record, c: Capture)
    requires IsTmo(r, c.connection)
    ensures var r' := RecordSync(r, c);
            && r'.connections[c.connection].metadata == (c.companyId, c.account)
            && r'.connections[c.connection].updatedAt == c.capturedAt
            && r'.account.Some? && r'.account.value.user == c.user && r'.account.value.lastLoginAt == c.capturedAt
            && r'.account.value.updatedAt == c.capturedAt
            && r'.account.value.createdAt == (if r.account.Some? then r.account.value.createdAt else c.capturedAt)
            && r'.overviews[OverviewKey(c.connection, c.snapshotDate)].overview == c.overview
    ensures c.detailFailures > 0 ==>
              RecordSync(r, c).connections[c.connection].lastError
              == Some(Decimal(c.detailFailures)
                      + " TMO loan detail request(s) failed; portfolio summaries were synchronized.")
  {
    RecordParts(r, c);
    hide Decimal, RecordSync;
  }
}
