/** Migration 006 on the tables of any run: what it is asked of them follows
    from how they came about. */
module RemappedRuns {
  import opened Prelude
  import opened Tables
  import opened SnapshotCompiler
  import opened SnapshotMeaning
  import opened ControlPlane
  import opened TableRules
  import opened Loading
  import opened Publication
  import opened PortRemap
  import PortLifecycle

  /** The tables the migration meets after a run. */
  function After(ranges: map<string, PortRemap.Range>, db: Database): Installation {
    Installation(ranges, db.assignments, db.configurations.rows)
  }

  /** The inventory the first migration seeded: in an environment with a default range exactly that range. */
  ghost predicate SeededExactly(ranges: map<string, PortRemap.Range>, ports: set<Slot>) {
    forall s: Slot | Remapped(ranges, s.0) :: s in ports <==> InOldWindow(s.0, s.1)
  }

  /** What the migration requires of the tables holds after every run that began on the seeded inventory, and, but for a
      custom range that begins where a default one did, nothing is in its way. */
  lemma EveryRunCanBeRemapped(
    history: seq<Database>, g: Settings, requests: seq<Request>, n: nat, ranges: map<string, PortRemap.Range>)
    requires IsRun(history, g, requests) && n < |history|
    requires SeededExactly(ranges, history[0].assignments.ports.Keys)
    ensures PortLifecycle.SchemaHolds(history[n].assignments) && Seeded(ranges, history[n].assignments.ports.Keys)
    ensures (forall e | e in ranges :: Named(e) && ranges[e].first == OldFirst(e) ==> Remapped(ranges, e))
      ==> NothingInTheWay(After(ranges, history[n]))
  {
    hide IsRun, OldFirst, Shift, Named, PortLifecycle.SchemaHolds, InOldWindow;
    PortLifecycle.AlwaysConsistent(history, g, requests, n);
    PortLifecycle.ConsistentTablesMeetTheSchema(history[n].assignments);
    NothingStandsOutside(history[n].assignments, ranges);
  }

  lemma NothingStandsOutside(a: Assignments, ranges: map<string, PortRemap.Range>)
    requires PortLifecycle.Consistent(a) && SeededExactly(ranges, a.ports.Keys)
    ensures forall l | l in a.listeners && Remapped(ranges, a.listeners[l].environment) ::
      InOldWindow(a.listeners[l].environment, a.listeners[l].port)
  {
    hide OldFirst, Shift, Remapped, InOldWindow;
    forall l | l in a.listeners && Remapped(ranges, a.listeners[l].environment)
      ensures InOldWindow(a.listeners[l].environment, a.listeners[l].port)
    {
      assert PortLifecycle.ListenerConsistent(a, l);
      var s: Slot := (a.listeners[l].environment, a.listeners[l].port);
      assert s in a.ports && Remapped(ranges, s.0);
    }
  }

  lemma SnapshotsFitTheWindow(
    history: seq<Database>, g: Settings, requests: seq<Request>, n: nat, ranges: map<string, PortRemap.Range>, id: nat)
    requires IsRun(history, g, requests) && n < |history| && id in history[n].configurations.rows
    requires SeededExactly(ranges, history[0].assignments.ports.Keys)
    requires Remapped(ranges, history[n].configurations.rows[id].environment)
    ensures forall l | l in history[n].configurations.rows[id].snapshot.listeners ::
      InOldWindow(history[n].configurations.rows[id].environment, l.port)
  {
    hide IsRun, OldFirst, Shift, Remapped, InOldWindow;
    StoredSnapshotsAreSound(history, g, requests, n, id);
    PortLifecycle.AlwaysConsistent(history, g, requests, n);
    var row := history[n].configurations.rows[id];
    forall l | l in row.snapshot.listeners ensures InOldWindow(row.environment, l.port) {
      var s: Slot := (row.environment, l.port);
      assert s in history[n].assignments.ports && Remapped(ranges, s.0);
    }
  }

  lemma DistinctWithRecords(raw: RawSnapshot, credentials: Access, environment: string, now: nat)
    requires RawRowsDistinct(raw) && AccessSound(credentials)
    ensures UniqueRows(raw, Records(credentials, environment, now))
  {
    hide AccessSound, Records;
    RecordsAreSound(credentials, environment, now);
  }

  /** Whatever run came before, every stored configuration of a moved environment loads after the migration if and only if it
      did before it, with any credentials of the run, and with the same routes on the shifted ports. */
  lemma RunsServeTheSameAfterTheMigration(
    history: seq<Database>, g: Settings, requests: seq<Request>, n: nat, ranges: map<string, PortRemap.Range>, b: Installation,
    id: nat, environment: string, m: nat, now: nat)
    requires Sane(g) && IsRun(history, g, requests) && n < |history| && m < |history|
    requires SeededExactly(ranges, history[0].assignments.ports.Keys) && IsRemapOf(After(ranges, history[n]), b)
    requires id in history[n].configurations.rows && Remapped(ranges, history[n].configurations.rows[id].environment)
    ensures id in b.rows && b.rows[id] == history[n].configurations.rows[id].(snapshot := b.rows[id].snapshot)
    ensures var records := Records(history[m].access, environment, now);
      var x := Build(id, environment, history[n].configurations.rows[id].snapshot, records, g.platform, g.allowlist);
      var y := Build(id, environment, b.rows[id].snapshot, records, g.platform, g.allowlist);
      && (x.Ok? <==> y.Ok?)
      && (x.Ok? ==> LoweredBy(x.value.listeners, y.value.listeners, Shift(history[n].configurations.rows[id].environment)))
      && (x.Ok? ==> y.value.credentials == x.value.credentials)
  {
    hide IsRun, Build, Records, IsRemapOf, OldFirst, Shift, Remapped, InOldWindow, LoweredBy, UniqueRows, RawRowsDistinct;
    hide RowsSound, AccessSound, SeededExactly;
    AlwaysRowsSound(history, g, requests, m);
    RowsIncludeAccess(history[m], g);
    StoredSnapshotsAreSound(history, g, requests, n, id);
    DistinctWithRecords(history[n].configurations.rows[id].snapshot, history[m].access, environment, now);
    SnapshotsFitTheWindow(history, g, requests, n, ranges, id);
    StoredConfigurationsServeTheSame(After(ranges, history[n]), b, id, environment, Records(history[m].access, environment, now),
      g.platform, g.allowlist);
  }
}
