/** A freshly migrated schema as a value, on which example runs begin: three
    environments, each with its bootstrap version and one free port. */
module FreshInstallation {
  import opened Prelude
  import opened Tables
  import opened ControlPlane

  const Development := "development"

  function Bootstrap(environment: string): ConfigurationRow {
    ConfigurationRow(environment, Current, EmptySnapshot(environment), None, "system-bootstrap")
  }

  function BootstrapRows(): map<nat, ConfigurationRow> {
    map[1 := Bootstrap(Development), 2 := Bootstrap("staging"), 3 := Bootstrap("production")]
  }

  function OnePortEach(): map<Slot, PortRow> {
    map[(Development, 4100) := PortRow(Available, None), ("staging", 4200) := PortRow(Available, None),
        ("production", 4300) := PortRow(Available, None)]
  }

  function Fresh(): Database {
    Database({Development, "staging", "production"}, Catalog(map[], map[], map[]), Assignments(OnePortEach(), map[]),
      Configurations(BootstrapRows(), 4, {}), Access(map[], map[], {}, map[]))
  }

  lemma FreshIsFresh()
    ensures FreshSchema(Fresh())
  {
    hide BootstrapRows;
    BootstrapsAreFresh();
  }

  /** One bootstrap version for each environment. */
  lemma BootstrapsAreFresh()
    ensures var rows := BootstrapRows();
      && (forall id | id in rows :: 1 <= id < 4 && rows[id].environment in Fresh().environments && FreshRow(rows[id]))
      && (forall e | e in Fresh().environments :: exists id :: id in rows && rows[id].environment == e)
      && (forall i, j | i in rows && j in rows && rows[i].environment == rows[j].environment :: i == j)
  {
    var rows := BootstrapRows();
    assert "development"[0] != "staging"[0] && "development"[0] != "production"[0] && "staging"[0] != "production"[0];
    forall e | e in Fresh().environments ensures exists id :: id in rows && rows[id].environment == e {
      assert 1 in rows && rows[1].environment == Development;
      assert 2 in rows && rows[2].environment == "staging";
      assert 3 in rows && rows[3].environment == "production";
    }
  }

  lemma BootstrapIsActive(db: Database)
    requires db.configurations == Fresh().configurations
    ensures ActiveId(db.configurations, Development) == Some(1)
    ensures 1 in db.configurations.rows && db.configurations.rows[1] == Bootstrap(Development)
  {
    assert 1 in CurrentIds(db.configurations, Development);
    var active := ActiveId(db.configurations, Development);
    assert active.value in CurrentIds(db.configurations, Development);
  }
}
