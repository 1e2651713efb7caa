/** Bringing a stored database up to the current schema: tables are maps from columns to values, row by row. */
module Migrations {
  import opened Options

  datatype Value = Null | Text(text: string) | Integer(number: int)

  type Row = map<string, Value>

  datatype Table = Table(columns: seq<string>, rows: seq<Row>)

  type Tables = map<string, Table>

  /** A column that a later version added, with the value it has in the rows that are there. */
  datatype Column = Column(name: string, default: Value)

  datatype Migration = Migration(table: string, columns: seq<Column>)

  const EMPTY := Text("")
  const ZERO := Integer(0)
  const NO_LIST := Text("[]")
  const NO_OBJECT := Text("{}")

  const MIGRATIONS: seq<Migration> := [
    Migration("query_runs", [
      Column("cluster_name", EMPTY), Column("trino_query_id", EMPTY), Column("next_uri", EMPTY),
      Column("catalog", EMPTY), Column("schema_name", EMPTY), Column("columns_json", NO_LIST),
      Column("data_json", NO_LIST), Column("download_data_json", NO_LIST), Column("total_row_count", ZERO),
      Column("download_row_count", ZERO), Column("truncated", ZERO), Column("download_truncated", ZERO),
      Column("result_bytes", ZERO), Column("pending_cluster_start", ZERO), Column("cache_key", EMPTY),
      Column("cache_hit", ZERO), Column("cached_from_query_id", Null), Column("result_cached_at", EMPTY)]),
    Migration("query_tabs", [Column("run_mode", Text("current"))]),
    Migration("notebook_cells", [Column("last_query_id", Null)]),
    Migration("clusters", [
      Column("instance_type", EMPTY), Column("hostname", EMPTY), Column("trino_version", EMPTY),
      Column("accelerated", ZERO), Column("uptime_schedule_json", NO_LIST)]),
    Migration("setup_settings", [
      Column("cluster_base_domain", EMPTY), Column("oidc_config_json", NO_OBJECT), Column("session_hours", Null),
      Column("notification_config_json", NO_OBJECT), Column("ask_trino_config_json", NO_OBJECT),
      Column("result_cache_ttl_minutes", Null), Column("email_config_json", NO_OBJECT)]),
    Migration("scheduled_jobs", [Column("recipients_json", NO_LIST)]),
    Migration("scheduled_job_runs", [
      Column("recipient_user_id", Null), Column("delivery_status", EMPTY), Column("delivery_error", EMPTY),
      Column("delivered_at", Null), Column("delivery_message_id", EMPTY)]),
    Migration("email_conversations", [Column("job_run_id", Null)]),
    Migration("users", [Column("is_service", ZERO)])]

  const SETTINGS := "setup_settings"
  const OLD_SETTINGS := "setup_settings_old"
  const AWS_RESOURCES := "aws_resources"
  const RESOURCES := "provider_resources"
  const CLUSTERS := "clusters"
  const QUERY_RUNS := "query_runs"

  const SETTINGS_COLUMNS := [
    "id", "provider", "region", "provider_config_json", "allowed_ui_cidrs", "provider_identity", "provider_validation",
    "allowed_instance_types", "cluster_base_domain", "completed_at"]

  /** What the printing of JSON makes of the network settings; subnets are JSON themselves. */
  datatype Network = Network(vpcId: Value, subnets: string, securityGroup: Value, instanceProfile: Value)

  /** The JSON library: reading a text back to its canonical form, where it is JSON, and printing the settings. */
  datatype Json = Json(loads: string -> Option<string>, dumps: Network -> string)

  function Field(row: Row, column: string): Value {
    if column in row then row[column] else Null
  }

  // ----- Added columns -----

  function AddColumn(table: Table, column: Column): Table {
    Table(table.columns + [column.name], seq(|table.rows|,
      i requires 0 <= i < |table.rows| => table.rows[i][column.name := column.default]))
  }

  function AddMissing(table: Table, columns: seq<Column>): Table {
    if columns == [] then table
    else
      var before := AddMissing(table, columns[..|columns| - 1]);
      if columns[|columns| - 1].name in table.columns then before else AddColumn(before, columns[|columns| - 1])
  }

  function AddAll(tables: Tables, plan: seq<Migration>): Tables {
    if plan == [] then tables
    else
      var before, last := AddAll(tables, plan[..|plan| - 1]), plan[|plan| - 1];
      if last.table in before then before[last.table := AddMissing(before[last.table], last.columns)] else before
  }

  // ----- The settings row -----

  predicate IsLegacy(tables: Tables) {
    SETTINGS in tables && "vpc_id" in tables[SETTINGS].columns
  }

  /** The row with the id 1, the first if there are several. */
  function FirstSettings(rows: seq<Row>): Option<Row> {
    if rows == [] then None
    else if Field(rows[0], "id") == Integer(1) then Some(rows[0])
    else FirstSettings(rows[1..])
  }

  /** The subnets as canonical JSON; an empty list when there is no text or it is not JSON. */
  function Subnets(value: Value, json: Json): string {
    if !value.Text? || value.text == "" then "[]"
    else match json.loads(value.text) case Some(text) => text case None => "[]"
  }

  function NetworkOf(row: Row, json: Json): Network {
    Network(Field(row, "vpc_id"), Subnets(Field(row, "private_subnet_ids"), json),
      Field(row, "cluster_security_group_id"), Field(row, "node_instance_profile"))
  }

  function NewSettings(row: Row, columns: seq<string>, json: Json): Row {
    map[
      "id" := Integer(1), "provider" := Text("aws"), "region" := Field(row, "region"),
      "provider_config_json" := Text(json.dumps(NetworkOf(row, json))),
      "allowed_ui_cidrs" := Field(row, "allowed_ui_cidrs"),
      "provider_identity" := Field(row, "aws_identity"), "provider_validation" := Field(row, "aws_validation"),
      "allowed_instance_types" := if "allowed_instance_types" in columns then Field(row,
        "allowed_instance_types") else NO_LIST,
      "cluster_base_domain" := EMPTY, "completed_at" := Field(row, "completed_at")]
  }

  function MigrateSettings(tables: Tables, json: Json): Tables {
    if !IsLegacy(tables) then tables
    else
      tables[SETTINGS := Table(SETTINGS_COLUMNS,
        match FirstSettings(tables[SETTINGS].rows)
        case None => []
        case Some(row) => [NewSettings(row, tables[SETTINGS].columns, json)])]
  }

  // ----- The resources -----

  function Tagged(row: Row): Row {
    map[
      "id" := Field(row, "id"), "cluster_id" := Field(row, "cluster_id"), "provider" := Text("aws"),
      "resource_type" := Field(row, "resource_type"), "resource_id" := Field(row, "resource_id"),
        "region" := Field(row, "region"),
      "metadata_json" := Field(row, "metadata_json"), "created_at" := Field(row, "created_at")]
  }

  /** Two rows that cannot be in the table together: by their id, or by their kind and name. */
  predicate Clash(a: Row, b: Row) {
    || Field(a, "id") == Field(b, "id")
    || (Field(a, "resource_type") == Field(b, "resource_type") && Field(a, "resource_id") == Field(b, "resource_id"))
  }

  predicate Complete(row: Row) {
    && Field(row, "id") != Null && Field(row, "resource_type") != Null && Field(row, "resource_id") != Null
    && Field(row, "region") != Null && Field(row, "metadata_json") != Null && Field(row, "created_at") != Null
  }

  predicate Accepts(rows: seq<Row>, row: Row) {
    Complete(row) && forall i :: 0 <= i < |rows| ==> !Clash(rows[i], row)
  }

  function InsertOrIgnore(rows: seq<Row>, row: Row): seq<Row> {
    if Accepts(rows, row) then rows + [row] else rows
  }

  function CopyAll(rows: seq<Row>, legacy: seq<Row>): seq<Row> {
    if legacy == [] then rows
    else InsertOrIgnore(CopyAll(rows, legacy[..|legacy| - 1]), Tagged(legacy[|legacy| - 1]))
  }

  function MigrateResources(tables: Tables): Tables {
    if AWS_RESOURCES !in tables || RESOURCES !in tables then tables
    else
      tables[RESOURCES := tables[RESOURCES].(rows := CopyAll(tables[RESOURCES].rows,
        tables[AWS_RESOURCES].rows))] - {AWS_RESOURCES}
  }

  function Migrated(tables: Tables, json: Json, plan: seq<Migration>): Tables {
    AddAll(MigrateResources(MigrateSettings(tables, json)), plan)
  }

  // ----- When it can be done -----

  const LEGACY_COLUMNS := [
    "region", "vpc_id", "private_subnet_ids", "cluster_security_group_id", "node_instance_profile",
      "allowed_ui_cidrs", "aws_identity",
    "aws_validation", "completed_at"]

  const INDEXED_COLUMNS := ["cache_key", "user_id", "updated_at"]

  const COPIED_COLUMNS := ["id", "cluster_id", "resource_type", "resource_id", "region", "metadata_json", "created_at"]

  predicate HasAll(columns: seq<string>, names: seq<string>) {
    forall i :: 0 <= i < |names| ==> names[i] in columns
  }

  /** The values that the new settings row must have. */
  predicate Carries(row: Row, columns: seq<string>) {
    && HasAll(columns, LEGACY_COLUMNS)
    && Field(row, "region") != Null && Field(row, "allowed_ui_cidrs") != Null && Field(row, "aws_identity") != Null
    && Field(row, "aws_validation") != Null && Field(row, "completed_at") != Null
    && ("allowed_instance_types" in columns ==> Field(row, "allowed_instance_types") != Null)
  }

  predicate SettingsCanMove(tables: Tables) {
    IsLegacy(tables) ==>
      OLD_SETTINGS !in tables &&
      match FirstSettings(tables[SETTINGS].rows)
      case None => true
      case Some(row) => Carries(row, tables[SETTINGS].columns)
  }

  /** The row's cluster is there, if it names one. */
  predicate Refers(tables: Tables, row: Row) {
    Field(row, "cluster_id") == Null ||
    (CLUSTERS in tables &&
     exists i :: 0 <= i < |tables[CLUSTERS].rows| && Field(tables[CLUSTERS].rows[i], "id") == Field(row, "cluster_id"))
  }

  /** The columns are there, and every row that is copied refers to a cluster there is. */
  predicate ResourcesCanMove(tables: Tables) {
    AWS_RESOURCES in tables ==>
      && RESOURCES in tables && HasAll(tables[AWS_RESOURCES].columns, COPIED_COLUMNS)
      && CopiesRefer(tables, CopyAll(tables[RESOURCES].rows, tables[AWS_RESOURCES].rows), |tables[RESOURCES].rows|)
  }

  predicate CopiesRefer(tables: Tables, rows: seq<Row>, from: nat) {
    forall i :: from <= i < |rows| ==> Refers(tables, rows[i])
  }

  predicate Planned(tables: Tables, plan: seq<Migration>) {
    forall i :: 0 <= i < |plan| ==> plan[i].table in tables
  }

  /** The columns of the result cache's index are there. */
  predicate CanIndex(tables: Tables) {
    QUERY_RUNS in tables && HasAll(tables[QUERY_RUNS].columns, INDEXED_COLUMNS)
  }

  /** No statement of the migration fails. */
  predicate CanMigrate(tables: Tables, json: Json, plan: seq<Migration>) {
    && SettingsCanMove(tables) && ResourcesCanMove(tables) && Planned(MigrateResources(tables), plan)
    && CanIndex(Migrated(tables, json, plan))
  }

  // ----- The database -----

  class Database {
    var tables: Tables

    constructor (tables: Tables)
      ensures this.tables == tables
    {
      this.tables := tables;
    }

    method AlterTableAddColumn(name: string, column: Column)
      requires name in tables
      modifies this
      ensures tables == old(tables)[name := AddColumn(old(tables)[name], column)]
    {
      tables := tables[name := AddColumn(tables[name], column)];
    }

    method MigrateSetupSettings(json: Json) returns (ok: bool)
      modifies this
      ensures ok <==> SettingsCanMove(old(tables))
      ensures ok ==> tables == MigrateSettings(old(tables), json)
    {
      if !IsLegacy(tables) { return true; }
      var columns := tables[SETTINGS].columns;
      var settings := FirstSettings(tables[SETTINGS].rows);
      if OLD_SETTINGS in tables { return false; }
      tables := tables[OLD_SETTINGS := tables[SETTINGS]] - {SETTINGS};
      tables := tables[SETTINGS := Table(SETTINGS_COLUMNS, [])];
      if settings.Some? {
        if !Carries(settings.value, columns) { return false; }
        tables := tables[SETTINGS := tables[SETTINGS].(rows := [NewSettings(settings.value, columns, json)])];
      }
      tables := tables - {OLD_SETTINGS};
      ok := true;
    }

    method MigrateAwsResources() returns (ok: bool)
      modifies this
      ensures ok <==> ResourcesCanMove(old(tables))
      ensures ok ==> tables == MigrateResources(old(tables))
    {
      if AWS_RESOURCES !in tables { return true; }
      if RESOURCES !in tables || !HasAll(tables[AWS_RESOURCES].columns, COPIED_COLUMNS) { return false; }
      var legacy, copied := tables[AWS_RESOURCES].rows, tables[RESOURCES].rows;
      for i := 0 to |legacy|
        invariant copied == CopyAll(old(tables)[RESOURCES].rows, legacy[..i])
      {
        assert legacy[..i + 1][..i] == legacy[..i];
        copied := InsertOrIgnore(copied, Tagged(legacy[i]));
      }
      assert legacy[..|legacy|] == legacy;
      if !CopiesRefer(tables, copied, |tables[RESOURCES].rows|) { return false; }
      tables := tables[RESOURCES := tables[RESOURCES].(rows := copied)];
      tables := tables - {AWS_RESOURCES};
      ok := true;
    }

    /** The columns of one table; what it has is looked up once, before any is added. */
    method AddColumns(migration: Migration)
      requires migration.table in tables
      modifies this
      ensures tables == old(tables)[migration.table := AddMissing(old(tables)[migration.table], migration.columns)]
    {
      var name, existing := migration.table, tables[migration.table].columns;
      for i := 0 to |migration.columns|
        invariant tables == old(tables)[name := AddMissing(old(tables)[name], migration.columns[..i])]
      {
        assert migration.columns[..i + 1][..i] == migration.columns[..i];
        if migration.columns[i].name !in existing {
          AlterTableAddColumn(name, migration.columns[i]);
        }
      }
      assert migration.columns[..|migration.columns|] == migration.columns;
    }

    method ApplyMigrations(json: Json, plan: seq<Migration>) returns (ok: bool)
      modifies this
      ensures ok <==> CanMigrate(old(tables), json, plan)
      ensures ok ==> tables == Migrated(old(tables), json, plan)
    {
      SettingsAndResourcesAreApart(tables, json, plan);
      hide MigrateSettings, MigrateResources, SettingsCanMove, ResourcesCanMove, AddMissing, CanIndex;
      var moved := MigrateSetupSettings(json);
      if !moved { return false; }
      moved := MigrateAwsResources();
      if !moved { return false; }
      ghost var start := tables;
      for i := 0 to |plan|
        invariant tables == AddAll(start, plan[..i]) && tables.Keys == start.Keys
        invariant forall j :: 0 <= j < i ==> plan[j].table in start
      {
        assert plan[..i + 1][..i] == plan[..i];
        if plan[i].table !in tables { return false; }
        AddColumns(plan[i]);
      }
      assert plan[..|plan|] == plan;
      ok := CanIndex(tables);
    }
  }

  /** The settings row is the first one with the id 1. */
  lemma {:induction false} SettingsRowIsFirst(rows: seq<Row>, i: nat)
    requires i < |rows| && Field(rows[i], "id") == Integer(1)
    requires forall j :: 0 <= j < i ==> Field(rows[j], "id") != Integer(1)
    ensures FirstSettings(rows) == Some(rows[i])
  {
    if i > 0 { SettingsRowIsFirst(rows[1..], i - 1); }
  }

  lemma {:induction false} NoSettingsRow(rows: seq<Row>)
    ensures FirstSettings(rows) == None <==> forall i :: 0 <= i < |rows| ==> Field(rows[i], "id") != Integer(1)
  {
    if rows != [] {
      NoSettingsRow(rows[1..]);
      assert forall i :: 1 <= i < |rows| ==> rows[i] == rows[1..][i - 1];
    }
  }

  /** A legacy settings row can be moved when the columns that are read are there and the row that is written meets the
      constraints of the new table; a left-over of an earlier attempt is in the way. */
  lemma SettingsCanMoveIff(tables: Tables)
    ensures var legacy := "setup_settings" in tables && "vpc_id" in tables["setup_settings"].columns;
      SettingsCanMove(tables) <==> !legacy || ("setup_settings_old" !in tables && NewRowIsAllowed(tables))
  {
    var legacy := "setup_settings" in tables && "vpc_id" in tables["setup_settings"].columns;
    if legacy {
      var columns := tables["setup_settings"].columns;
      forall row, json: Json
        ensures Carries(row, columns) <==> MeetsConstraints(row, columns, json)
      {
        CarriesIff(row, columns, json);
      }
      hide Carries, MeetsConstraints, FirstSettings;
      var some := Json(_ => None, _ => "");
      var allowed := forall row ::
        FirstSettings(tables[SETTINGS].rows) == Some(row) ==> MeetsConstraints(row, columns, some);
      assert SettingsCanMove(tables) <==> OLD_SETTINGS !in tables && allowed;
    }
  }

  ghost predicate NewRowIsAllowed(tables: Tables)
    requires "setup_settings" in tables
  {
    forall row, json: Json :: FirstSettings(tables["setup_settings"].rows) == Some(row) ==>
      MeetsConstraints(row, tables["setup_settings"].columns, json)
  }

  /** The columns that are read are there, and no column of the new row is null. */
  ghost predicate MeetsConstraints(row: Row, columns: seq<string>, json: Json) {
    && HasAll(columns, [
         "region", "vpc_id", "private_subnet_ids", "cluster_security_group_id", "node_instance_profile",
         "allowed_ui_cidrs", "aws_identity", "aws_validation", "completed_at"])
    && NoneIsNull(NewSettings(row, columns, json), [
         "id", "provider", "region", "provider_config_json", "allowed_ui_cidrs", "provider_identity",
         "provider_validation", "allowed_instance_types", "cluster_base_domain", "completed_at"])
  }

  lemma CarriesIff(row: Row, columns: seq<string>, json: Json)
    ensures Carries(row, columns) <==> MeetsConstraints(row, columns, json)
  {
    var names := ["id", "provider", "region", "provider_config_json", "allowed_ui_cidrs", "provider_identity",
      "provider_validation", "allowed_instance_types", "cluster_base_domain", "completed_at"];
    var now := NewSettings(row, columns, json);
    if NoneIsNull(now, names) {
      assert Field(now, names[2]) != Null && Field(now, names[4]) != Null && Field(now, names[5]) != Null;
      assert Field(now, names[6]) != Null && Field(now, names[7]) != Null && Field(now, names[9]) != Null;
    }
  }

  predicate NoneIsNull(row: Row, names: seq<string>) {
    forall i :: 0 <= i < |names| ==> Field(row, names[i]) != Null
  }

  lemma SettingsAndResourcesAreApart(tables: Tables, json: Json, plan: seq<Migration>)
    ensures ResourcesCanMove(MigrateSettings(tables, json)) <==> ResourcesCanMove(tables)
    ensures Planned(MigrateResources(MigrateSettings(tables, json)), plan) <==> Planned(MigrateResources(tables), plan)
  {
    var moved := MigrateSettings(tables, json);
    assert MigrateResources(moved).Keys == MigrateResources(tables).Keys;
    assert CLUSTERS in moved <==> CLUSTERS in tables;
    assert CLUSTERS in tables ==> moved[CLUSTERS] == tables[CLUSTERS];
    forall row ensures Refers(moved, row) <==> Refers(tables, row) {}
    hide CopyAll, NewSettings, FirstSettings;
  }

  // ----- What a migration adds and keeps -----

  /** The columns, rows and values of a are all in b, in their places. */
  ghost predicate Extends(a: Table, b: Table) {
    && a.columns <= b.columns
    && |a.rows| == |b.rows|
    && forall i, column :: 0 <= i < |a.rows| && column in a.columns ==>
      Field(b.rows[i], column) == Field(a.rows[i], column)
  }

  lemma ExtendsTransitively(a: Table, b: Table, c: Table)
    requires Extends(a, b) && Extends(b, c)
    ensures Extends(a, c)
  {
    assert forall column :: column in a.columns ==> column in b.columns;
  }

  lemma {:induction false} AddMissingExtends(table: Table, columns: seq<Column>)
    ensures Extends(table, AddMissing(table, columns))
    ensures forall i :: 0 <= i < |columns| ==> columns[i].name in AddMissing(table, columns).columns
    ensures forall name :: name in AddMissing(table, columns).columns ==>
      name in table.columns || exists i :: 0 <= i < |columns| && columns[i].name == name
  {
    if columns != [] {
      var init, last := columns[..|columns| - 1], columns[|columns| - 1];
      var before := AddMissing(table, init);
      AddMissingExtends(table, init);
      assert forall i :: 0 <= i < |init| ==> init[i] == columns[i];
      if last.name !in table.columns {
        var after := AddColumn(before, last);
        forall i, column | 0 <= i < |table.rows| && column in table.columns
          ensures Field(after.rows[i], column) == Field(table.rows[i], column)
        {
          assert Field(before.rows[i], column) == Field(table.rows[i], column);
        }
      }
    }
  }

  /** The added columns have their defaults in every row. */
  lemma {:induction false} AddedColumnsHaveDefaults(table: Table, columns: seq<Column>, i: nat, j: nat)
    requires i < |columns| && columns[i].name !in table.columns
    requires forall k, l :: 0 <= k < l < |columns| ==> columns[k].name != columns[l].name
    requires j < |table.rows|
    ensures |AddMissing(table, columns).rows| == |table.rows|
    ensures Field(AddMissing(table, columns).rows[j], columns[i].name) == columns[i].default
  {
    AddMissingExtends(table, columns);
    var init := columns[..|columns| - 1];
    AddMissingExtends(table, init);
    if i < |init| { AddedColumnsHaveDefaults(table, init, i, j); }
  }

  lemma {:induction false} NothingMissing(table: Table, columns: seq<Column>)
    requires forall i :: 0 <= i < |columns| ==> columns[i].name in table.columns
    ensures AddMissing(table, columns) == table
  {
    if columns != [] { NothingMissing(table, columns[..|columns| - 1]); }
  }

  ghost predicate HasColumns(tables: Tables, migration: Migration) {
    migration.table in tables && forall i :: 0 <= i < |migration.columns| ==>
      migration.columns[i].name in tables[migration.table].columns
  }

  lemma {:induction false} AddAllAdds(tables: Tables, plan: seq<Migration>)
    ensures AddAll(tables, plan).Keys == tables.Keys
    ensures forall name :: name in tables ==> Extends(tables[name], AddAll(tables, plan)[name])
    ensures forall i :: 0 <= i < |plan| && plan[i].table in tables ==> HasColumns(AddAll(tables, plan), plan[i])
    ensures forall name :: name in tables && (forall i :: 0 <= i < |plan| ==> plan[i].table != name) ==>
      AddAll(tables, plan)[name] == tables[name]
  {
    if plan != [] {
      var init, last := plan[..|plan| - 1], plan[|plan| - 1];
      var before, after := AddAll(tables, init), AddAll(tables, plan);
      AddAllAdds(tables, init);
      AddLast(tables, plan);
      hide AddAll, AddMissing, AddColumn, HasColumns, Extends;
      assert forall i :: 0 <= i < |init| ==> init[i] == plan[i];
      forall i | 0 <= i < |plan| && plan[i].table in tables ensures HasColumns(after, plan[i]) {
        if i < |init| { ColumnsStay(before, after, init[i]); }
      }
      forall name | name in tables ensures Extends(tables[name], after[name]) {
        ExtendsTransitively(tables[name], before[name], after[name]);
      }
    }
  }

  /** What the last migration of a plan does. */
  lemma AddLast(tables: Tables, plan: seq<Migration>)
    requires plan != []
    ensures var before, after, last := AddAll(tables, plan[..|plan| - 1]), AddAll(tables, plan), plan[|plan| - 1];
      && after.Keys == before.Keys && (last.table in before ==> HasColumns(after, last))
      && (forall name :: name in before ==> Extends(before[name], after[name]))
      && (forall name :: name in before && name != last.table ==> after[name] == before[name])
  {
    var before, last := AddAll(tables, plan[..|plan| - 1]), plan[|plan| - 1];
    if last.table in before { AddMissingExtends(before[last.table], last.columns); }
    hide AddMissing, AddColumn;
  }

  lemma ColumnsStay(before: Tables, after: Tables, migration: Migration)
    requires HasColumns(before, migration) && migration.table in after
    requires Extends(before[migration.table], after[migration.table])
    ensures HasColumns(after, migration)
  {
    var had, has := before[migration.table].columns, after[migration.table].columns;
    assert forall name :: name in had ==> name in has;
  }

  lemma {:induction false} AddAllAddsNothing(tables: Tables, plan: seq<Migration>)
    requires forall i :: 0 <= i < |plan| ==> HasColumns(tables, plan[i])
    ensures AddAll(tables, plan) == tables
  {
    if plan != [] {
      var last := plan[|plan| - 1];
      AddAllAddsNothing(tables, plan[..|plan| - 1]);
      assert HasColumns(tables, last);
      NothingMissing(tables[last.table], last.columns);
    }
  }

  /** The plan leaves the resources alone, and does not bring back the column that gives a legacy database away. */
  ghost predicate Sane(plan: seq<Migration>) {
    && (forall i :: 0 <= i < |plan| ==> plan[i].table != RESOURCES)
    && forall i, j :: 0 <= i < |plan| && plan[i].table == SETTINGS && 0 <= j < |plan[i].columns| ==>
      plan[i].columns[j].name != "vpc_id"
  }

  lemma MigrationsAreSane()
    ensures Sane(MIGRATIONS)
  {
    assert "vpc_id"[0] == 'v';
  }

  lemma {:induction false} NewColumnsArePlanned(tables: Tables, plan: seq<Migration>, name: string, column: string)
    requires name in tables
    ensures AddAll(tables, plan).Keys == tables.Keys
    ensures column in AddAll(tables, plan)[name].columns ==>
      || column in tables[name].columns
      || exists i, j ::
           && 0 <= i < |plan| && plan[i].table == name
           && 0 <= j < |plan[i].columns| && plan[i].columns[j].name == column
  {
    AddAllAdds(tables, plan);
    if plan != [] {
      var init, last := plan[..|plan| - 1], plan[|plan| - 1];
      AddAllAdds(tables, init);
      NewColumnsArePlanned(tables, init, name, column);
      assert forall i :: 0 <= i < |init| ==> init[i] == plan[i];
      if last.table in AddAll(tables, init) {
        AddMissingExtends(AddAll(tables, init)[last.table], last.columns);
      }
    }
  }

  /** After one migration every planned column is there, and a second one can be made and changes nothing. */
  lemma MigratingIsIdempotent(tables: Tables, json: Json, plan: seq<Migration>)
    requires CanMigrate(tables, json, plan) && Sane(plan)
    ensures var after := Migrated(tables, json, plan);
      && (forall i :: 0 <= i < |plan| ==> HasColumns(after, plan[i]))
      && CanMigrate(after, json, plan)
      && Migrated(after, json, plan) == after
  {
    var moved := MigrateResources(MigrateSettings(tables, json));
    var after := AddAll(moved, plan);
    SettingsAndResourcesAreApart(tables, json, plan);
    AddAllAdds(moved, plan);
    assert AWS_RESOURCES !in after;
    assert !IsLegacy(after) by {
      assert !IsLegacy(moved);
      if SETTINGS in moved { NewColumnsArePlanned(moved, plan, SETTINGS, "vpc_id"); }
    }
    hide AddAll, Sane;
    AddAllAddsNothing(after, plan);
  }

  /** Every table but the resources' old one stays, with its columns, rows and values, unless it is a legacy
      settings table; tables that the plan does not name stay as they are, except that resources are added. */
  lemma OtherTablesKeepTheirRows(tables: Tables, json: Json, plan: seq<Migration>, name: string)
    requires CanMigrate(tables, json, plan) && Sane(plan)
    requires name in tables && name != AWS_RESOURCES && name != RESOURCES && !(name == SETTINGS && IsLegacy(tables))
    ensures name in Migrated(tables, json, plan) && Extends(tables[name], Migrated(tables, json, plan)[name])
    ensures (forall i :: 0 <= i < |plan| ==> plan[i].table != name) ==>
      Migrated(tables, json, plan)[name] == tables[name]
  {
    AddAllAdds(MigrateResources(MigrateSettings(tables, json)), plan);
  }

  /** The settings row of a legacy database: each of its values is where the current schema looks for it. */
  lemma SettingsAreCarriedOver(tables: Tables, json: Json, plan: seq<Migration>, row: Row)
    requires CanMigrate(tables, json, plan) && Sane(plan)
    requires IsLegacy(tables) && FirstSettings(tables[SETTINGS].rows) == Some(row)
    ensures var after := Migrated(tables, json, plan);
      && SETTINGS in after && |after[SETTINGS].rows| == 1
      && Moved(row, tables[SETTINGS].columns, after[SETTINGS].rows[0], json)
  {
    var moved := MigrateResources(MigrateSettings(tables, json));
    SettingsRowMoves(tables, json, row);
    AddAllAdds(moved, plan);
    hide MigrateResources, MigrateSettings, NewSettings, SETTINGS_COLUMNS, Moved, AddAll, Extends;
    ExtendedSettings(row, tables[SETTINGS].columns, moved[SETTINGS], AddAll(moved, plan)[SETTINGS], json);
  }

  lemma SettingsRowMoves(tables: Tables, json: Json, row: Row)
    requires IsLegacy(tables) && FirstSettings(tables[SETTINGS].rows) == Some(row)
    ensures SETTINGS in MigrateResources(MigrateSettings(tables, json))
    ensures MigrateResources(MigrateSettings(tables, json))[SETTINGS] ==
            Table(SETTINGS_COLUMNS, [NewSettings(row, tables[SETTINGS].columns, json)])
  {
    hide NewSettings, SETTINGS_COLUMNS;
  }

  lemma ExtendedSettings(row: Row, columns: seq<string>, before: Table, after: Table, json: Json)
    requires before == Table(SETTINGS_COLUMNS, [NewSettings(row, columns, json)]) && Extends(before, after)
    ensures |after.rows| == 1 && Moved(row, columns, after.rows[0], json)
  {
    hide NewSettings, Field, SETTINGS_COLUMNS, Moved;
    forall i | 0 <= i < |SETTINGS_COLUMNS|
      ensures Field(after.rows[0], SETTINGS_COLUMNS[i]) == Field(NewSettings(row, columns, json), SETTINGS_COLUMNS[i])
    {
      assert SETTINGS_COLUMNS[i] in before.columns;
    }
    SettingsMove(row, columns, after.rows[0], json);
  }

  /** What reading the text as JSON gives, or an empty list where there is nothing to read. */
  function LoadedList(value: Value, json: Json): string {
    if value.Text? && value.text != "" && json.loads(value.text).Some? then json.loads(value.text).value else "[]"
  }

  ghost predicate Moved(row: Row, columns: seq<string>, now: Row, json: Json) {
    && Field(now, "id") == Integer(1)
    && Field(now, "provider") == Text("aws")
    && Field(now, "region") == Field(row, "region")
    && Field(now, "provider_config_json") == Text(json.dumps(Network(
         Field(row, "vpc_id"), LoadedList(Field(row, "private_subnet_ids"), json),
         Field(row, "cluster_security_group_id"), Field(row, "node_instance_profile"))))
    && Field(now, "allowed_ui_cidrs") == Field(row, "allowed_ui_cidrs")
    && Field(now, "provider_identity") == Field(row, "aws_identity")
    && Field(now, "provider_validation") == Field(row, "aws_validation")
    && Field(now, "allowed_instance_types") ==
       (if "allowed_instance_types" in columns then Field(row, "allowed_instance_types") else NO_LIST)
    && Field(now, "completed_at") == Field(row, "completed_at")
    && Field(now, "cluster_base_domain") == EMPTY
  }

  lemma SettingsMove(row: Row, columns: seq<string>, now: Row, json: Json)
    requires forall i :: 0 <= i < |SETTINGS_COLUMNS| ==>
      Field(now, SETTINGS_COLUMNS[i]) == Field(NewSettings(row, columns, json), SETTINGS_COLUMNS[i])
    ensures Moved(row, columns, now, json)
  {
    var settings, names := NewSettings(row, columns, json), SETTINGS_COLUMNS;
    assert Field(now, names[0]) == Field(settings, "id") && Field(now, names[1]) == Field(settings, "provider");
    assert Field(now, names[2]) == Field(settings, "region") &&
      Field(now, names[3]) == Field(settings, "provider_config_json");
    assert Field(now, names[4]) == Field(settings, "allowed_ui_cidrs") &&
      Field(now, names[5]) == Field(settings, "provider_identity");
    assert Field(now, names[6]) == Field(settings, "provider_validation") &&
      Field(now, names[7]) == Field(settings, "allowed_instance_types");
    assert Field(now, names[8]) == Field(settings, "cluster_base_domain") &&
      Field(now, names[9]) == Field(settings, "completed_at");
  }

  // ----- What is not carried over -----

  /** The default that these columns give to a column: the last one's of that name. */
  function DefaultIn(columns: seq<Column>, column: string): Option<Value> {
    if columns == [] then None
    else if columns[|columns| - 1].name == column then Some(columns[|columns| - 1].default)
    else DefaultIn(columns[..|columns| - 1], column)
  }

  /** The default that a plan gives to a column that a table lacks: that of the first migration to name it. */
  function PlannedDefault(plan: seq<Migration>, table: string, column: string): Option<Value> {
    if plan == [] then None
    else
      var before, last := PlannedDefault(plan[..|plan| - 1], table, column), plan[|plan| - 1];
      if before.Some? || last.table != table then before else DefaultIn(last.columns, column)
  }

  function Otherwise(value: Option<Value>, other: Value): Value {
    if value.Some? then value.value else other
  }

  lemma {:induction false} AddMissingFills(table: Table, columns: seq<Column>, column: string, j: nat)
    requires column !in table.columns && j < |table.rows|
    ensures |AddMissing(table, columns).rows| == |table.rows|
    ensures column in AddMissing(table, columns).columns <==> DefaultIn(columns, column).Some?
    ensures Field(AddMissing(table, columns).rows[j], column) ==
      Otherwise(DefaultIn(columns, column), Field(table.rows[j], column))
  {
    if columns != [] { AddMissingFills(table, columns[..|columns| - 1], column, j); }
  }

  lemma {:induction false} AddAllFills(tables: Tables, plan: seq<Migration>, name: string, column: string, j: nat)
    requires name in tables && column !in tables[name].columns && j < |tables[name].rows|
    ensures name in AddAll(tables, plan) && |AddAll(tables, plan)[name].rows| == |tables[name].rows|
    ensures column in AddAll(tables, plan)[name].columns <==> PlannedDefault(plan, name, column).Some?
    ensures Field(AddAll(tables, plan)[name].rows[j], column) ==
            Otherwise(PlannedDefault(plan, name, column), Field(tables[name].rows[j], column))
  {
    if plan != [] {
      var init, last := plan[..|plan| - 1], plan[|plan| - 1];
      var before := AddAll(tables, init);
      AddAllFills(tables, init, name, column, j);
      AddAllAdds(tables, init);
      if last.table == name {
        AddMissingExtends(before[name], last.columns);
        if column !in before[name].columns { AddMissingFills(before[name], last.columns, column, j); }
      }
    }
  }

  /** The columns that the migrated row takes its values from. */
  const MAPPED_COLUMNS := LEGACY_COLUMNS + ["id", "allowed_instance_types"]

  /** What the migrated row holds in a column, whatever the legacy row held there. */
  function Reset(row: Row, columns: seq<string>, json: Json, plan: seq<Migration>, column: string): Value {
    if column in SETTINGS_COLUMNS then Field(NewSettings(row, columns, json), column)
    else Otherwise(PlannedDefault(plan, SETTINGS, column), Null)
  }

  /** Every column of the migrated settings, mapped or not, and what it holds. */
  lemma SettingsAreRebuilt(tables: Tables, json: Json, plan: seq<Migration>, row: Row, column: string)
    requires CanMigrate(tables, json, plan) && Sane(plan)
    requires IsLegacy(tables) && FirstSettings(tables[SETTINGS].rows) == Some(row)
    ensures SETTINGS in Migrated(tables, json, plan) && |Migrated(tables, json, plan)[SETTINGS].rows| == 1
    ensures column in Migrated(tables, json, plan)[SETTINGS].columns <==>
            column in SETTINGS_COLUMNS || PlannedDefault(plan, SETTINGS, column).Some?
    ensures Field(Migrated(tables, json, plan)[SETTINGS].rows[0], column) ==
      Reset(row, tables[SETTINGS].columns, json, plan, column)
  {
    var moved := MigrateResources(MigrateSettings(tables, json));
    SettingsRowMoves(tables, json, row);
    hide MigrateResources, MigrateSettings, NewSettings,
      SETTINGS_COLUMNS, AddAll, Reset, IsLegacy, CanMigrate, FirstSettings;
    RebuiltIsFilled(moved, json, plan, row, tables[SETTINGS].columns, column);
  }

  lemma RebuiltIsFilled(moved: Tables, json: Json, plan: seq<Migration>, row: Row, columns: seq<string>, column: string)
    requires SETTINGS in moved && moved[SETTINGS] == Table(SETTINGS_COLUMNS, [NewSettings(row, columns, json)])
    ensures SETTINGS in AddAll(moved, plan) && |AddAll(moved, plan)[SETTINGS].rows| == 1
    ensures column in AddAll(moved, plan)[SETTINGS].columns <==>
            column in SETTINGS_COLUMNS || PlannedDefault(plan, SETTINGS, column).Some?
    ensures Field(AddAll(moved, plan)[SETTINGS].rows[0], column) == Reset(row, columns, json, plan, column)
  {
    AddAllAdds(moved, plan);
    NewSettingsHas(row, columns, json, column);
    hide NewSettings, SETTINGS_COLUMNS, AddAll;
    if column in SETTINGS_COLUMNS {
      assert Extends(moved[SETTINGS], AddAll(moved, plan)[SETTINGS]);
    } else {
      AddAllFills(moved, plan, SETTINGS, column, 0);
    }
  }

  lemma NewSettingsHas(row: Row, columns: seq<string>, json: Json, column: string)
    ensures column !in SETTINGS_COLUMNS ==> Field(NewSettings(row, columns, json), column) == Null
  {
    var names := SETTINGS_COLUMNS;
    assert names[0] == "id" && names[1] == "provider" && names[2] == "region" && names[3] == "provider_config_json";
    assert names[4] == "allowed_ui_cidrs" && names[5] == "provider_identity" && names[6] == "provider_validation";
    assert names[7] == "allowed_instance_types" && names[8] == "cluster_base_domain" && names[9] == "completed_at";
  }

  /** The values of the legacy row that are still found: the mapped
      ones where they went, every other under its own name. */
  ghost predicate Conserved(row: Row, columns: seq<string>, now: Row, json: Json) {
    && Moved(row, columns, now, json)
    && forall column :: column in columns && column !in MAPPED_COLUMNS ==> Field(now, column) == Field(row, column)
  }

  /** A column that is not mapped keeps its value if and only if it held what the migration gives everyone;
      and the whole row is conserved if and only if all of them did. */
  lemma UnmappedSettingsAreReset(tables: Tables, json: Json, plan: seq<Migration>, row: Row)
    requires CanMigrate(tables, json, plan) && Sane(plan)
    requires IsLegacy(tables) && FirstSettings(tables[SETTINGS].rows) == Some(row)
    ensures SETTINGS in Migrated(tables, json, plan) && |Migrated(tables, json, plan)[SETTINGS].rows| == 1
    ensures Conserved(row, tables[SETTINGS].columns, Migrated(tables, json, plan)[SETTINGS].rows[0], json) <==>
            forall column :: column in tables[SETTINGS].columns && column !in MAPPED_COLUMNS ==>
              Field(row, column) == Reset(row, tables[SETTINGS].columns, json, plan, column)
  {
    SettingsAreCarriedOver(tables, json, plan, row);
    forall column
      ensures Field(Migrated(tables, json, plan)[SETTINGS].rows[0], column) ==
        Reset(row, tables[SETTINGS].columns, json, plan, column)
    {
      SettingsAreRebuilt(tables, json, plan, row, column);
    }
    hide Migrated, Reset, Moved, MAPPED_COLUMNS;
  }

  lemma {:induction false} DefaultAt(columns: seq<Column>, i: nat)
    requires i < |columns| && forall j :: i < j < |columns| ==> columns[j].name != columns[i].name
    ensures DefaultIn(columns, columns[i].name) == Some(columns[i].default)
  {
    if i < |columns| - 1 { DefaultAt(columns[..|columns| - 1], i); }
  }

  lemma {:induction false} PlannedAt(plan: seq<Migration>, i: nat, column: string)
    requires i < |plan| && forall j :: 0 <= j < |plan| && j != i ==> plan[j].table != plan[i].table
    ensures PlannedDefault(plan, plan[i].table, column) == DefaultIn(plan[i].columns, column)
  {
    if i < |plan| - 1 {
      PlannedAt(plan[..|plan| - 1], i, column);
    } else {
      NotPlanned(plan[..|plan| - 1], plan[i].table, column);
    }
  }

  lemma {:induction false} NotPlanned(plan: seq<Migration>, table: string, column: string)
    requires forall j :: 0 <= j < |plan| ==> plan[j].table != table
    ensures PlannedDefault(plan, table, column) == None
  {
    if plan != [] { NotPlanned(plan[..|plan| - 1], table, column); }
  }

  lemma SettingsPlan(k: nat)
    requires k < |MIGRATIONS[4].columns|
    ensures |MIGRATIONS| > 4 && MIGRATIONS[4].table == SETTINGS && MIGRATIONS[4].columns[k].name !in MAPPED_COLUMNS
    ensures forall j :: 0 <= j < |MIGRATIONS| && j != 4 ==> MIGRATIONS[j].table != SETTINGS
    ensures forall j :: k < j < |MIGRATIONS[4].columns| ==>
      MIGRATIONS[4].columns[j].name != MIGRATIONS[4].columns[k].name
    ensures MIGRATIONS[4].columns[k].default == SettingDefault(MIGRATIONS[4].columns[k].name)
  {}

  /** Nothing for the numbers, no object for the configurations, and the empty base domain. */
  function SettingDefault(name: string): Value {
    if name in ["session_hours", "result_cache_ttl_minutes"] then Null
    else if name == "cluster_base_domain" then Text("")
    else Text("{}")
  }

  lemma SettingsPlanIsNew(row: Row, columns: seq<string>, json: Json, k: nat)
    requires k < |MIGRATIONS[4].columns|
    ensures MIGRATIONS[4].columns[k].name in SETTINGS_COLUMNS ==>
      Field(NewSettings(row, columns, json), MIGRATIONS[4].columns[k].name) == MIGRATIONS[4].columns[k].default
  {}

  /** The repository's own plan for the settings: base domain, single sign-on, session length, notifications, assistant,
      result cache and email are what a legacy database loses, for their defaults. */
  lemma PlannedSettingsAreLost(row: Row, columns: seq<string>, json: Json, k: nat)
    requires k < |MIGRATIONS[4].columns|
    ensures MIGRATIONS[4].table == SETTINGS && MIGRATIONS[4].columns[k].name !in MAPPED_COLUMNS
    ensures var name := MIGRATIONS[4].columns[k].name;
      Reset(row, columns, json, MIGRATIONS, name) == SettingDefault(name)
  {
    hide MIGRATIONS, MAPPED_COLUMNS, SETTINGS_COLUMNS, SETTINGS, NewSettings, SettingDefault;
    SettingsPlan(k);
    SettingsPlanIsNew(row, columns, json, k);
    PlannedAt(MIGRATIONS, 4, MIGRATIONS[4].columns[k].name);
    DefaultAt(MIGRATIONS[4].columns, k);
  }

  /** So the base domain survives exactly when it was empty. */
  lemma BaseDomainIsReset(tables: Tables, json: Json, plan: seq<Migration>, row: Row)
    requires CanMigrate(tables, json, plan) && Sane(plan)
    requires IsLegacy(tables) && FirstSettings(tables[SETTINGS].rows) == Some(row)
    ensures SETTINGS in Migrated(tables, json, plan) && |Migrated(tables, json, plan)[SETTINGS].rows| == 1
    ensures Field(Migrated(tables, json, plan)[SETTINGS].rows[0], "cluster_base_domain") == Field(row,
      "cluster_base_domain") <==>
            Field(row, "cluster_base_domain") == EMPTY
  {
    SettingsAreRebuilt(tables, json, plan, row, "cluster_base_domain");
    hide Migrated, IsLegacy, FirstSettings, CanMigrate;
    assert SETTINGS_COLUMNS[8] == "cluster_base_domain";
  }

  function TaggedAll(legacy: seq<Row>): seq<Row> {
    seq(|legacy|, i requires 0 <= i < |legacy| => Tagged(legacy[i]))
  }

  /** Each of the rows can be added to the table and to those before it. */
  ghost predicate Free(rows: seq<Row>, legacy: seq<Row>) {
    forall i :: 0 <= i < |legacy| ==> Accepts(rows + TaggedAll(legacy[..i]), Tagged(legacy[i]))
  }

  /** The rows that were there come first. */
  lemma {:induction false} CopyAllAppends(rows: seq<Row>, legacy: seq<Row>)
    ensures rows <= CopyAll(rows, legacy) && |CopyAll(rows, legacy)| <= |rows| + |legacy|
  {
    if legacy != [] { CopyAllAppends(rows, legacy[..|legacy| - 1]); }
  }

  /** No row is made up, and none clashes with one before it. */
  lemma {:induction false} CopyAllKeepsKeys(rows: seq<Row>, legacy: seq<Row>, j: nat)
    requires |rows| <= j < |CopyAll(rows, legacy)|
    ensures CopyAll(rows, legacy)[j] in TaggedAll(legacy)
    ensures forall i :: 0 <= i < j ==> !Clash(CopyAll(rows, legacy)[i], CopyAll(rows, legacy)[j])
  {
    CopyAllAppends(rows, legacy);
    var init, last := legacy[..|legacy| - 1], legacy[|legacy| - 1];
    assert TaggedAll(legacy) == TaggedAll(init) + [Tagged(last)];
    hide Tagged, Clash, Complete, TaggedAll;
    if j < |CopyAll(rows, init)| { CopyAllKeepsKeys(rows, init, j); }
  }

  lemma LongerAcceptsLess(rows: seq<Row>, longer: seq<Row>, row: Row)
    requires rows <= longer
    ensures Accepts(longer, row) ==> Accepts(rows, row)
    ensures row in rows ==> row in longer
  {
    hide Clash, Complete;
  }

  /** No row is left out but for a clash or a missing value. */
  lemma {:induction false} CopyAllLeavesOut(rows: seq<Row>, legacy: seq<Row>, j: nat)
    requires j < |legacy|
    ensures Tagged(legacy[j]) in CopyAll(rows, legacy) || !Accepts(CopyAll(rows, legacy), Tagged(legacy[j]))
  {
    var init := legacy[..|legacy| - 1];
    var before, after := CopyAll(rows, init), CopyAll(rows, legacy);
    if j < |init| {
      CopyAllLeavesOut(rows, init, j);
      assert init[j] == legacy[j];
      LongerAcceptsLess(before, after, Tagged(legacy[j]));
    } else {
      hide Accepts, Tagged;
      assert after == InsertOrIgnore(before, Tagged(legacy[j]));
    }
  }

  lemma FreeSoFar(rows: seq<Row>, legacy: seq<Row>)
    requires legacy != []
    ensures var init, last := legacy[..|legacy| - 1], legacy[|legacy| - 1];
      Free(rows, legacy) <==> Free(rows, init) && Accepts(rows + TaggedAll(init), Tagged(last))
  {
    hide Accepts, Tagged, TaggedAll;
    var init, last := legacy[..|legacy| - 1], legacy[|legacy| - 1];
    assert forall i :: 0 <= i < |init| ==> init[..i] == legacy[..i] && init[i] == legacy[i];
    if Free(rows, init) && Accepts(rows + TaggedAll(init), Tagged(last)) {
      forall i | 0 <= i < |legacy| ensures Accepts(rows + TaggedAll(legacy[..i]), Tagged(legacy[i])) {
        if i < |init| { assert Accepts(rows + TaggedAll(init[..i]), Tagged(init[i])); }
      }
    }
    if Free(rows, legacy) {
      forall i | 0 <= i < |init| ensures Accepts(rows + TaggedAll(init[..i]), Tagged(init[i])) {
        assert Accepts(rows + TaggedAll(legacy[..i]), Tagged(legacy[i]));
      }
    }
  }

  /** All resources are carried over, in order and tagged, if and only if each of them fits in. */
  lemma {:induction false} CopyAllIsComplete(rows: seq<Row>, legacy: seq<Row>)
    ensures CopyAll(rows, legacy) == rows + TaggedAll(legacy) <==> Free(rows, legacy)
  {
    if legacy == [] {
      assert rows + TaggedAll(legacy) == rows;
    } else {
      var init, last := legacy[..|legacy| - 1], legacy[|legacy| - 1];
      var before := CopyAll(rows, init);
      CopyAllIsComplete(rows, init);
      CopyAllAppends(rows, init);
      FreeSoFar(rows, legacy);
      assert TaggedAll(legacy) == TaggedAll(init) + [Tagged(last)];
      assert rows + TaggedAll(legacy) == rows + TaggedAll(init) + [Tagged(last)];
      hide Accepts, Tagged, Free;
      if CopyAll(rows, legacy) == rows + TaggedAll(legacy) {
        assert |before| < |rows + TaggedAll(legacy)|;
        assert CopyAll(rows, legacy) == before + [Tagged(last)];
        assert before == CopyAll(rows, legacy)[..|before|] == rows + TaggedAll(init);
      }
    }
  }

  // ----- Resource by resource -----

  /** The old row's values are all in the new one, which says whose provider's they are. */
  ghost predicate SameResource(was: Row, now: Row) {
    && Field(now, "id") == Field(was, "id") && Field(now, "cluster_id") == Field(was, "cluster_id")
    && Field(now, "resource_type") == Field(was, "resource_type")
    && Field(now, "resource_id") == Field(was, "resource_id") && Field(now, "region") == Field(was, "region")
    && Field(now, "metadata_json") == Field(was, "metadata_json")
    && Field(now, "created_at") == Field(was, "created_at") && Field(now, "provider") == Text("aws")
  }

  /** The constraints of the table let the old row in behind these: nothing it must have is missing, and neither its
      id nor its kind and name together are taken. */
  ghost predicate FitsBehind(rows: seq<Row>, was: Row) {
    && NoneIsNull(was, ["id", "resource_type", "resource_id", "region", "metadata_json", "created_at"])
    && forall i :: 0 <= i < |rows| ==>
         && Field(rows[i], "id") != Field(was, "id")
         && !(Field(rows[i], "resource_type") == Field(was, "resource_type") &&
              Field(rows[i], "resource_id") == Field(was, "resource_id"))
  }

  /** The rows are those that were there and, in order, each old row that fits in behind the rows before it. */
  ghost predicate CopiedInOrder(rows: seq<Row>, legacy: seq<Row>, now: seq<Row>) {
    if legacy == [] then now == rows
    else
      var init, last := legacy[..|legacy| - 1], legacy[|legacy| - 1];
      || (CopiedInOrder(rows, init, now) && !FitsBehind(now, last))
      || (now != [] && CopiedInOrder(rows, init, now[..|now| - 1]) && FitsBehind(now[..|now| - 1], last)
          && SameResource(last, now[|now| - 1]))
  }

  lemma TaggedIsSame(row: Row)
    ensures SameResource(row, Tagged(row))
  {
    hide Field, Tagged;
    TaggedNames(row);
    TaggedPlaces(row);
    TaggedRest(row);
  }

  lemma TaggedNames(row: Row)
    ensures var now := Tagged(row);
      && Field(now, "resource_type") == Field(row, "resource_type")
      && Field(now, "resource_id") == Field(row, "resource_id") && Field(now, "region") == Field(row, "region")
  {}

  lemma TaggedPlaces(row: Row)
    ensures var now := Tagged(row);
      Field(now, "id") == Field(row, "id") && Field(now, "cluster_id") == Field(row, "cluster_id")
  {}

  lemma TaggedRest(row: Row)
    ensures var now := Tagged(row);
      && Field(now, "metadata_json") == Field(row, "metadata_json")
      && Field(now, "created_at") == Field(row, "created_at") && Field(now, "provider") == Text("aws")
  {}

  lemma AcceptsIff(rows: seq<Row>, row: Row)
    ensures Accepts(rows, Tagged(row)) <==> FitsBehind(rows, row)
  {
    var names := ["id", "resource_type", "resource_id", "region", "metadata_json", "created_at"];
    var tagged := Tagged(row);
    assert NoneIsNull(row, names) <==> Complete(tagged) by {
      if NoneIsNull(row, names) {
        assert Field(row, names[0]) != Null && Field(row, names[1]) != Null && Field(row, names[2]) != Null;
        assert Field(row, names[3]) != Null && Field(row, names[4]) != Null && Field(row, names[5]) != Null;
      }
    }
    hide NoneIsNull, Complete;
  }

  lemma {:induction false} CopiesAreInOrder(rows: seq<Row>, legacy: seq<Row>)
    ensures CopiedInOrder(rows, legacy, CopyAll(rows, legacy))
  {
    hide Tagged, Accepts, FitsBehind, SameResource;
    if legacy != [] {
      var init, last := legacy[..|legacy| - 1], legacy[|legacy| - 1];
      var before, after := CopyAll(rows, init), CopyAll(rows, legacy);
      CopiesAreInOrder(rows, init);
      AcceptsIff(before, last);
      TaggedIsSame(last);
      if Accepts(before, Tagged(last)) { assert after[..|after| - 1] == before; }
    }
  }

  /** There is only one such list of values for each old row: where all fit in, each stands in its place. */
  lemma {:induction false} AllInPlace(rows: seq<Row>, legacy: seq<Row>, now: seq<Row>, j: nat)
    requires CopiedInOrder(rows, legacy, now) && |now| == |rows| + |legacy| && j < |legacy|
    ensures SameResource(legacy[j], now[|rows| + j])
    decreases |legacy|
  {
    hide SameResource, FitsBehind;
    var init := legacy[..|legacy| - 1];
    forall shorter | CopiedInOrder(rows, init, shorter) ensures |shorter| <= |rows| + |init| {
      NoMoreThanCopied(rows, init, shorter);
    }
    if j < |init| { AllInPlace(rows, init, now[..|now| - 1], j); }
  }

  lemma {:induction false} NoMoreThanCopied(rows: seq<Row>, legacy: seq<Row>, now: seq<Row>)
    requires CopiedInOrder(rows, legacy, now)
    ensures |rows| <= |now| <= |rows| + |legacy|
  {
    hide SameResource, FitsBehind;
    if legacy != [] {
      var init := legacy[..|legacy| - 1];
      if CopiedInOrder(rows, init, now) {
        NoMoreThanCopied(rows, init, now);
      } else {
        NoMoreThanCopied(rows, init, now[..|now| - 1]);
      }
    }
  }

  /** The migrated database has the resources that were there, and the old ones behind them as they fit in. */
  lemma ResourcesAreCarriedOver(tables: Tables, json: Json, plan: seq<Migration>)
    requires CanMigrate(tables, json, plan) && Sane(plan) && AWS_RESOURCES in tables
    ensures var after := Migrated(tables, json, plan);
      && AWS_RESOURCES !in after && RESOURCES in after && after[RESOURCES].columns == tables[RESOURCES].columns
      && tables[RESOURCES].rows <= after[RESOURCES].rows
      && CopiedInOrder(tables[RESOURCES].rows, tables[AWS_RESOURCES].rows, after[RESOURCES].rows)
      && (after[RESOURCES].rows == tables[RESOURCES].rows + TaggedAll(tables[AWS_RESOURCES].rows) <==>
          Free(tables[RESOURCES].rows, tables[AWS_RESOURCES].rows))
  {
    CopiesAreInOrder(tables[RESOURCES].rows, tables[AWS_RESOURCES].rows);
    AddAllAdds(MigrateResources(MigrateSettings(tables, json)), plan);
    CopyAllAppends(tables[RESOURCES].rows, tables[AWS_RESOURCES].rows);
    CopyAllIsComplete(tables[RESOURCES].rows, tables[AWS_RESOURCES].rows);
  }

  /** What was copied before old row j is the first k rows, and the old row is the next one if it fits in there. */
  ghost predicate StandsAt(rows: seq<Row>, legacy: seq<Row>, now: seq<Row>, j: nat, k: nat)
    requires j < |legacy|
  {
    && k <= |now| && CopiedInOrder(rows, legacy[..j], now[..k])
    && (FitsBehind(now[..k], legacy[j]) ==> k < |now| && SameResource(legacy[j], now[k]))
  }

  lemma {:induction false} EachInItsPlace(rows: seq<Row>, legacy: seq<Row>, now: seq<Row>, j: nat)
    requires CopiedInOrder(rows, legacy, now) && j < |legacy|
    ensures exists k: nat :: StandsAt(rows, legacy, now, j, k)
    decreases |legacy|
  {
    hide SameResource, FitsBehind;
    var init, last := legacy[..|legacy| - 1], legacy[|legacy| - 1];
    var before := if CopiedInOrder(rows, init, now) && !FitsBehind(now, last) then now else now[..|now| - 1];
    if j < |init| {
      EachInItsPlace(rows, init, before, j);
      var k: nat :| StandsAt(rows, init, before, j, k);
      assert init[..j] == legacy[..j] && before[..k] == now[..k];
      assert StandsAt(rows, legacy, now, j, k);
    } else {
      assert legacy[..j] == init && now[..|before|] == before;
      assert StandsAt(rows, legacy, now, j, |before|);
    }
  }

  /** Every old row that fits in has its values in the migrated table, in its place behind those before it; and where
      none is kept out, that is its own number behind the rows that were there. */
  lemma ResourcesKeepTheirValues(tables: Tables, json: Json, plan: seq<Migration>, j: nat)
    requires CanMigrate(tables, json, plan) && Sane(plan) && AWS_RESOURCES in tables && j < |tables[AWS_RESOURCES].rows|
    ensures RESOURCES in tables && RESOURCES in Migrated(tables, json, plan)
    ensures var rows, legacy, now :=
        tables[RESOURCES].rows, tables[AWS_RESOURCES].rows, Migrated(tables, json, plan)[RESOURCES].rows;
      && (exists k: nat :: StandsAt(rows, legacy, now, j, k))
      && (|now| == |rows| + |legacy| ==> SameResource(legacy[j], now[|rows| + j]))
  {
    hide Migrated, CopyAll, SameResource, Free, TaggedAll, Sane;
    ResourcesAreCarriedOver(tables, json, plan);
    var rows, legacy, now :=
      tables[RESOURCES].rows, tables[AWS_RESOURCES].rows, Migrated(tables, json, plan)[RESOURCES].rows;
    EachInItsPlace(rows, legacy, now, j);
    if |now| == |rows| + |legacy| { AllInPlace(rows, legacy, now, j); }
  }

  // ----- What a database must have for the rest -----

  /** The old resources can be copied when their columns are there and every row that is added names a cluster there is,
      or none; columns can be added to tables that are there; and the index needs its three columns. */
  lemma OthersCanMoveIff(tables: Tables, plan: seq<Migration>)
    ensures ResourcesCanMove(tables) <==> ("aws_resources" in tables ==>
                                             "provider_resources" in tables && CopiesAreAllowed(tables))
    ensures Planned(tables, plan) <==> forall migration :: migration in plan ==> migration.table in tables
    ensures CanIndex(tables) <==> "query_runs" in tables && "cache_key" in tables["query_runs"].columns &&
                                  "user_id" in tables["query_runs"].columns &&
                                  "updated_at" in tables["query_runs"].columns
  {
    hide CopyAll;
    assert INDEXED_COLUMNS[0] == "cache_key" && INDEXED_COLUMNS[1] == "user_id" && INDEXED_COLUMNS[2] == "updated_at";
  }

  ghost predicate CopiesAreAllowed(tables: Tables)
    requires "aws_resources" in tables && "provider_resources" in tables
  {
    var rows, legacy := tables["provider_resources"].rows, tables["aws_resources"].rows;
    && HasAll(tables["aws_resources"].columns,
         ["id", "cluster_id", "resource_type", "resource_id", "region", "metadata_json", "created_at"])
    && forall i :: |rows| <= i < |CopyAll(rows, legacy)| ==>
         var cluster := Field(CopyAll(rows, legacy)[i], "cluster_id");
         cluster == Null || ("clusters" in tables && HoldsId(tables["clusters"].rows, cluster))
  }

  ghost predicate HoldsId(rows: seq<Row>, id: Value) {
    exists i :: 0 <= i < |rows| && Field(rows[i], "id") == id
  }
}
