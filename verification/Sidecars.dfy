/** The containers of the earlier reconciler: the agent, and a client sidecar per MySQL or PostgreSQL
    database. The builder dereferences the port pointer, which admission is meant to have filled in. */
module Sidecars {
  import opened Types
  import opened Admission
  import opened AdmissionProperties
  import opened Webhook
  import Decimal
  import Cron

  datatype EnvVar = EnvVar(name: string, value: string)

  datatype Container = Container(name: string, image: string, env: seq<EnvVar>)

  const MYSQL := "mysql"
  const POSTGRESQL := "postgresql"
  const MYSQL_CLIENT := "mysql-client"
  const POSTGRES_CLIENT := "postgres-client"

  predicate HasClient(d: Database) { d.kind == MYSQL || d.kind == POSTGRESQL }

  /** The target makes the builder dereference a nil port. */
  predicate NilPort(t: Target) { t.database.Some? && HasClient(t.database.value) && t.database.value.port.None? }

  function Client(d: Database): Container
    requires HasClient(d) && d.port.Some?
  {
    if d.kind == MYSQL
    then Container(MYSQL_CLIENT, "mysql:8.0",
                   [EnvVar("MYSQL_HOST", d.host), EnvVar("MYSQL_PORT", Decimal.Itoa(d.port.value)),
                    EnvVar("MYSQL_DATABASE", d.name)])
    else Container(POSTGRES_CLIENT, "postgres:14",
                   [EnvVar("PGHOST", d.host), EnvVar("PGPORT", Decimal.Itoa(d.port.value)),
                    EnvVar("PGDATABASE", d.name)])
  }

  predicate IsClientTarget(t: Target) { t.database.Some? && HasClient(t.database.value) }

  /** The indices of the first n targets that get a sidecar. */
  function ClientTargets(targets: seq<Target>, n: nat): (indices: seq<nat>)
    requires n <= |targets|
    ensures forall j, k :: 0 <= j < k < |indices| ==> indices[j] < indices[k]
    ensures forall i :: i in indices <==> 0 <= i < n && IsClientTarget(targets[i])
  {
    if n == 0 then []
    else
      var before := ClientTargets(targets, n - 1);
      assert forall j :: 0 <= j < |before| ==> before[j] in before;
      if IsClientTarget(targets[n - 1]) then before + [n - 1] else before
  }

  lemma ClientTargetsStep(targets: seq<Target>, n: nat)
    requires n < |targets|
    ensures ClientTargets(targets, n + 1) ==
      ClientTargets(targets, n) + if IsClientTarget(targets[n]) then [n] else []
  {
  }

  /** The sidecars are the clients of exactly these targets, one each, in target order. */
  ghost predicate AreClientsOf(sidecars: seq<Container>, targets: seq<Target>, n: nat)
    requires n <= |targets|
  {
    var indices := ClientTargets(targets, n);
    && |sidecars| == |indices|
    && forall j :: 0 <= j < |indices| ==>
         assert indices[j] in indices;
         !NilPort(targets[indices[j]]) && sidecars[j] == Client(targets[indices[j]].database.value)
  }

  /** A client sidecar, or nil; None stands for the run-time panic. */
  method BuildDatabaseSidecar(d: DatabaseSpec) returns (sidecar: Option<Option<Container>>)
    ensures sidecar == if !HasClient(d.Value()) then Some(None)
                       else if d.port.None? then None else Some(Some(Client(d.Value())))
  {
    if d.kind == MYSQL {
      if d.port.None? {
        return None;
      }
      return Some(Some(Container(MYSQL_CLIENT, "mysql:8.0",
        [EnvVar("MYSQL_HOST", d.host), EnvVar("MYSQL_PORT", Decimal.Itoa(d.port.value)),
                    EnvVar("MYSQL_DATABASE", d.name)])));
    } else if d.kind == POSTGRESQL {
      if d.port.None? {
        return None;
      }
      return Some(Some(Container(POSTGRES_CLIENT, "postgres:14",
        [EnvVar("PGHOST", d.host), EnvVar("PGPORT", Decimal.Itoa(d.port.value)), EnvVar("PGDATABASE", d.name)])));
    }
    return Some(None);
  }

  /** The builder panics exactly when some target has a nil port that is needed; otherwise the sidecars
      follow the agent. */
  method BuildContainers(agent: Container, targets: seq<BackupTarget>) returns (containers: Option<seq<Container>>)
    ensures var values := TargetValues(targets);
            && (containers.None? <==> exists i :: 0 <= i < |values| && NilPort(values[i]))
            && (containers.Some? ==>
                  && containers.value != [] && containers.value[0] == agent
                  && AreClientsOf(containers.value[1..], values, |values|))
  {
    var built := [agent];
    ghost var values := TargetValues(targets);
    NoClientsYet(values);
    hide Client, HasClient, AreClientsOf;
    assert built[1..] == [];
    for i := 0 to |targets|
      invariant |built| >= 1 && built[0] == agent
      invariant forall j :: 0 <= j < i ==> !NilPort(values[j])
      invariant AreClientsOf(built[1..], values, i)
    {
      ClientsStep(built[1..], values, i);
      if targets[i].database != null {
        var sidecar := BuildDatabaseSidecar(targets[i].database);
        if sidecar.None? {
          assert NilPort(values[i]);
          return None;
        }
        if sidecar.value.Some? {
          assert (built + [sidecar.value.value])[1..] == built[1..] + [sidecar.value.value];
          built := built + [sidecar.value.value];
        }
      }
    }
    assert TargetValues(targets) == values;
    return Some(built);
  }

  lemma NoClientsYet(targets: seq<Target>)
    ensures AreClientsOf([], targets, 0)
  {
  }

  lemma ClientsStep(sidecars: seq<Container>, targets: seq<Target>, n: nat)
    requires n < |targets| && AreClientsOf(sidecars, targets, n)
    ensures !IsClientTarget(targets[n]) ==> AreClientsOf(sidecars, targets, n + 1)
    ensures IsClientTarget(targets[n]) && !NilPort(targets[n]) ==>
      AreClientsOf(sidecars + [Client(targets[n].database.value)], targets, n + 1)
  {
    hide Client, HasClient, IsClientTarget, NilPort;
    var before := ClientTargets(targets, n);
    assert forall j :: 0 <= j < |before| ==> before[j] in before;
    ClientTargetsStep(targets, n);
  }

  // ---- admission and the builder ----

  lemma FilledNilPort(t: Target)
    ensures NilPort(FillTarget(t)) <==> NilPort(t) && t.kind != "database"
    ensures IsClientTarget(FillTarget(t)) <==> IsClientTarget(t)
  {
  }

  /** For an admitted specification the builder panics exactly when a database part with a needed nil port
      hangs on a target of another kind, which admission does not look into. */
  lemma AdmittedPanicsIff(spec: TaskSpec)
    requires Errors(spec) == []
    ensures (exists i :: 0 <= i < |spec.targets| && NilPort(Fill(spec).targets[i])) <==>
            (exists i :: 0 <= i < |spec.targets| && spec.targets[i].kind != "database" && NilPort(spec.targets[i]))
  {
    forall i | 0 <= i < |spec.targets|
      ensures NilPort(Fill(spec).targets[i]) <==> NilPort(spec.targets[i]) && spec.targets[i].kind != "database"
    {
      FilledNilPort(spec.targets[i]);
    }
    hide NilPort, FillTarget;
  }

  lemma {:induction false} SameClientTargets(targets: seq<Target>, n: nat)
    requires n <= |targets|
    ensures ClientTargets(FillTargets(targets), n) == ClientTargets(targets, n)
  {
    if n > 0 {
      SameClientTargets(targets, n - 1);
      FilledNilPort(targets[n - 1]);
      ClientTargetsStep(targets, n - 1);
      ClientTargetsStep(FillTargets(targets), n - 1);
    }
    hide IsClientTarget, FillTarget, NilPort;
  }

  /** When only database targets carry a database part, admission makes the builder total: every port it
      dereferences is there, in range, and the sidecars are those of the submitted targets. */
  lemma AdmissionMakesBuilderTotal(spec: TaskSpec)
    requires Errors(spec) == []
    requires forall i :: 0 <= i < |spec.targets| && spec.targets[i].database.Some? ==>
             spec.targets[i].kind == "database"
    ensures var (after, n) := (Fill(spec).targets, |spec.targets|);
            && (forall i :: 0 <= i < n ==> !NilPort(after[i]))
            && ClientTargets(after, n) == ClientTargets(spec.targets, n)
            && forall i :: i in ClientTargets(after, n) ==> 1 <= after[i].database.value.port.value <= 65535
  {
    AdmittedPanicsIff(spec);
    SameClientTargets(spec.targets, |spec.targets|);
    Revalidation(spec);
    hide Errors, FillTarget, HasClient;
    assert Fill(spec).targets == FillTargets(spec.targets);
  }

  /** A client of this database, listening on this port. */
  predicate ConnectsTo(c: Container, d: Database, port: string) {
    && (d.kind == "mysql" ==>
          && (c.name, c.image) == ("mysql-client", "mysql:8.0")
          && c.env == [EnvVar("MYSQL_HOST", d.host), EnvVar("MYSQL_PORT", port), EnvVar("MYSQL_DATABASE", d.name)])
    && (d.kind == "postgresql" ==>
          && (c.name, c.image) == ("postgres-client", "postgres:14")
          && c.env == [EnvVar("PGHOST", d.host), EnvVar("PGPORT", port), EnvVar("PGDATABASE", d.name)])
  }

  lemma ClientConnects(d: Database)
    requires HasClient(d) && d.port.Some?
    ensures ConnectsTo(Client(d), d, Decimal.Itoa(d.port.value))
  {
    hide Decimal.Itoa;
  }

  lemma UsualPortsPrinted()
    ensures Decimal.Itoa(3306) == "3306" && Decimal.Itoa(5432) == "5432"
  {
    assert Decimal.Print(33) == "33" && Decimal.Print(54) == "54";
    assert Decimal.Print(330) == "330" && Decimal.Print(543) == "543";
  }

  /** The port a client is told: the submitted one, or the usual one of the kind. */
  function ToldPort(d: Database): string {
    if d.port.Some? then Decimal.Itoa(d.port.value) else if d.kind == "mysql" then "3306" else "5432"
  }

  lemma ChosenPortIsTold(d: Database, port: Option<int32>)
    requires HasClient(d) && PortChosen(d.kind, d.port, port)
    ensures port.Some? && Decimal.Itoa(port.value) == ToldPort(d)
  {
    UsualPortsPrinted();
    hide Decimal.Itoa;
  }

  /** In a pod built after validation, every MySQL or PostgreSQL database target has a sidecar that connects to its
      host and database, on the submitted port or, when none was submitted, on 3306 or 5432. */
  lemma DatabaseHasClient(spec: TaskSpec, sidecars: seq<Container>, i: nat, d: Database)
    requires AreClientsOf(sidecars, Fill(spec).targets, |spec.targets|)
    requires i < |spec.targets| && spec.targets[i].kind == "database" && spec.targets[i].database == Some(d)
    requires d.kind == "mysql" || d.kind == "postgresql"
    ensures exists c :: c in sidecars && ConnectsTo(c, d, ToldPort(d))
  {
    var after := Fill(spec).targets;
    FillChoosesPorts(spec, i);
    hide Fill, Client, PortChosen, ConnectsTo, ToldPort, Decimal.Itoa;
    var e := after[i].database.value;
    ChosenPortIsTold(d, e.port);
    ClientConnects(e);
    SameConnection(Client(e), e, d, ToldPort(d));
    var indices := ClientTargets(after, |after|);
    assert i in indices;
    hide ClientTargets, HasClient;
    var j :| 0 <= j < |indices| && indices[j] == i;
    assert sidecars[j] == Client(e);
  }

  lemma SameConnection(c: Container, d: Database, e: Database, port: string)
    requires ConnectsTo(c, d, port) && d.(port := None) == e.(port := None)
    ensures ConnectsTo(c, e, port)
  {
  }

  const STRAY_DATABASE: Target :=
    Target("settings", "config", Some(Database(MYSQL, "db", None, "app", "secret")), Some(Config([])), None, None)

  lemma StrayDatabase()
    ensures ValidTarget(STRAY_DATABASE) && NilPort(FillTarget(STRAY_DATABASE))
  {
  }

  const NFS_STORAGE: RemoteStorage := RemoteStorage("nfs", None, None, Some(NfsStorage("server", "/export")), None)

  lemma NfsStorageValid()
    ensures ValidStorage(NFS_STORAGE)
  {
  }

  /** The restriction to database targets is needed: an admitted specification on which the builder panics. */
  lemma AdmittedSpecThatPanics() returns (spec: TaskSpec)
    ensures Errors(spec) == [] && |spec.targets| == 1 && NilPort(Fill(spec).targets[0])
  {
    var everyMinute := Cron.Schedule(Cron.Any, Cron.Any, Cron.Any, Cron.Any, Cron.Any);
    assert Cron.Valid(everyMinute);
    StrayDatabase();
    NfsStorageValid();
    hide Cron.Show, Cron.Valid, Errors, ValidStorage, ValidTarget, FillTarget, NilPort, STRAY_DATABASE, NFS_STORAGE;
    spec := TaskSpec(Cron.Show(everyMinute), None, [STRAY_DATABASE], NFS_STORAGE, None, None, "", "");
    SoundAndComplete(spec);
  }

  ghost predicate DistinctNames(containers: seq<Container>) {
    forall j, k :: 0 <= j < k < |containers| ==> containers[j].name != containers[k].name
  }

  predicate SameClient(t: Target, u: Target) {
    IsClientTarget(t) && IsClientTarget(u) && t.database.value.kind == u.database.value.kind
  }

  lemma PairOfSidecars(sidecars: seq<Container>, targets: seq<Target>, a: nat, b: nat)
    requires AreClientsOf(sidecars, targets, |targets|) && a < b < |sidecars|
    ensures var indices := ClientTargets(targets, |targets|);
            && |indices| == |sidecars| && indices[a] < indices[b] < |targets|
            && (sidecars[a].name == sidecars[b].name <==> SameClient(targets[indices[a]], targets[indices[b]]))
  {
    hide Client;
    var indices := ClientTargets(targets, |targets|);
    assert indices[a] in indices && indices[b] in indices;
    SameNameIff(targets[indices[a]].database.value, targets[indices[b]].database.value);
    hide HasClient;
  }

  /** A pod needs distinct container names: the sidecars have them exactly when no two targets share a
      client kind. */
  lemma SidecarNamesDistinctIff(sidecars: seq<Container>, targets: seq<Target>)
    requires AreClientsOf(sidecars, targets, |targets|)
    ensures DistinctNames(sidecars) <==> forall i, k :: 0 <= i < k < |targets| ==> !SameClient(targets[i], targets[k])
  {
    var indices := ClientTargets(targets, |targets|);
    if i, k :| 0 <= i < k < |targets| && SameClient(targets[i], targets[k]) {
      assert i in indices && k in indices && |indices| == |sidecars|;
      hide SameClient, AreClientsOf, ClientTargets;
      var a :| 0 <= a < |indices| && indices[a] == i;
      var b :| 0 <= b < |indices| && indices[b] == k;
      assert a < b;
      PairOfSidecars(sidecars, targets, a, b);
    } else {
      hide SameClient, AreClientsOf;
      forall a, b | 0 <= a < b < |sidecars| ensures sidecars[a].name != sidecars[b].name {
        PairOfSidecars(sidecars, targets, a, b);
      }
    }
  }

  lemma SameNameIff(d: Database, e: Database)
    requires HasClient(d) && HasClient(e) && d.port.Some? && e.port.Some?
    ensures Client(d).name == Client(e).name <==> d.kind == e.kind
  {
    assert MYSQL_CLIENT[0] != POSTGRES_CLIENT[0];
  }
}
