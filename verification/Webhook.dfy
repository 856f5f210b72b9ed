/** The webhook's own form: validators that collect errors in loops and fill in ports through pointers. */
module Webhook {
  import opened Types
  import opened Admission
  import opened AdmissionProperties
  import Cron

  /** A DatabaseBackupSpec, held by pointer. */
  class DatabaseSpec {
    var kind: string
    var host: string
    var port: Option<int32>
    var name: string
    var authSecret: string

    function Value(): Database
      reads this
    {
      Database(kind, host, port, name, authSecret)
    }

    constructor (d: Database)
      ensures Value() == d
    {
      kind, host, port, name, authSecret := d.kind, d.host, d.port, d.name, d.authSecret;
    }
  }

  /** An EncryptionSpec, held by pointer. */
  class EncryptionSpec {
    var enabled: bool
    var algorithm: string
    var keySecret: string
    var encryptAfterCompress: Option<bool>

    function Value(): Encryption
      reads this
    {
      Encryption(enabled, algorithm, keySecret, encryptAfterCompress)
    }
  }

  /** A target; its database part may be shared with other targets. */
  datatype BackupTarget = BackupTarget(
    name: string, kind: string,
    database: DatabaseSpec?, config: Option<Config>, directory: Option<Directory>, nfs: Option<Nfs>)

  function TargetValue(t: BackupTarget): Target
    reads t.database
  {
    Target(t.name, t.kind, if t.database == null then None else Some(t.database.Value()), t.config, t.directory, t.nfs)
  }

  ghost function Databases(targets: seq<BackupTarget>): set<DatabaseSpec> {
    set i | 0 <= i < |targets| && targets[i].database != null :: targets[i].database
  }

  /** The databases whose port is filled in when the first n targets are validated. */
  ghost function Visited(targets: seq<BackupTarget>, n: nat): set<DatabaseSpec>
    requires n <= |targets|
  {
    set i | 0 <= i < n && targets[i].kind == "database" && targets[i].database != null :: targets[i].database
  }

  ghost function TargetValues(targets: seq<BackupTarget>): (values: seq<Target>)
    reads Databases(targets)
    ensures |values| == |targets|
    ensures forall i :: 0 <= i < |targets| ==> values[i] == TargetValue(targets[i])
  {
    seq(|targets|, i requires 0 <= i < |targets| reads Databases(targets) =>
      assert targets[i].database == null || targets[i].database in Databases(targets);
      TargetValue(targets[i]))
  }

  /** No two targets share a database object, as in a decoded request. */
  ghost predicate NoSharing(targets: seq<BackupTarget>) {
    forall i, j :: 0 <= i < j < |targets| && targets[i].database != null ==> targets[i].database != targets[j].database
  }

  /** What validating the first n targets leaves in the databases. */
  twostate predicate PortsFilled(targets: seq<BackupTarget>, n: nat)
    requires n <= |targets|
    reads Databases(targets)
  {
    forall d :: d in Databases(targets) ==>
      d.Value() == if d in Visited(targets, n) then FillPort(old(d.Value())) else old(d.Value())
  }

  /** The ports of the databases of database targets have been chosen, and the databases are otherwise as before. */
  twostate predicate PortsChosen(targets: seq<BackupTarget>)
    reads Databases(targets)
  {
    forall d :: d in Databases(targets) ==>
      && (d.kind, d.host, d.name, d.authSecret) == old((d.kind, d.host, d.name, d.authSecret))
      && if exists i :: 0 <= i < |targets| && targets[i].kind == "database" && targets[i].database == d
         then PortChosen(d.kind, old(d.port), d.port) else d.port == old(d.port)
  }

  twostate lemma FilledIsChosen(targets: seq<BackupTarget>)
    requires PortsFilled(targets, |targets|)
    ensures PortsChosen(targets)
  {
    hide FillPort, PortChosen;
    forall d | d in Databases(targets)
      ensures (d.kind, d.host, d.name, d.authSecret) == old((d.kind, d.host, d.name, d.authSecret))
      ensures if exists i :: 0 <= i < |targets| && targets[i].kind == "database" && targets[i].database == d
              then PortChosen(d.kind, old(d.port), d.port) else d.port == old(d.port)
    {
      FillPortChooses(old(d.Value()));
      assert d in Visited(targets, |targets|) <==>
        exists i :: 0 <= i < |targets| && targets[i].kind == "database" && targets[i].database == d;
    }
  }

  method ValidateDatabaseSpec(path: Path, spec: DatabaseSpec) returns (errors: seq<FieldError>)
    modifies spec`port
    ensures errors == DatabaseErrors(path, old(spec.Value()))
    ensures spec.Value() == FillPort(old(spec.Value()))
    ensures PortChosen(spec.kind, old(spec.port), spec.port)
  {
    FillPortChooses(spec.Value());
    hide PortChosen;
    errors := [];
    if spec.host == "" {
      errors := errors + [Missing(path + [Child("host")], "database host is required")];
    }
    if spec.port.None? {
      match spec.kind {
        case "mysql" => spec.port := Some(3306);
        case "postgresql" => spec.port := Some(5432);
        case "mongodb" => spec.port := Some(27017);
        case "redis" => spec.port := Some(6379);
        case _ => errors := errors + [Missing(path + [Child("port")], "database port is required")];
      }
    } else if spec.port.value < 1 || spec.port.value > 65535 {
      errors := errors +
        [FieldError(path + [Child("port")], Invalid(Number(spec.port.value)), "port must be between 1 and 65535")];
    }
    if spec.authSecret == "" {
      errors := errors + [Missing(path + [Child("authSecretRef"), Child("name")], "auth secret name is required")];
    }
  }

  /** The last part of validateDirectorySpec. */
  method ValidateLevel(path: Path, level: Option<int32>) returns (errors: seq<FieldError>)
    ensures errors == LevelErrors(path, level)
  {
    errors := [];
    if level.Some? && (level.value < 0 || level.value > 9) {
      errors := [FieldError(path + [Child("compressionLevel")], Invalid(Number(level.value)),
                            "compression level must be between 0 and 9")];
    }
  }

  method ValidateDirectorySpec(path: Path, spec: Directory) returns (errors: seq<FieldError>)
    ensures errors == DirectoryErrors(path, spec)
  {
    errors := [];
    if |spec.paths| == 0 {
      errors := errors + [Missing(path + [Child("paths")], "at least one directory path is required")];
    }
    ghost var head := errors;
    hide LevelErrors;
    for i := 0 to |spec.paths|
      invariant errors == head + PathErrors(path, spec.paths, i)
    {
      if spec.paths[i].path == "" {
        errors := errors + [Missing(path + [Child("paths"), Index(i), Child("path")], "directory path is required")];
      }
    }
    hide PathErrors;
    var more := ValidateLevel(path, spec.compressionLevel);
    errors := errors + more;
  }

  method ValidateNfsSpec(path: Path, server: string, dir: string) returns (errors: seq<FieldError>)
    ensures errors == NfsErrors(path, server, dir)
  {
    errors := [];
    if server == "" {
      errors := errors + [Missing(path + [Child("server")], "nfs server is required")];
    }
    if dir == "" {
      errors := errors + [Missing(path + [Child("path")], "nfs path is required")];
    }
  }

  method ValidateTarget(path: Path, target: BackupTarget) returns (errors: seq<FieldError>)
    modifies (if target.database == null then {} else {target.database})`port
    ensures errors == TargetErrors(path, old(TargetValue(target)))
    ensures TargetValue(target) == FillTarget(old(TargetValue(target)))
  {
    hide DatabaseErrors, DirectoryErrors, NfsErrors, FillPort, PortChosen;
    errors := [];
    if target.name == "" {
      errors := errors + [Missing(path + [Child("name")], "target name is required")];
    }
    match target.kind {
      case "database" =>
        if target.database == null {
          errors := errors +
            [Missing(path + [Child("database")], "database configuration is required for database backup")];
        } else {
          var more := ValidateDatabaseSpec(path + [Child("database")], target.database);
          errors := errors + more;
        }
      case "config" =>
        if target.config.None? {
          errors := errors + [Missing(path + [Child("config")], "config configuration is required for config backup")];
        }
      case "directory" =>
        if target.directory.None? {
          errors := errors +
            [Missing(path + [Child("directory")], "directory configuration is required for directory backup")];
        } else {
          var more := ValidateDirectorySpec(path + [Child("directory")], target.directory.value);
          errors := errors + more;
        }
      case "nfs" =>
        if target.nfs.None? {
          errors := errors + [Missing(path + [Child("nfs")], "nfs configuration is required for nfs backup")];
        } else {
          var more := ValidateNfsSpec(path + [Child("nfs")], target.nfs.value.server, target.nfs.value.path);
          errors := errors + more;
        }
      case _ =>
    }
  }

  /** A target as its database object's former value shows it, when the first n targets have been validated. */
  ghost predicate Shows(targets: seq<BackupTarget>, n: nat, i: nat, was: Target, now: Target)
    requires n <= |targets| && i < |targets|
  {
    && was.(database := None) == now.(database := None) && was.kind == targets[i].kind
    && was.database.Some? == now.database.Some? == (targets[i].database != null)
    && (targets[i].database != null ==>
          now.database.value == if targets[i].database in Visited(targets, n)
                                then FillPort(was.database.value) else was.database.value)
  }

  lemma ShowsSame(targets: seq<BackupTarget>, n: nat, i: nat, was: Target, now: Target)
    requires n <= |targets| && i < |targets| && Shows(targets, n, i, was, now)
    ensures SameButPorts(was, now)
    ensures targets[i].kind == "database" && i < n ==> now == FillTarget(was)
  {
    hide FillPort;
  }

  lemma VisitedStep(targets: seq<BackupTarget>, n: nat)
    requires n < |targets|
    ensures Visited(targets, n + 1) == Visited(targets, n) +
            if targets[n].kind == "database" && targets[n].database != null then {targets[n].database} else {}
  {
  }

  /** The ports as they are when the first n targets have been validated, given what the databases were. */
  ghost predicate FilledFrom(targets: seq<BackupTarget>, n: nat, was: map<DatabaseSpec, Database>)
    requires n <= |targets|
    reads Databases(targets)
  {
    forall d :: d in Databases(targets) ==>
      d in was && d.Value() == if d in Visited(targets, n) then FillPort(was[d]) else was[d]
  }

  /** The loop body of ValidateTargets. */
  method ValidateNth(targets: seq<BackupTarget>, i: nat, ghost before: map<DatabaseSpec, Database>, ghost was: Target)
    returns (errors: seq<FieldError>)
    requires i < |targets| && FilledFrom(targets, i, before)
    requires was.(database := None) == TargetValue(targets[i]).(database := None)
    requires was.database ==
             if targets[i].database != null && targets[i].database in before
             then Some(before[targets[i].database]) else None
    modifies Databases(targets)`port
    ensures errors == TargetErrors(TargetPath(i), was)
    ensures FilledFrom(targets, i + 1, before)
  {
    hide FillPort, TargetErrors, SameButPorts;
    ghost var now := TargetValue(targets[i]);
    assert targets[i].database == null || targets[i].database in Databases(targets);
    ShowsSame(targets, i, i, was, now);
    TargetErrorsSame(TargetPath(i), was, now);
    errors := ValidateTarget(TargetPath(i), targets[i]);
    VisitedStep(targets, i);
    hide Visited;
    forall d | d in Databases(targets)
      ensures d.Value() == if d in Visited(targets, i + 1) then FillPort(before[d]) else before[d]
    {
      FillPortKeepsErrors([], before[d]);
    }
  }

  method ValidateTargets(targets: seq<BackupTarget>) returns (errors: seq<FieldError>)
    modifies Databases(targets)`port
    ensures errors == TargetsErrors(old(TargetValues(targets)), |targets|)
    ensures PortsFilled(targets, |targets|) && PortsChosen(targets)
  {
    hide FillPort, TargetErrors, Visited, PortsChosen;
    errors := [];
    ghost var was := TargetValues(targets);
    ghost var before := map d | d in Databases(targets) :: d.Value();
    NothingVisited(targets);
    for i := 0 to |targets|
      invariant errors == TargetsErrors(was, i)
      invariant FilledFrom(targets, i, before)
    {
      assert targets[i].database == null || targets[i].database in Databases(targets);
      var more := ValidateNth(targets, i, before, was[i]);
      errors := errors + more;
    }
    FilledIsChosen(targets);
  }

  lemma NothingVisited(targets: seq<BackupTarget>)
    ensures Visited(targets, 0) == {}
  {
  }

  method ValidateS3(path: Path, s: S3Storage) returns (errors: seq<FieldError>)
    ensures errors == S3Errors(path, s)
  {
    errors := [];
    if s.endpoint == "" {
      errors := errors + [Missing(path + [Child("endpoint")], "s3 endpoint is required")];
    }
    if s.bucket == "" {
      errors := errors + [Missing(path + [Child("bucket")], "s3 bucket is required")];
    }
    if s.authSecret == "" {
      errors := errors + [Missing(path + [Child("authSecretRef"), Child("name")], "auth secret name is required")];
    }
  }

  method ValidateSftp(path: Path, s: SftpStorage) returns (errors: seq<FieldError>)
    ensures errors == SftpErrors(path, s)
  {
    errors := [];
    if s.host == "" {
      errors := errors + [Missing(path + [Child("host")], "sftp host is required")];
    }
    if s.path == "" {
      errors := errors + [Missing(path + [Child("path")], "sftp path is required")];
    }
    if s.authSecret == "" {
      errors := errors + [Missing(path + [Child("authSecretRef"), Child("name")], "auth secret name is required")];
    }
  }

  method ValidateSmb(path: Path, s: SmbStorage) returns (errors: seq<FieldError>)
    ensures errors == SmbErrors(path, s)
  {
    errors := [];
    if s.server == "" {
      errors := errors + [Missing(path + [Child("server")], "smb server is required")];
    }
    if s.share == "" {
      errors := errors + [Missing(path + [Child("share")], "smb share is required")];
    }
    if s.authSecret == "" {
      errors := errors + [Missing(path + [Child("authSecretRef"), Child("name")], "auth secret name is required")];
    }
  }

  method ValidateRemoteStorage(path: Path, spec: RemoteStorage) returns (errors: seq<FieldError>)
    ensures errors == StorageErrors(path, spec)
  {
    hide S3Errors, SftpErrors, NfsErrors, SmbErrors;
    errors := [];
    match spec.kind {
      case "s3" =>
        if spec.s3.None? {
          errors := [Missing(path + [Child("s3")], "s3 configuration is required for s3 storage")];
        } else {
          errors := ValidateS3(path + [Child("s3")], spec.s3.value);
        }
      case "sftp" =>
        if spec.sftp.None? {
          errors := [Missing(path + [Child("sftp")], "sftp configuration is required for sftp storage")];
        } else {
          errors := ValidateSftp(path + [Child("sftp")], spec.sftp.value);
        }
      case "nfs" =>
        if spec.nfs.None? {
          errors := [Missing(path + [Child("nfs")], "nfs configuration is required for nfs storage")];
        } else {
          errors := ValidateNfsSpec(path + [Child("nfs")], spec.nfs.value.server, spec.nfs.value.path);
        }
      case "smb" =>
        if spec.smb.None? {
          errors := [Missing(path + [Child("smb")], "smb configuration is required for smb storage")];
        } else {
          errors := ValidateSmb(path + [Child("smb")], spec.smb.value);
        }
      case _ =>
    }
  }

  datatype StatusError =
    | BadRequest(message: string)
    | InvalidObject(group: string, kind: string, name: string, errors: seq<FieldError>)

  function Rejected(name: string, errors: seq<FieldError>): Option<StatusError> {
    if errors == [] then None else Some(InvalidObject("backup.yourcompany.com", "BackupTask", name, errors))
  }

  lemma ErrorsAssembled(spec: TaskSpec, errors: seq<FieldError>)
    requires errors ==
             HeadErrors(spec.schedule, |spec.targets|) + TargetsErrors(spec.targets, |spec.targets|)
             + StorageErrors(SPEC + [Child("remoteStorage")], spec.remoteStorage)
             + if spec.encryption.Some? && spec.encryption.value.enabled
               then EncryptionErrors(SPEC + [Child("encryption")], spec.encryption.value) else []
    ensures errors == Errors(spec)
  {
    hide HeadErrors, TargetsErrors, StorageErrors, EncryptionErrors;
  }

  class BackupTask {
    var name: string
    var schedule: string
    var retention: Option<RetentionPolicy>
    var targets: seq<BackupTarget>
    var remoteStorage: RemoteStorage
    var encryption: EncryptionSpec?
    var podTemplate: Option<PodTemplate>
    var backupImage: string
    var backupCmd: string

    ghost function Value(): TaskSpec
      reads this, encryption, Databases(targets)
    {
      TaskSpec(schedule, retention, TargetValues(targets), remoteStorage,
               if encryption == null then None else Some(encryption.Value()), podTemplate, backupImage, backupCmd)
    }

    method Default()
      modifies this`podTemplate, encryption
      ensures Value() == Defaulted(old(Value()))
      ensures DefaultsSet(old(Value()), Value())
    {
      if podTemplate.None? {
        podTemplate := Some(PodTemplate(map[]));
      }
      if encryption != null && encryption.enabled && encryption.algorithm == "" {
        encryption.algorithm := "aes-256-gcm";
      }
      if encryption != null && encryption.encryptAfterCompress.None? {
        encryption.encryptAfterCompress := Some(true);
      }
    }

    method ValidateEncryption(path: Path) returns (errors: seq<FieldError>)
      requires encryption != null
      ensures errors == EncryptionErrors(path, encryption.Value())
    {
      errors := [];
      if encryption.keySecret == "" {
        errors := [Missing(path + [Child("keySecretRef"), Child("name")], "encryption key secret name is required")];
      }
    }

    /** The errors are those of the object as it came in; afterwards the visited databases have their default
        ports, a second validation would report and write the same, and nothing else has changed. */
    method ValidateBackupTask() returns (err: Option<StatusError>)
      modifies Databases(targets)`port
      ensures err == Rejected(name, Errors(old(Value())))
      ensures PortsFilled(targets, |targets|) && PortsChosen(targets)
      ensures Errors(Value()) == Errors(old(Value()))
      ensures NoSharing(targets) ==> Value() == Fill(old(Value()))
    {
      hide TargetsErrors, StorageErrors, EncryptionErrors, Cron.IsValidCronSchedule;
      hide Fill, PortsFilled, PortsChosen, NoSharing;
      ghost var was := Value();
      var errors: seq<FieldError> := [];
      if !Cron.IsValidCronSchedule(schedule) {
        errors := errors +
          [FieldError(SPEC + [Child("schedule")], Invalid(Text(schedule)), "invalid cron schedule format")];
      }
      if |targets| == 0 {
        errors := errors + [Missing(SPEC + [Child("targets")], "at least one backup target is required")];
      }
      assert errors == HeadErrors(schedule, |targets|);
      hide HeadErrors;
      var more := ValidateTargets(targets);
      errors := errors + more;
      more := ValidateRemoteStorage(SPEC + [Child("remoteStorage")], remoteStorage);
      errors := errors + more;
      if encryption != null && encryption.enabled {
        more := ValidateEncryption(SPEC + [Child("encryption")]);
        errors := errors + more;
      }
      ErrorsAssembled(was, errors);
      AfterValidation();
      return if |errors| == 0 then None else Some(InvalidObject("backup.yourcompany.com", "BackupTask", name, errors));
    }

    twostate lemma AfterValidation()
      requires old(targets) == targets && PortsFilled(targets, |targets|)
      requires old(Value()).(targets := []) == Value().(targets := [])
      ensures Errors(Value()) == Errors(old(Value()))
      ensures NoSharing(targets) ==> Value() == Fill(old(Value()))
    {
      hide TargetsErrors, HeadErrors, TailErrors;
      ghost var (was, now) := (old(TargetValues(targets)), TargetValues(targets));
      forall i | 0 <= i < |targets| ensures SameButPorts(was[i], now[i]) {
        assert targets[i].database == null || targets[i].database in Databases(targets);
        ShowsSame(targets, |targets|, i, was[i], now[i]);
      }
      TargetsErrorsSame(was, now, |targets|);
      if NoSharing(targets) {
        forall i | 0 <= i < |targets| ensures now[i] == FillTarget(was[i]) {
          assert targets[i].database == null || targets[i].database in Databases(targets);
          ShowsSame(targets, |targets|, i, was[i], now[i]);
          if targets[i].database != null && targets[i].kind != "database" {
            assert targets[i].database !in Visited(targets, |targets|);
          }
        }
        assert now == FillTargets(was);
      }
    }

    method ValidateCreate() returns (err: Option<StatusError>)
      modifies Databases(targets)`port
      ensures err == Rejected(name, Errors(old(Value())))
      ensures PortsFilled(targets, |targets|) && PortsChosen(targets)
      ensures NoSharing(targets) ==> Value() == Fill(old(Value()))
    {
      err := ValidateBackupTask();
    }

    /** The schedule is immutable. */
    method ValidateUpdate(previous: object?) returns (err: Option<StatusError>)
      modifies Databases(targets)`port
      ensures !(previous is BackupTask) ==> err == Some(BadRequest("expected a BackupTask object"))
      ensures previous is BackupTask ==>
        err == UpdateVerdict(name, old((previous as BackupTask).schedule), old(Value()))
      ensures !(previous is BackupTask) || old((previous as BackupTask).schedule) != schedule ==>
        forall d :: d in Databases(targets) ==> d.Value() == old(d.Value())
      ensures previous is BackupTask && old((previous as BackupTask).schedule) == schedule ==>
        PortsFilled(targets, |targets|) && PortsChosen(targets)
    {
      if !(previous is BackupTask) {
        return Some(BadRequest("expected a BackupTask object"));
      }
      var oldTask := previous as BackupTask;
      if schedule != oldTask.schedule {
        var errors := [FieldError(SPEC + [Child("schedule")], Forbidden, "schedule cannot be modified")];
        return Some(InvalidObject("backup.mybackup.com", "BackupTask", name, errors));
      }
      err := ValidateBackupTask();
    }
  }

  function UpdateVerdict(name: string, oldSchedule: string, spec: TaskSpec): Option<StatusError> {
    if spec.schedule != oldSchedule
    then Some(InvalidObject("backup.mybackup.com", "BackupTask", name,
                            [FieldError(SPEC + [Child("schedule")], Forbidden, "schedule cannot be modified")]))
    else Rejected(name, Errors(spec))
  }

  /** An update is accepted exactly when it keeps the schedule and is valid. */
  lemma UpdateAcceptedIff(name: string, oldSchedule: string, spec: TaskSpec)
    ensures UpdateVerdict(name, oldSchedule, spec).None? <==> spec.schedule == oldSchedule && ValidSpec(spec)
  {
    SoundAndComplete(spec);
    hide Errors, ValidSpec;
  }

  /** Hence a task that was stored with a schedule the recogniser refuses can never be updated again. */
  lemma BadScheduleIsStuck(name: string, oldSchedule: string, spec: TaskSpec)
    requires Cron.Parse(oldSchedule).None?
    ensures UpdateVerdict(name, oldSchedule, spec).Some?
  {
    UpdateAcceptedIff(name, oldSchedule, spec);
    forall x | Cron.Valid(x) ensures Cron.Show(x) != oldSchedule {
      Cron.ParseIff(oldSchedule, x);
    }
    hide UpdateVerdict, Cron.Parse, Cron.Show, Cron.Valid;
  }
}
