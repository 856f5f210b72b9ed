/** What admission demands of a BackupTask: the field errors as a function of the task's value, the
    declarative meaning of "valid", and what validation and defaulting write. */
module Admission {
  import opened Types
  import Cron

  // ---- field errors ----

  datatype Element = Child(name: string) | Index(i: nat)

  type Path = seq<Element>

  datatype Violation = Required | Invalid(value: Value) | Forbidden

  datatype Value = Text(text: string) | Number(n: int32)

  datatype FieldError = FieldError(path: Path, violation: Violation, detail: string)

  function Missing(path: Path, detail: string): FieldError { FieldError(path, Required, detail) }

  function If(c: bool, e: FieldError): seq<FieldError> { if c then [e] else [] }

  const SPEC: Path := [Child("spec")]

  function TargetPath(i: nat): Path { SPEC + [Child("targets"), Index(i)] }

  /** The well-known port of a database kind. */
  function DefaultPort(kind: string): (port: Option<int32>)
    ensures port.Some? ==> 1 <= port.value <= 65535
  {
    if kind == "mysql" then Some(3306)
    else if kind == "postgresql" then Some(5432)
    else if kind == "mongodb" then Some(27017)
    else if kind == "redis" then Some(6379)
    else None
  }

  function PortErrors(path: Path, d: Database): seq<FieldError> {
    match d.port
    case None => If(DefaultPort(d.kind).None?, Missing(path + [Child("port")], "database port is required"))
    case Some(p) =>
      If(p < 1 || p > 65535,
         FieldError(path + [Child("port")], Invalid(Number(p)), "port must be between 1 and 65535"))
  }

  function DatabaseErrors(path: Path, d: Database): seq<FieldError> {
    If(d.host == "", Missing(path + [Child("host")], "database host is required"))
    + PortErrors(path, d)
    + If(d.authSecret == "", Missing(path + [Child("authSecretRef"), Child("name")], "auth secret name is required"))
  }

  /** Errors of the first n directory paths. */
  function PathErrors(path: Path, paths: seq<DirectoryPath>, n: nat): seq<FieldError>
    requires n <= |paths|
  {
    if n == 0 then []
    else
      PathErrors(path, paths, n - 1)
      + If(paths[n - 1].path == "",
           Missing(path + [Child("paths"), Index(n - 1), Child("path")], "directory path is required"))
  }

  function LevelErrors(path: Path, level: Option<int32>): seq<FieldError> {
    match level
    case None => []
    case Some(n) =>
      If(n < 0 || n > 9,
         FieldError(path + [Child(
                     "compressionLevel")], Invalid(Number(n)), "compression level must be between 0 and 9"))
  }

  function DirectoryErrors(path: Path, d: Directory): seq<FieldError> {
    If(|d.paths| == 0, Missing(path + [Child("paths")], "at least one directory path is required"))
    + PathErrors(path, d.paths, |d.paths|)
    + LevelErrors(path, d.compressionLevel)
  }

  function NfsErrors(path: Path, server: string, dir: string): seq<FieldError> {
    If(server == "", Missing(path + [Child("server")], "nfs server is required"))
    + If(dir == "", Missing(path + [Child("path")], "nfs path is required"))
  }

  /** An unknown kind has no errors. */
  function KindErrors(path: Path, t: Target): seq<FieldError> {
    if t.kind == "database" then
      if t.database.None?
      then [Missing(path + [Child("database")], "database configuration is required for database backup")]
      else DatabaseErrors(path + [Child("database")], t.database.value)
    else if t.kind == "config" then
      If(t.config.None?, Missing(path + [Child("config")], "config configuration is required for config backup"))
    else if t.kind == "directory" then
      if t.directory.None?
      then [Missing(path + [Child("directory")], "directory configuration is required for directory backup")]
      else DirectoryErrors(path + [Child("directory")], t.directory.value)
    else if t.kind == "nfs" then
      if t.nfs.None?
      then [Missing(path + [Child("nfs")], "nfs configuration is required for nfs backup")]
      else NfsErrors(path + [Child("nfs")], t.nfs.value.server, t.nfs.value.path)
    else []
  }

  function TargetErrors(path: Path, t: Target): seq<FieldError> {
    If(t.name == "", Missing(path + [Child("name")], "target name is required")) + KindErrors(path, t)
  }

  /** Errors of the first n targets. */
  function TargetsErrors(targets: seq<Target>, n: nat): seq<FieldError>
    requires n <= |targets|
  {
    if n == 0 then [] else TargetsErrors(targets, n - 1) + TargetErrors(TargetPath(n - 1), targets[n - 1])
  }

  function SecretErrors(path: Path, secret: string): seq<FieldError> {
    If(secret == "", Missing(path + [Child("authSecretRef"), Child("name")], "auth secret name is required"))
  }

  function S3Errors(path: Path, s: S3Storage): seq<FieldError> {
    If(s.endpoint == "", Missing(path + [Child("endpoint")], "s3 endpoint is required"))
    + If(s.bucket == "", Missing(path + [Child("bucket")], "s3 bucket is required"))
    + SecretErrors(path, s.authSecret)
  }

  function SftpErrors(path: Path, s: SftpStorage): seq<FieldError> {
    If(s.host == "", Missing(path + [Child("host")], "sftp host is required"))
    + If(s.path == "", Missing(path + [Child("path")], "sftp path is required"))
    + SecretErrors(path, s.authSecret)
  }

  function SmbErrors(path: Path, s: SmbStorage): seq<FieldError> {
    If(s.server == "", Missing(path + [Child("server")], "smb server is required"))
    + If(s.share == "", Missing(path + [Child("share")], "smb share is required"))
    + SecretErrors(path, s.authSecret)
  }

  function StorageErrors(path: Path, s: RemoteStorage): seq<FieldError> {
    if s.kind == "s3" then
      if s.s3.None? then [Missing(path + [Child("s3")], "s3 configuration is required for s3 storage")]
      else S3Errors(path + [Child("s3")], s.s3.value)
    else if s.kind == "sftp" then
      if s.sftp.None? then [Missing(path + [Child("sftp")], "sftp configuration is required for sftp storage")]
      else SftpErrors(path + [Child("sftp")], s.sftp.value)
    else if s.kind == "nfs" then
      if s.nfs.None? then [Missing(path + [Child("nfs")], "nfs configuration is required for nfs storage")]
      else NfsErrors(path + [Child("nfs")], s.nfs.value.server, s.nfs.value.path)
    else if s.kind == "smb" then
      if s.smb.None? then [Missing(path + [Child("smb")], "smb configuration is required for smb storage")]
      else SmbErrors(path + [Child("smb")], s.smb.value)
    else []
  }

  function EncryptionErrors(path: Path, e: Encryption): seq<FieldError> {
    If(e.keySecret == "",
       Missing(path + [Child("keySecretRef"), Child("name")], "encryption key secret name is required"))
  }

  /** The errors before and after those of the targets. */
  function HeadErrors(schedule: string, targets: nat): seq<FieldError> {
    If(!Cron.IsValidCronSchedule(schedule),
       FieldError(SPEC + [Child("schedule")], Invalid(Text(schedule)), "invalid cron schedule format"))
    + If(targets == 0, Missing(SPEC + [Child("targets")], "at least one backup target is required"))
  }

  function TailErrors(storage: RemoteStorage, encryption: Option<Encryption>): seq<FieldError> {
    StorageErrors(SPEC + [Child("remoteStorage")], storage)
    + if encryption.Some? && encryption.value.enabled
      then EncryptionErrors(SPEC + [Child("encryption")], encryption.value) else []
  }

  function Errors(spec: TaskSpec): seq<FieldError> {
    HeadErrors(spec.schedule, |spec.targets|)
    + TargetsErrors(spec.targets, |spec.targets|)
    + TailErrors(spec.remoteStorage, spec.encryption)
  }

  // ---- what valid means ----

  predicate ValidDatabase(d: Database) {
    && d.host != "" && d.authSecret != ""
    && match d.port
       case Some(p) => 1 <= p <= 65535
       case None => d.kind in {"mysql", "postgresql", "mongodb", "redis"}
  }

  predicate ValidDirectory(d: Directory) {
    && d.paths != [] && (forall p :: p in d.paths ==> p.path != "")
    && (d.compressionLevel.Some? ==> 0 <= d.compressionLevel.value <= 9)
  }

  predicate ValidTarget(t: Target) {
    && t.name != ""
    && (t.kind == "database" ==> t.database.Some? && ValidDatabase(t.database.value))
    && (t.kind == "config" ==> t.config.Some?)
    && (t.kind == "directory" ==> t.directory.Some? && ValidDirectory(t.directory.value))
    && (t.kind == "nfs" ==> t.nfs.Some? && t.nfs.value.server != "" && t.nfs.value.path != "")
  }

  predicate ValidStorage(s: RemoteStorage) {
    && (s.kind == "s3" ==> s.s3.Some? && "" !in [s.s3.value.endpoint, s.s3.value.bucket, s.s3.value.authSecret])
    && (s.kind == "sftp" ==> s.sftp.Some? && "" !in [s.sftp.value.host, s.sftp.value.path, s.sftp.value.authSecret])
    && (s.kind == "nfs" ==> s.nfs.Some? && "" !in [s.nfs.value.server, s.nfs.value.path])
    && (s.kind == "smb" ==> s.smb.Some? && "" !in [s.smb.value.server, s.smb.value.share, s.smb.value.authSecret])
  }

  ghost predicate ValidSpec(spec: TaskSpec) {
    && (exists x :: Cron.Valid(x) && spec.schedule == Cron.Show(x))
    && spec.targets != []
    && (forall i :: 0 <= i < |spec.targets| ==> ValidTarget(spec.targets[i]))
    && ValidStorage(spec.remoteStorage)
    && (spec.encryption.Some? && spec.encryption.value.enabled ==> spec.encryption.value.keySecret != "")
  }

  // ---- what validation writes ----

  function FillPort(d: Database): Database {
    if d.port.None? then d.(port := DefaultPort(d.kind)) else d
  }

  /** Ports are filled in for database targets only. */
  function FillTarget(t: Target): Target {
    if t.kind == "database" && t.database.Some? then t.(database := Some(FillPort(t.database.value))) else t
  }

  function FillTargets(targets: seq<Target>): seq<Target> {
    seq(|targets|, i requires 0 <= i < |targets| => FillTarget(targets[i]))
  }

  function Fill(spec: TaskSpec): TaskSpec { spec.(targets := FillTargets(spec.targets)) }

  // ---- defaulting ----

  function DefaultEncryption(e: Encryption): Encryption {
    e.(algorithm := if e.enabled && e.algorithm == "" then "aes-256-gcm" else e.algorithm,
       encryptAfterCompress := if e.encryptAfterCompress.None? then Some(true) else e.encryptAfterCompress)
  }

  function Defaulted(spec: TaskSpec): TaskSpec {
    spec.(podTemplate := if spec.podTemplate.None? then Some(PodTemplate(map[])) else spec.podTemplate,
          encryption := if spec.encryption.None? then None else Some(DefaultEncryption(spec.encryption.value)))
  }
}
