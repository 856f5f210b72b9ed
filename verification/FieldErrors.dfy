/** Field by field: validation blames exactly the bad fields, each at its own path and with the right reason. */
module FieldErrors {
  import opened Types
  import opened Admission
  import Cron

  /** Some error blames the field at this path in this way. */
  ghost predicate Blames(errors: seq<FieldError>, path: Path, v: Violation) {
    exists e :: e in errors && e.path == path && e.violation == v
  }

  // ---- which fields are bad ----

  predicate Blank(text: string, v: Violation) { text == "" && v == Required }

  /** Paths are relative to the database part. */
  predicate BadDatabaseField(d: Database, f: Path, v: Violation) {
    || (f == [Child("host")] && Blank(d.host, v))
    || (f == [Child("port")] && d.port.None? && v == Required
        && d.kind !in {"mysql", "postgresql", "mongodb", "redis"})
    || (f == [Child("port")] && d.port.Some? && !(1 <= d.port.value <= 65535) && v == Invalid(Number(d.port.value)))
    || (f == [Child("authSecretRef"), Child("name")] && Blank(d.authSecret, v))
  }

  predicate BadDirectoryField(d: Directory, f: Path, v: Violation) {
    || (f == [Child("paths")] && d.paths == [] && v == Required)
    || (|f| == 3 && f[0] == Child("paths") && f[1].Index? && f[2] == Child("path")
        && f[1].i < |d.paths| && Blank(d.paths[f[1].i].path, v))
    || (f == [Child("compressionLevel")] && d.compressionLevel.Some?
        && !(0 <= d.compressionLevel.value <= 9) && v == Invalid(Number(d.compressionLevel.value)))
  }

  predicate BadNfsField(server: string, dir: string, f: Path, v: Violation) {
    || (f == [Child("server")] && Blank(server, v))
    || (f == [Child("path")] && Blank(dir, v))
  }

  /** Paths are relative to the target; only the part its kind names is looked at. */
  predicate BadTargetField(t: Target, f: Path, v: Violation) {
    (f == [Child("name")] && Blank(t.name, v)) || BadKindField(t, f, v)
  }

  predicate BadKindField(t: Target, f: Path, v: Violation) {
    || (t.kind == "database" && f != [] && f[0] == Child("database") &&
        if t.database.None? then f == [f[0]] && v == Required else BadDatabaseField(t.database.value, f[1..], v))
    || (t.kind == "config" && f == [Child("config")] && t.config.None? && v == Required)
    || (t.kind == "directory" && f != [] && f[0] == Child("directory") &&
        if t.directory.None? then f == [f[0]] && v == Required else BadDirectoryField(t.directory.value, f[1..], v))
    || (t.kind == "nfs" && f != [] && f[0] == Child("nfs") &&
        if t.nfs.None? then f == [f[0]] && v == Required
        else BadNfsField(t.nfs.value.server, t.nfs.value.path, f[1..], v))
  }

  predicate BadSecretField(secret: string, f: Path, v: Violation) {
    f == [Child("authSecretRef"), Child("name")] && Blank(secret, v)
  }

  predicate BadS3Field(s: S3Storage, f: Path, v: Violation) {
    || (f == [Child("endpoint")] && Blank(s.endpoint, v))
    || (f == [Child("bucket")] && Blank(s.bucket, v))
    || BadSecretField(s.authSecret, f, v)
  }

  predicate BadSftpField(s: SftpStorage, f: Path, v: Violation) {
    || (f == [Child("host")] && Blank(s.host, v))
    || (f == [Child("path")] && Blank(s.path, v))
    || BadSecretField(s.authSecret, f, v)
  }

  predicate BadSmbField(s: SmbStorage, f: Path, v: Violation) {
    || (f == [Child("server")] && Blank(s.server, v))
    || (f == [Child("share")] && Blank(s.share, v))
    || BadSecretField(s.authSecret, f, v)
  }

  predicate BadStorageField(s: RemoteStorage, f: Path, v: Violation) {
    f != [] &&
    (|| (s.kind == "s3" && f[0] == Child("s3") &&
         if s.s3.None? then f == [f[0]] && v == Required else BadS3Field(s.s3.value, f[1..], v))
     || (s.kind == "sftp" && f[0] == Child("sftp") &&
         if s.sftp.None? then f == [f[0]] && v == Required else BadSftpField(s.sftp.value, f[1..], v))
     || (s.kind == "nfs" && f[0] == Child("nfs") &&
         if s.nfs.None? then f == [f[0]] && v == Required
         else BadNfsField(s.nfs.value.server, s.nfs.value.path, f[1..], v))
     || (s.kind == "smb" && f[0] == Child("smb") &&
         if s.smb.None? then f == [f[0]] && v == Required else BadSmbField(s.smb.value, f[1..], v)))
  }

  /** Absolute paths. */
  ghost predicate BadField(spec: TaskSpec, path: Path, v: Violation) {
    |path| >= 2 && path[0] == Child("spec") &&
    (|| (path[1..] == [Child("schedule")] && v == Invalid(Text(spec.schedule))
         && !exists x :: Cron.Valid(x) && spec.schedule == Cron.Show(x))
     || (path[1..] == [Child("targets")] && spec.targets == [] && v == Required)
     || (path[1] == Child("targets") && |path| >= 3 && path[2].Index? && path[2].i < |spec.targets|
         && BadTargetField(spec.targets[path[2].i], path[3..], v))
     || (path[1] == Child("remoteStorage") && BadStorageField(spec.remoteStorage, path[2..], v))
     || (path[1] == Child("encryption") && spec.encryption.Some? && spec.encryption.value.enabled
         && path[2..] == [Child("keySecretRef"), Child("name")] && Blank(spec.encryption.value.keySecret, v)))
  }

  // ---- the errors blame exactly those ----

  lemma BlamesConcat(a: seq<FieldError>, b: seq<FieldError>, path: Path, v: Violation)
    ensures Blames(a + b, path, v) <==> Blames(a, path, v) || Blames(b, path, v)
  {
  }

  lemma BlamesIf(c: bool, e: FieldError, path: Path, v: Violation)
    ensures Blames(If(c, e), path, v) <==> c && e.path == path && e.violation == v
    ensures !Blames([], path, v)
  {
    if c {
      assert e in If(c, e);
    }
  }

  /** The path lies below the prefix and goes on with f. */
  predicate Below(prefix: Path, path: Path) { |prefix| <= |path| && path[..|prefix|] == prefix }

  lemma PathBelow(prefix: Path, f: Path, path: Path)
    ensures prefix + f == path <==> Below(prefix, path) && path[|prefix|..] == f
  {
  }

  /** One field of a part. */
  lemma FieldBlames(c: bool, prefix: Path, f: Path, violation: Violation, detail: string, path: Path, v: Violation)
    ensures Blames(If(c, FieldError(prefix + f, violation, detail)), path, v) <==>
            Below(prefix, path) && path[|prefix|..] == f && c && v == violation
  {
    BlamesIf(c, FieldError(prefix + f, violation, detail), path, v);
    PathBelow(prefix, f, path);
  }

  lemma PortBlames(prefix: Path, d: Database, path: Path, v: Violation)
    ensures Blames(PortErrors(prefix, d), path, v) <==>
            && Below(prefix, path) && path[|prefix|..] == [Child("port")]
            && (if d.port.None? then d.kind !in {"mysql", "postgresql", "mongodb", "redis"} && v == Required
                else !(1 <= d.port.value <= 65535) && v == Invalid(Number(d.port.value)))
  {
    hide Blames, If, Below;
    match d.port
    case None =>
      FieldBlames(DefaultPort(d.kind).None?, prefix, [Child("port")], Required, "database port is required", path, v);
    case Some(p) =>
      FieldBlames(p < 1 || p > 65535, prefix, [Child("port")], Invalid(Number(p)),
        "port must be between 1 and 65535", path, v);
  }

  lemma SecretBlames(prefix: Path, secret: string, path: Path, v: Violation)
    ensures Blames(SecretErrors(prefix, secret), path, v) <==>
            Below(prefix, path) && BadSecretField(secret, path[|prefix|..], v)
  {
    hide Blames, If, Below;
    FieldBlames(secret == "", prefix, [Child("authSecretRef"), Child("name")], Required,
      "auth secret name is required", path, v);
  }

  lemma DatabaseBlames(prefix: Path, d: Database, path: Path, v: Violation)
    ensures Blames(DatabaseErrors(prefix, d), path, v) <==>
            Below(prefix, path) && BadDatabaseField(d, path[|prefix|..], v)
  {
    hide Blames, If, Below, PortErrors;
    var host := If(d.host == "", Missing(prefix + [Child("host")], "database host is required"));
    var port := PortErrors(prefix, d);
    BlamesConcat(host + port, SecretErrors(prefix, d.authSecret), path, v);
    BlamesConcat(host, port, path, v);
    FieldBlames(d.host == "", prefix, [Child("host")], Required, "database host is required", path, v);
    PortBlames(prefix, d, path, v);
    SecretBlames(prefix, d.authSecret, path, v);
  }

  predicate BadPath(paths: seq<DirectoryPath>, n: nat, f: Path, v: Violation)
    requires n <= |paths|
  {
    |f| == 3 && f[0] == Child("paths") && f[1].Index? && f[2] == Child("path")
    && f[1].i < n && Blank(paths[f[1].i].path, v)
  }

  lemma {:induction false} PathsBlame(prefix: Path, paths: seq<DirectoryPath>, n: nat, path: Path, v: Violation)
    requires n <= |paths|
    ensures Blames(PathErrors(prefix, paths, n), path, v) <==>
            Below(prefix, path) && BadPath(paths, n, path[|prefix|..], v)
  {
    var rest := if Below(prefix, path) then path[|prefix|..] else [];
    hide Blames, If, Below;
    if n == 0 {
      BlamesIf(false, FieldError([], Required, ""), path, v);
      assert !BadPath(paths, 0, rest, v);
    } else {
      var f := [Child("paths"), Index(n - 1), Child("path")];
      PathsBlame(prefix, paths, n - 1, path, v);
      BlamesConcat(PathErrors(prefix, paths, n - 1),
        If(paths[n - 1].path == "", Missing(prefix + f, "directory path is required")), path, v);
      FieldBlames(paths[n - 1].path == "", prefix, f, Required, "directory path is required", path, v);
      assert BadPath(paths, n, rest, v) <==>
        BadPath(paths, n - 1, rest, v) || (rest == f && paths[n - 1].path == "" && v == Required);
    }
  }

  lemma LevelBlames(prefix: Path, level: Option<int32>, path: Path, v: Violation)
    ensures Blames(LevelErrors(prefix, level), path, v) <==>
            && Below(prefix, path) && path[|prefix|..] == [Child("compressionLevel")]
            && level.Some? && !(0 <= level.value <= 9) && v == Invalid(Number(level.value))
  {
    hide Blames, If, Below;
    match level
    case None => BlamesIf(false, FieldError([], Required, ""), path, v);
    case Some(n) =>
      FieldBlames(n < 0 || n > 9, prefix, [Child("compressionLevel")], Invalid(Number(n)),
        "compression level must be between 0 and 9", path, v);
  }

  lemma DirectoryBlames(prefix: Path, d: Directory, path: Path, v: Violation)
    ensures Blames(DirectoryErrors(prefix, d), path, v) <==>
            Below(prefix, path) && BadDirectoryField(d, path[|prefix|..], v)
  {
    hide Blames, If, Below, PathErrors, LevelErrors;
    var head := If(|d.paths| == 0, Missing(prefix + [Child("paths")], "at least one directory path is required"));
    var paths := PathErrors(prefix, d.paths, |d.paths|);
    BlamesConcat(head + paths, LevelErrors(prefix, d.compressionLevel), path, v);
    BlamesConcat(head, paths, path, v);
    FieldBlames(|d.paths| == 0, prefix, [Child("paths")], Required, "at least one directory path is required", path, v);
    PathsBlame(prefix, d.paths, |d.paths|, path, v);
    LevelBlames(prefix, d.compressionLevel, path, v);
  }

  lemma NfsBlames(prefix: Path, server: string, dir: string, path: Path, v: Violation)
    ensures Blames(NfsErrors(prefix, server, dir), path, v) <==>
            Below(prefix, path) && BadNfsField(server, dir, path[|prefix|..], v)
  {
    hide Blames, If, Below;
    var first := If(server == "", Missing(prefix + [Child("server")], "nfs server is required"));
    BlamesConcat(first, If(dir == "", Missing(prefix + [Child("path")], "nfs path is required")), path, v);
    FieldBlames(server == "", prefix, [Child("server")], Required, "nfs server is required", path, v);
    FieldBlames(dir == "", prefix, [Child("path")], Required, "nfs path is required", path, v);
  }

  lemma S3Blames(prefix: Path, s: S3Storage, path: Path, v: Violation)
    ensures Blames(S3Errors(prefix, s), path, v) <==> Below(prefix, path) && BadS3Field(s, path[|prefix|..], v)
  {
    hide Blames, If, Below, SecretErrors, BadSecretField;
    var (a, b) := (If(s.endpoint == "", Missing(prefix + [Child("endpoint")], "s3 endpoint is required")),
                   If(s.bucket == "", Missing(prefix + [Child("bucket")], "s3 bucket is required")));
    BlamesConcat(a + b, SecretErrors(prefix, s.authSecret), path, v);
    BlamesConcat(a, b, path, v);
    FieldBlames(s.endpoint == "", prefix, [Child("endpoint")], Required, "s3 endpoint is required", path, v);
    FieldBlames(s.bucket == "", prefix, [Child("bucket")], Required, "s3 bucket is required", path, v);
    SecretBlames(prefix, s.authSecret, path, v);
  }

  lemma SftpBlames(prefix: Path, s: SftpStorage, path: Path, v: Violation)
    ensures Blames(SftpErrors(prefix, s), path, v) <==> Below(prefix, path) && BadSftpField(s, path[|prefix|..], v)
  {
    hide Blames, If, Below, SecretErrors, BadSecretField;
    var (a, b) := (If(s.host == "", Missing(prefix + [Child("host")], "sftp host is required")),
                   If(s.path == "", Missing(prefix + [Child("path")], "sftp path is required")));
    BlamesConcat(a + b, SecretErrors(prefix, s.authSecret), path, v);
    BlamesConcat(a, b, path, v);
    FieldBlames(s.host == "", prefix, [Child("host")], Required, "sftp host is required", path, v);
    FieldBlames(s.path == "", prefix, [Child("path")], Required, "sftp path is required", path, v);
    SecretBlames(prefix, s.authSecret, path, v);
  }

  lemma SmbBlames(prefix: Path, s: SmbStorage, path: Path, v: Violation)
    ensures Blames(SmbErrors(prefix, s), path, v) <==> Below(prefix, path) && BadSmbField(s, path[|prefix|..], v)
  {
    hide Blames, If, Below, SecretErrors, BadSecretField;
    var (a, b) := (If(s.server == "", Missing(prefix + [Child("server")], "smb server is required")),
                   If(s.share == "", Missing(prefix + [Child("share")], "smb share is required")));
    BlamesConcat(a + b, SecretErrors(prefix, s.authSecret), path, v);
    BlamesConcat(a, b, path, v);
    FieldBlames(s.server == "", prefix, [Child("server")], Required, "smb server is required", path, v);
    FieldBlames(s.share == "", prefix, [Child("share")], Required, "smb share is required", path, v);
    SecretBlames(prefix, s.authSecret, path, v);
  }

  /** A path below a part of a prefix. */
  lemma BelowPart(prefix: Path, part: Element, path: Path)
    ensures Below(prefix + [part], path) <==>
            Below(prefix, path) && |path| > |prefix| && path[|prefix|] == part
    ensures Below(prefix, path) ==> |prefix| <= |path|
    ensures Below(prefix + [part], path) ==>
      |prefix + [part]| == |prefix| + 1 && path[|prefix| + 1..] == path[|prefix|..][1..] && path[|prefix|..][0] == part
  {
    if |path| > |prefix| {
      assert path[..|prefix| + 1] == path[..|prefix|] + [path[|prefix|]];
    }
  }

  /** A part that is missing is blamed itself; one that is there is blamed for its fields. */
  lemma PartBlames(missing: bool, prefix: Path, part: Element, detail: string, inside: seq<FieldError>, path: Path,
      v: Violation)
    ensures var errors := if missing then [Missing(prefix + [part], detail)] else inside;
            Blames(errors, path, v) <==>
            if missing then Below(prefix, path) && path[|prefix|..] == [part] && v == Required
            else Blames(inside, path, v)
  {
    hide Below;
    assert If(true, Missing(prefix + [part], detail)) == [Missing(prefix + [part], detail)];
    FieldBlames(true, prefix, [part], Required, detail, path, v);
    hide Blames;
  }

  lemma DatabaseKindBlames(prefix: Path, t: Target, path: Path, v: Violation)
    requires t.kind == "database"
    ensures Blames(KindErrors(prefix, t), path, v) <==> Below(prefix, path) && BadKindField(t, path[|prefix|..], v)
  {
    hide Blames, Below, DatabaseErrors, BadDatabaseField, BadDirectoryField, BadNfsField;
    var part := Child("database");
    var inside := if t.database.Some? then DatabaseErrors(prefix + [part], t.database.value) else [];
    PartBlames(t.database.None?, prefix, part, "database configuration is required for database backup", inside,
      path, v);
    BelowPart(prefix, part, path);
    if t.database.Some? {
      DatabaseBlames(prefix + [part], t.database.value, path, v);
    }
  }

  lemma DirectoryKindBlames(prefix: Path, t: Target, path: Path, v: Violation)
    requires t.kind == "directory"
    ensures Blames(KindErrors(prefix, t), path, v) <==> Below(prefix, path) && BadKindField(t, path[|prefix|..], v)
  {
    hide Blames, Below, DirectoryErrors, BadDatabaseField, BadDirectoryField, BadNfsField;
    var part := Child("directory");
    var inside := if t.directory.Some? then DirectoryErrors(prefix + [part], t.directory.value) else [];
    PartBlames(t.directory.None?, prefix, part, "directory configuration is required for directory backup", inside,
      path, v);
    BelowPart(prefix, part, path);
    if t.directory.Some? {
      DirectoryBlames(prefix + [part], t.directory.value, path, v);
    }
  }

  lemma NfsKindBlames(prefix: Path, t: Target, path: Path, v: Violation)
    requires t.kind == "nfs"
    ensures Blames(KindErrors(prefix, t), path, v) <==> Below(prefix, path) && BadKindField(t, path[|prefix|..], v)
  {
    hide Blames, Below, NfsErrors, BadDatabaseField, BadDirectoryField, BadNfsField;
    var part := Child("nfs");
    var inside := if t.nfs.Some? then NfsErrors(prefix + [part], t.nfs.value.server, t.nfs.value.path) else [];
    PartBlames(t.nfs.None?, prefix, part, "nfs configuration is required for nfs backup", inside, path, v);
    BelowPart(prefix, part, path);
    if t.nfs.Some? {
      NfsBlames(prefix + [part], t.nfs.value.server, t.nfs.value.path, path, v);
    }
  }

  lemma OtherKindBlames(prefix: Path, t: Target, path: Path, v: Violation)
    requires t.kind !in {"database", "directory", "nfs"}
    ensures Blames(KindErrors(prefix, t), path, v) <==> Below(prefix, path) && BadKindField(t, path[|prefix|..], v)
  {
    hide Blames, Below, If, BadDatabaseField, BadDirectoryField, BadNfsField;
    FieldBlames(t.config.None?, prefix, [Child("config")], Required,
      "config configuration is required for config backup", path, v);
    BlamesIf(false, FieldError([], Required, ""), path, v);
  }

  lemma TargetBlames(prefix: Path, t: Target, path: Path, v: Violation)
    ensures Blames(TargetErrors(prefix, t), path, v) <==> Below(prefix, path) && BadTargetField(t, path[|prefix|..], v)
  {
    hide Blames, Below, If, KindErrors, BadKindField;
    if t.kind == "database" {
      DatabaseKindBlames(prefix, t, path, v);
    } else if t.kind == "directory" {
      DirectoryKindBlames(prefix, t, path, v);
    } else if t.kind == "nfs" {
      NfsKindBlames(prefix, t, path, v);
    } else {
      OtherKindBlames(prefix, t, path, v);
    }
    BlamesConcat(If(t.name == "", Missing(prefix + [Child("name")], "target name is required")),
      KindErrors(prefix, t), path, v);
    FieldBlames(t.name == "", prefix, [Child("name")], Required, "target name is required", path, v);
  }

  /** Relative to the targets. */
  predicate BadIndexed(targets: seq<Target>, n: nat, path: Path, v: Violation)
    requires n <= |targets|
  {
    && |path| >= 3 && path[..2] == SPEC + [Child("targets")] && path[2].Index?
    && path[2].i < n && BadTargetField(targets[path[2].i], path[3..], v)
  }

  lemma TargetPathBelow(n: nat, path: Path)
    ensures Below(TargetPath(n), path) <==>
            |path| >= 3 && path[..2] == SPEC + [Child("targets")] && path[2] == Index(n)
    ensures |TargetPath(n)| == 3
  {
    if |path| >= 3 {
      assert path[..3] == path[..2] + [path[2]];
      assert TargetPath(n) == (SPEC + [Child("targets")]) + [Index(n)];
    }
  }

  lemma {:induction false} TargetsBlame(targets: seq<Target>, n: nat, path: Path, v: Violation)
    requires n <= |targets|
    ensures Blames(TargetsErrors(targets, n), path, v) <==> BadIndexed(targets, n, path, v)
  {
    hide Blames, Below, TargetErrors, TargetPath, BadTargetField;
    if n == 0 {
      BlamesIf(false, FieldError([], Required, ""), path, v);
    } else {
      TargetsBlame(targets, n - 1, path, v);
      TargetBlames(TargetPath(n - 1), targets[n - 1], path, v);
      TargetPathBelow(n - 1, path);
      BlamesConcat(TargetsErrors(targets, n - 1), TargetErrors(TargetPath(n - 1), targets[n - 1]), path, v);
    }
  }

  lemma S3StorageBlames(prefix: Path, s: RemoteStorage, path: Path, v: Violation)
    requires s.kind == "s3"
    ensures Blames(StorageErrors(prefix, s), path, v) <==>
            Below(prefix, path) && BadStorageField(s, path[|prefix|..], v)
  {
    hide Blames, Below, S3Errors, SftpErrors, NfsErrors, SmbErrors;
    hide BadS3Field, BadSftpField, BadNfsField, BadSmbField;
    var part := Child("s3");
    var inside := if s.s3.Some? then S3Errors(prefix + [part], s.s3.value) else [];
    PartBlames(s.s3.None?, prefix, part, "s3 configuration is required for s3 storage", inside, path, v);
    BelowPart(prefix, part, path);
    if s.s3.Some? {
      S3Blames(prefix + [part], s.s3.value, path, v);
    }
  }

  lemma SftpStorageBlames(prefix: Path, s: RemoteStorage, path: Path, v: Violation)
    requires s.kind == "sftp"
    ensures Blames(StorageErrors(prefix, s), path, v) <==>
            Below(prefix, path) && BadStorageField(s, path[|prefix|..], v)
  {
    hide Blames, Below, S3Errors, SftpErrors, NfsErrors, SmbErrors;
    hide BadS3Field, BadSftpField, BadNfsField, BadSmbField;
    var part := Child("sftp");
    var inside := if s.sftp.Some? then SftpErrors(prefix + [part], s.sftp.value) else [];
    PartBlames(s.sftp.None?, prefix, part, "sftp configuration is required for sftp storage", inside, path, v);
    BelowPart(prefix, part, path);
    if s.sftp.Some? {
      SftpBlames(prefix + [part], s.sftp.value, path, v);
    }
  }

  lemma NfsStorageBlames(prefix: Path, s: RemoteStorage, path: Path, v: Violation)
    requires s.kind == "nfs"
    ensures Blames(StorageErrors(prefix, s), path, v) <==>
            Below(prefix, path) && BadStorageField(s, path[|prefix|..], v)
  {
    hide Blames, Below, S3Errors, SftpErrors, NfsErrors, SmbErrors;
    hide BadS3Field, BadSftpField, BadNfsField, BadSmbField;
    var part := Child("nfs");
    var inside := if s.nfs.Some? then NfsErrors(prefix + [part], s.nfs.value.server, s.nfs.value.path) else [];
    PartBlames(s.nfs.None?, prefix, part, "nfs configuration is required for nfs storage", inside, path, v);
    BelowPart(prefix, part, path);
    if s.nfs.Some? {
      NfsBlames(prefix + [part], s.nfs.value.server, s.nfs.value.path, path, v);
    }
  }

  lemma SmbStorageBlames(prefix: Path, s: RemoteStorage, path: Path, v: Violation)
    requires s.kind == "smb"
    ensures Blames(StorageErrors(prefix, s), path, v) <==>
            Below(prefix, path) && BadStorageField(s, path[|prefix|..], v)
  {
    hide Blames, Below, S3Errors, SftpErrors, NfsErrors, SmbErrors;
    hide BadS3Field, BadSftpField, BadNfsField, BadSmbField;
    var part := Child("smb");
    var inside := if s.smb.Some? then SmbErrors(prefix + [part], s.smb.value) else [];
    PartBlames(s.smb.None?, prefix, part, "smb configuration is required for smb storage", inside, path, v);
    BelowPart(prefix, part, path);
    if s.smb.Some? {
      SmbBlames(prefix + [part], s.smb.value, path, v);
    }
  }

  lemma StorageBlames(prefix: Path, s: RemoteStorage, path: Path, v: Violation)
    ensures Blames(StorageErrors(prefix, s), path, v) <==>
            Below(prefix, path) && BadStorageField(s, path[|prefix|..], v)
  {
    if s.kind == "s3" {
      S3StorageBlames(prefix, s, path, v);
    } else if s.kind == "sftp" {
      SftpStorageBlames(prefix, s, path, v);
    } else if s.kind == "nfs" {
      NfsStorageBlames(prefix, s, path, v);
    } else if s.kind == "smb" {
      SmbStorageBlames(prefix, s, path, v);
    } else {
      BlamesIf(false, FieldError([], Required, ""), path, v);
    }
    hide Blames, Below;
  }

  lemma ScheduleBlames(schedule: string, path: Path, v: Violation)
    ensures var error :=
              FieldError(SPEC + [Child("schedule")], Invalid(Text(schedule)), "invalid cron schedule format");
            Blames(If(!Cron.IsValidCronSchedule(schedule), error), path, v) <==>
            && Below(SPEC, path) && path[1..] == [Child("schedule")] && v == Invalid(Text(schedule))
            && !exists x :: Cron.Valid(x) && schedule == Cron.Show(x)
  {
    Cron.RecogniserEqualsGrammar(schedule);
    hide Blames, If, Below, Cron.IsValidCronSchedule, Cron.Valid, Cron.Show;
    FieldBlames(!Cron.IsValidCronSchedule(schedule), SPEC, [Child("schedule")], Invalid(Text(schedule)),
      "invalid cron schedule format", path, v);
  }

  lemma HeadBlames(schedule: string, targets: nat, path: Path, v: Violation)
    ensures Blames(HeadErrors(schedule, targets), path, v) <==>
            Below(SPEC, path) &&
            (|| (path[1..] == [Child("schedule")] && v == Invalid(Text(schedule))
                 && !exists x :: Cron.Valid(x) && schedule == Cron.Show(x))
             || (path[1..] == [Child("targets")] && targets == 0 && v == Required))
  {
    hide Blames, If, Below, Cron.IsValidCronSchedule, Cron.Valid, Cron.Show;
    BlamesConcat(
      If(!Cron.IsValidCronSchedule(schedule),
         FieldError(SPEC + [Child("schedule")], Invalid(Text(schedule)), "invalid cron schedule format")),
      If(targets == 0, Missing(SPEC + [Child("targets")], "at least one backup target is required")), path, v);
    ScheduleBlames(schedule, path, v);
    FieldBlames(targets == 0, SPEC, [Child("targets")], Required, "at least one backup target is required", path, v);
  }

  lemma EncryptionBlames(encryption: Option<Encryption>, path: Path, v: Violation)
    ensures var errors := if encryption.Some? && encryption.value.enabled
                          then EncryptionErrors(SPEC + [Child("encryption")], encryption.value) else [];
            Blames(errors, path, v) <==>
            && |path| >= 2 && path[..2] == SPEC + [Child("encryption")]
            && encryption.Some? && encryption.value.enabled
            && path[2..] == [Child("keySecretRef"), Child("name")] && Blank(encryption.value.keySecret, v)
  {
    if encryption.Some? && encryption.value.enabled {
      FieldBlames(encryption.value.keySecret == "", SPEC + [Child("encryption")],
        [Child("keySecretRef"), Child("name")], Required, "encryption key secret name is required", path, v);
    } else {
      BlamesIf(false, FieldError([], Required, ""), path, v);
    }
    hide Blames, If;
  }

  lemma TailBlames(storage: RemoteStorage, encryption: Option<Encryption>, path: Path, v: Violation)
    ensures Blames(TailErrors(storage, encryption), path, v) <==>
            |path| >= 2 &&
            (|| (path[..2] == SPEC + [Child("remoteStorage")] && BadStorageField(storage, path[2..], v))
             || (path[..2] == SPEC + [Child("encryption")] && encryption.Some? && encryption.value.enabled
                 && path[2..] == [Child("keySecretRef"), Child("name")] && Blank(encryption.value.keySecret, v)))
  {
    hide Blames, StorageErrors, EncryptionErrors, BadStorageField;
    StorageBlames(SPEC + [Child("remoteStorage")], storage, path, v);
    EncryptionBlames(encryption, path, v);
    BlamesConcat(StorageErrors(SPEC + [Child("remoteStorage")], storage),
      if encryption.Some? && encryption.value.enabled
      then EncryptionErrors(SPEC + [Child("encryption")], encryption.value) else [], path, v);
  }

  lemma PathStarts(path: Path, part: Element)
    requires |path| >= 2
    ensures path[..2] == SPEC + [part] <==> path[0] == Child("spec") && path[1] == part
    ensures Below(SPEC, path) <==> path[0] == Child("spec")
  {
    assert path[..2] == [path[0], path[1]] && path[..1] == [path[0]];
  }

  /** Validation blames a field at a path, as missing or for its value, exactly when that field is bad in this way. */
  lemma EveryBadFieldIsBlamed(spec: TaskSpec, path: Path, v: Violation)
    ensures Blames(Errors(spec), path, v) <==> BadField(spec, path, v)
  {
    hide Blames, Below, HeadErrors, TargetsErrors, TailErrors, BadTargetField, BadStorageField, Blank;
    hide Cron.Valid, Cron.Show;
    var (head, targets) := (HeadErrors(spec.schedule, |spec.targets|), TargetsErrors(spec.targets, |spec.targets|));
    BlamesConcat(head + targets, TailErrors(spec.remoteStorage, spec.encryption), path, v);
    BlamesConcat(head, targets, path, v);
    HeadBlames(spec.schedule, |spec.targets|, path, v);
    TargetsBlame(spec.targets, |spec.targets|, path, v);
    TailBlames(spec.remoteStorage, spec.encryption, path, v);
    if |path| >= 2 {
      PathStarts(path, Child("targets"));
      PathStarts(path, Child("remoteStorage"));
      PathStarts(path, Child("encryption"));
    } else {
      ShortPath(path);
    }
  }

  lemma ShortPath(path: Path)
    requires |path| < 2
    ensures Below(SPEC, path) ==> path[1..] == []
  {
  }
}
