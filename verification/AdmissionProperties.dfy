/** Validation is sound, complete and localised, and running it again changes nothing. */
module AdmissionProperties {
  import opened Types
  import opened Admission
  import Cron

  /** The path lies at or below the prefix. */
  predicate Under(prefix: Path, path: Path) { prefix <= path }

  ghost predicate AllUnder(prefix: Path, errors: seq<FieldError>) {
    forall e :: e in errors ==> Under(prefix, e.path)
  }

  lemma Deeper(prefix: Path, more: Path, errors: seq<FieldError>)
    requires AllUnder(prefix + more, errors)
    ensures AllUnder(prefix, errors)
  {
    forall e | e in errors ensures Under(prefix, e.path) {
      assert e.path[..|prefix|] == (prefix + more)[..|prefix|];
    }
  }

  lemma {:induction false} PathErrorsIff(path: Path, paths: seq<DirectoryPath>, n: nat)
    requires n <= |paths|
    ensures PathErrors(path, paths, n) == [] <==> forall i :: 0 <= i < n ==> paths[i].path != ""
    ensures AllUnder(path, PathErrors(path, paths, n))
  {
    if n > 0 {
      PathErrorsIff(path, paths, n - 1);
    }
  }

  lemma DatabaseErrorsIff(path: Path, d: Database)
    ensures DatabaseErrors(path, d) == [] <==> ValidDatabase(d)
    ensures AllUnder(path, DatabaseErrors(path, d))
  {
  }

  lemma DirectoryErrorsIff(path: Path, d: Directory)
    ensures DirectoryErrors(path, d) == [] <==> ValidDirectory(d)
    ensures AllUnder(path, DirectoryErrors(path, d))
  {
    PathErrorsIff(path, d.paths, |d.paths|);
  }

  lemma NfsErrorsIff(path: Path, server: string, dir: string)
    ensures NfsErrors(path, server, dir) == [] <==> server != "" && dir != ""
    ensures AllUnder(path, NfsErrors(path, server, dir))
  {
  }

  /** What the errors of a target's kind say. */
  ghost predicate KindOk(path: Path, t: Target) {
    (KindErrors(path, t) == [] <==> ValidTarget(t.(name := "x"))) && AllUnder(path, KindErrors(path, t))
  }

  lemma DatabaseKindOk(path: Path, t: Target)
    requires t.kind == "database"
    ensures KindOk(path, t)
  {
    if t.database.Some? {
      DatabaseErrorsIff(path + [Child("database")], t.database.value);
      Deeper(path, [Child("database")], DatabaseErrors(path + [Child("database")], t.database.value));
    }
    hide DatabaseErrors, ValidDatabase, DirectoryErrors, ValidDirectory, NfsErrors;
  }

  lemma DirectoryKindOk(path: Path, t: Target)
    requires t.kind == "directory"
    ensures KindOk(path, t)
  {
    if t.directory.Some? {
      DirectoryErrorsIff(path + [Child("directory")], t.directory.value);
      Deeper(path, [Child("directory")], DirectoryErrors(path + [Child("directory")], t.directory.value));
    }
    hide DatabaseErrors, ValidDatabase, DirectoryErrors, ValidDirectory, NfsErrors;
  }

  lemma NfsKindOk(path: Path, t: Target)
    requires t.kind == "nfs"
    ensures KindOk(path, t)
  {
    if t.nfs.Some? {
      NfsErrorsIff(path + [Child("nfs")], t.nfs.value.server, t.nfs.value.path);
      Deeper(path, [Child("nfs")], NfsErrors(path + [Child("nfs")], t.nfs.value.server, t.nfs.value.path));
    }
    hide DatabaseErrors, ValidDatabase, DirectoryErrors, ValidDirectory, NfsErrors;
  }

  lemma OtherKindOk(path: Path, t: Target)
    requires t.kind !in {"database", "directory", "nfs"}
    ensures KindOk(path, t)
  {
  }

  lemma TargetErrorsIff(path: Path, t: Target)
    ensures TargetErrors(path, t) == [] <==> ValidTarget(t)
    ensures AllUnder(path, TargetErrors(path, t))
  {
    if t.kind == "database" {
      DatabaseKindOk(path, t);
    } else if t.kind == "directory" {
      DirectoryKindOk(path, t);
    } else if t.kind == "nfs" {
      NfsKindOk(path, t);
    } else {
      OtherKindOk(path, t);
    }
    assert ValidTarget(t) <==> t.name != "" && ValidTarget(t.(name := "x"));
    hide KindErrors, ValidTarget;
  }

  lemma SecretErrorsIff(path: Path, secret: string)
    ensures SecretErrors(path, secret) == [] <==> secret != ""
    ensures AllUnder(path, SecretErrors(path, secret))
  {
  }

  lemma S3ErrorsIff(path: Path, s: S3Storage)
    ensures S3Errors(path, s) == [] <==> "" !in [s.endpoint, s.bucket, s.authSecret]
    ensures AllUnder(path, S3Errors(path, s))
  {
    SecretErrorsIff(path, s.authSecret);
    hide SecretErrors;
  }

  lemma SftpErrorsIff(path: Path, s: SftpStorage)
    ensures SftpErrors(path, s) == [] <==> "" !in [s.host, s.path, s.authSecret]
    ensures AllUnder(path, SftpErrors(path, s))
  {
    SecretErrorsIff(path, s.authSecret);
    hide SecretErrors;
  }

  lemma SmbErrorsIff(path: Path, s: SmbStorage)
    ensures SmbErrors(path, s) == [] <==> "" !in [s.server, s.share, s.authSecret]
    ensures AllUnder(path, SmbErrors(path, s))
  {
    SecretErrorsIff(path, s.authSecret);
    hide SecretErrors;
  }

  lemma StorageErrorsIff(path: Path, s: RemoteStorage)
    ensures StorageErrors(path, s) == [] <==> ValidStorage(s)
    ensures AllUnder(path, StorageErrors(path, s))
  {
    hide SecretErrors, S3Errors, SftpErrors, NfsErrors, SmbErrors;
    if s.kind == "s3" {
      if s.s3.Some? {
        S3ErrorsIff(path + [Child("s3")], s.s3.value);
        Deeper(path, [Child("s3")], S3Errors(path + [Child("s3")], s.s3.value));
      }
    } else if s.kind == "sftp" {
      if s.sftp.Some? {
        SftpErrorsIff(path + [Child("sftp")], s.sftp.value);
        Deeper(path, [Child("sftp")], SftpErrors(path + [Child("sftp")], s.sftp.value));
      }
    } else if s.kind == "nfs" {
      if s.nfs.Some? {
        NfsErrorsIff(path + [Child("nfs")], s.nfs.value.server, s.nfs.value.path);
        Deeper(path, [Child("nfs")], NfsErrors(path + [Child("nfs")], s.nfs.value.server, s.nfs.value.path));
      }
    } else if s.kind == "smb" {
      if s.smb.Some? {
        SmbErrorsIff(path + [Child("smb")], s.smb.value);
        Deeper(path, [Child("smb")], SmbErrors(path + [Child("smb")], s.smb.value));
      }
    }
  }

  lemma {:induction false} TargetsErrorsIff(targets: seq<Target>, n: nat)
    requires n <= |targets|
    ensures TargetsErrors(targets, n) == [] <==> forall i :: 0 <= i < n ==> ValidTarget(targets[i])
  {
    hide TargetErrors, ValidTarget, TargetPath, AllUnder;
    if n > 0 {
      TargetsErrorsIff(targets, n - 1);
      TargetErrorsIff(TargetPath(n - 1), targets[n - 1]);
    }
  }

  ghost predicate Reported(prefix: Path, errors: seq<FieldError>) {
    exists e :: e in errors && Under(prefix, e.path)
  }

  lemma ReportedConcat(prefix: Path, a: seq<FieldError>, b: seq<FieldError>)
    ensures Reported(prefix, a + b) <==> Reported(prefix, a) || Reported(prefix, b)
  {
  }

  lemma NothingReported(prefix: Path)
    ensures !Reported(prefix, [])
  {
  }

  /** There is an error for some target index exactly when that target is invalid. */
  lemma {:induction false} TargetsErrorsLocal(targets: seq<Target>, n: nat, i: nat)
    requires n <= |targets|
    ensures Reported(TargetPath(i), TargetsErrors(targets, n)) <==> i < n && !ValidTarget(targets[i])
  {
    hide TargetErrors, ValidTarget, TargetPath, Reported, AllUnder;
    if n == 0 {
      NothingReported(TargetPath(i));
    } else {
      var last := TargetErrors(TargetPath(n - 1), targets[n - 1]);
      TargetsErrorsLocal(targets, n - 1, i);
      TargetErrorsIff(TargetPath(n - 1), targets[n - 1]);
      ReportedConcat(TargetPath(i), TargetsErrors(targets, n - 1), last);
      ReportedAt(n - 1, i, last);
    }
  }

  lemma ReportedAt(j: nat, i: nat, errors: seq<FieldError>)
    requires AllUnder(TargetPath(j), errors)
    ensures Reported(TargetPath(i), errors) <==> i == j && errors != []
  {
    if errors != [] {
      assert errors[0] in errors;
    }
    forall e | e in errors && i != j ensures !Under(TargetPath(i), e.path) {
      assert e.path[2] == TargetPath(j)[2] == Index(j) && TargetPath(i)[2] == Index(i);
    }
  }

  /** No errors exactly when the specification is valid. */
  lemma SoundAndComplete(spec: TaskSpec)
    ensures Errors(spec) == [] <==> ValidSpec(spec)
  {
    Cron.RecogniserEqualsGrammar(spec.schedule);
    TargetsErrorsIff(spec.targets, |spec.targets|);
    StorageErrorsIff(SPEC + [Child("remoteStorage")], spec.remoteStorage);
    hide TargetsErrors, StorageErrors, ValidTarget, ValidStorage, Cron.IsValidCronSchedule, Cron.Valid, Cron.Show;
  }

  lemma OutsideTargets(spec: TaskSpec, i: nat, e: FieldError)
    requires e in HeadErrors(spec.schedule, |spec.targets|) || e in TailErrors(spec.remoteStorage, spec.encryption)
    ensures !Under(TargetPath(i), e.path)
  {
    StorageErrorsIff(SPEC + [Child("remoteStorage")], spec.remoteStorage);
    hide StorageErrors, ValidStorage, Cron.IsValidCronSchedule;
    assert TargetPath(i)[1] == Child("targets") && |TargetPath(i)| == 3;
    assert |e.path| < 3 || e.path[1] == (SPEC + [Child("remoteStorage")])[1] || e.path[1] == Child("encryption");
  }

  /** An error is reported under spec.targets[i] exactly when target i exists and is invalid. */
  lemma Localised(spec: TaskSpec, i: nat)
    ensures Reported(TargetPath(i), Errors(spec)) <==> i < |spec.targets| && !ValidTarget(spec.targets[i])
  {
    TargetsErrorsLocal(spec.targets, |spec.targets|, i);
    forall e | e in Errors(spec) && Under(TargetPath(i), e.path)
      ensures e in TargetsErrors(spec.targets, |spec.targets|) {
      if e in HeadErrors(spec.schedule, |spec.targets|) || e in TailErrors(spec.remoteStorage, spec.encryption) {
        OutsideTargets(spec, i, e);
      }
    }
    hide TargetsErrors, HeadErrors, TailErrors, ValidTarget;
  }

  // ---- again ----

  lemma FillPortKeepsErrors(path: Path, d: Database)
    ensures DatabaseErrors(path, FillPort(d)) == DatabaseErrors(path, d)
    ensures FillPort(FillPort(d)) == FillPort(d)
    ensures ValidDatabase(d) ==> FillPort(d).port.Some? && 1 <= FillPort(d).port.value <= 65535
  {
  }

  /** The port a database has after validation: its own if it has one, else the usual one of its kind. */
  predicate PortChosen(kind: string, before: Option<int32>, after: Option<int32>) {
    && (before.Some? ==> after == before)
    && (before.None? && kind == "mysql" ==> after == Some(3306))
    && (before.None? && kind == "postgresql" ==> after == Some(5432))
    && (before.None? && kind == "mongodb" ==> after == Some(27017))
    && (before.None? && kind == "redis" ==> after == Some(6379))
    && (before.None? && kind !in {"mysql", "postgresql", "mongodb", "redis"} ==> after.None?)
  }

  /** Filling a port chooses it and changes nothing else. */
  lemma FillPortChooses(d: Database)
    ensures PortChosen(d.kind, d.port, FillPort(d).port)
    ensures FillPort(d).(port := d.port) == d
  {
  }

  lemma FillTargetKeepsErrors(path: Path, t: Target)
    ensures TargetErrors(path, FillTarget(t)) == TargetErrors(path, t)
    ensures FillTarget(FillTarget(t)) == FillTarget(t)
  {
    if t.database.Some? {
      FillPortKeepsErrors(path + [Child("database")], t.database.value);
    }
    hide DatabaseErrors, FillPort;
  }

  /** Validation gives every database target its port and leaves every other part of the specification alone. */
  lemma FillChoosesPorts(spec: TaskSpec, i: nat)
    requires i < |spec.targets|
    ensures Fill(spec).(targets := []) == spec.(targets := []) && |Fill(spec).targets| == |spec.targets|
    ensures var (t, u) := (spec.targets[i], Fill(spec).targets[i]);
            && u.(database := None) == t.(database := None) && (t.kind != "database" ==> u == t)
            && u.database.Some? == t.database.Some?
            && (t.kind == "database" && t.database.Some? ==>
                  && u.database.value.(port := None) == t.database.value.(port := None)
                  && PortChosen(t.database.value.kind, t.database.value.port, u.database.value.port))
  {
    if spec.targets[i].database.Some? {
      FillPortChooses(spec.targets[i].database.value);
    }
    hide FillPort, PortChosen;
  }

  /** Only the database objects of database targets matter to the errors. */
  predicate SameButPorts(t: Target, u: Target) {
    u == t || u == FillTarget(t) || (t.kind != "database" && u.(database := None) == t.(database := None))
  }

  lemma TargetErrorsSame(path: Path, t: Target, u: Target)
    requires SameButPorts(t, u)
    ensures TargetErrors(path, u) == TargetErrors(path, t)
  {
    FillTargetKeepsErrors(path, t);
  }

  lemma {:induction false} TargetsErrorsSame(targets: seq<Target>, after: seq<Target>, n: nat)
    requires |after| == |targets| && n <= |targets|
    requires forall i :: 0 <= i < |targets| ==> SameButPorts(targets[i], after[i])
    ensures TargetsErrors(after, n) == TargetsErrors(targets, n)
  {
    if n > 0 {
      TargetsErrorsSame(targets, after, n - 1);
      TargetErrorsSame(TargetPath(n - 1), targets[n - 1], after[n - 1]);
      hide TargetErrors, SameButPorts;
    }
  }

  lemma FilledPort(t: Target)
    requires ValidTarget(t) && t.kind == "database"
    ensures var u := FillTarget(t);
            u.database.Some? && u.database.value.port.Some? && 1 <= u.database.value.port.value <= 65535
  {
    FillPortKeepsErrors([], t.database.value);
  }

  /** Validating what validation has filled in reports the same errors and fills in nothing more; and an
      accepted database target has a port, in range. */
  lemma Revalidation(spec: TaskSpec)
    ensures Errors(Fill(spec)) == Errors(spec)
    ensures Fill(Fill(spec)) == Fill(spec)
    ensures Errors(spec) == [] ==>
      forall i :: 0 <= i < |spec.targets| && spec.targets[i].kind == "database" ==>
        var d := Fill(spec).targets[i].database;
        d.Some? && d.value.port.Some? && 1 <= d.value.port.value <= 65535
  {
    TargetsErrorsSame(spec.targets, Fill(spec).targets, |spec.targets|);
    forall i | 0 <= i < |spec.targets| ensures FillTarget(FillTarget(spec.targets[i])) == FillTarget(spec.targets[i]) {
      FillTargetKeepsErrors([], spec.targets[i]);
    }
    SoundAndComplete(spec);
    hide TargetsErrors, FillTarget, ValidTarget, HeadErrors, TailErrors, ValidStorage, Cron.Valid, Cron.Show;
    assert Fill(Fill(spec)).targets == Fill(spec).targets;
    if Errors(spec) == [] {
      forall i | 0 <= i < |spec.targets| && spec.targets[i].kind == "database"
        ensures var d := Fill(spec).targets[i].database;
                d.Some? && d.value.port.Some? && 1 <= d.value.port.value <= 65535
      {
        FilledPort(spec.targets[i]);
      }
    }
  }

  /** What defaulting sets: AES-256-GCM for enabled encryption without an algorithm, encryption after compression
      when nothing is said, an empty pod template when there is none; whatever is set stays. */
  predicate DefaultsSet(before: TaskSpec, after: TaskSpec) {
    && after.(podTemplate := None, encryption := None) == before.(podTemplate := None, encryption := None)
    && after.podTemplate == (if before.podTemplate.None? then Some(PodTemplate(map[])) else before.podTemplate)
    && after.encryption.Some? == before.encryption.Some?
    && (before.encryption.Some? ==>
          var (e, f) := (before.encryption.value, after.encryption.value);
          && (f.enabled, f.keySecret) == (e.enabled, e.keySecret)
          && f.algorithm == (if e.enabled && e.algorithm == "" then "aes-256-gcm" else e.algorithm)
          && (e.encryptAfterCompress.None? ==> f.encryptAfterCompress == Some(true))
          && (e.encryptAfterCompress.Some? ==> f.encryptAfterCompress == e.encryptAfterCompress))
  }

  /** Defaulting sets what it should, is idempotent, never changes the verdict, and commutes with the filling of
      ports. */
  lemma Defaulting(spec: TaskSpec)
    ensures DefaultsSet(spec, Defaulted(spec))
    ensures Defaulted(Defaulted(spec)) == Defaulted(spec)
    ensures Errors(Defaulted(spec)) == Errors(spec)
    ensures Defaulted(Fill(spec)) == Fill(Defaulted(spec))
  {
    hide Cron.IsValidCronSchedule, StorageErrors, TargetsErrors;
  }
}
