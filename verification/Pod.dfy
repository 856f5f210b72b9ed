/** Translation of a task into the pod of its CronJob: volumes, mounts and environment. */
module Pod {
  import opened Types
  import Decimal

  datatype VolumeSource =
    | EmptyDir(gib: nat)
    | TargetConfig(configMap: string)
    | Claim(claim: string)
    | Nfs(server: string, path: string)
    | Secret(secret: string)

  datatype Volume = Volume(name: string, source: VolumeSource)

  datatype Mount = Mount(name: string, mountPath: string, subPath: string, readOnly: bool)

  datatype EnvVar = EnvVar(name: string, value: string) | EnvField(name: string, fieldPath: string)

  datatype PodSpec = PodSpec(
    image: string, command: seq<string>, env: seq<EnvVar>, volumes: seq<Volume>, mounts: seq<Mount>)

  /** A use of a PersistentVolumeClaim: its position among the paths of its target, and the path. */
  datatype PvcUse = PvcUse(index: nat, claim: string, path: string, subPath: string)

  function PathUses(paths: seq<DirectoryPath>): seq<PvcUse> {
    if paths == [] then []
    else
      var n := |paths| - 1;
      PathUses(paths[..n])
      + if paths[n].pvcRef.Some? then [PvcUse(n, paths[n].pvcRef.value, paths[n].path, paths[n].subPath)] else []
  }

  function TargetUses(target: Target): seq<PvcUse> {
    if target.directory.Some? then PathUses(target.directory.value.paths) else []
  }

  /** All claims the targets reference, in the order of targets and of paths within a target. */
  function PvcUses(targets: seq<Target>): seq<PvcUse> {
    if targets == [] then []
    else PvcUses(targets[..|targets| - 1]) + TargetUses(targets[|targets| - 1])
  }

  function ClaimVolume(u: PvcUse): Volume { Volume("pvc-" + u.claim, Claim(u.claim)) }
  function ClaimMount(u: PvcUse): Mount { Mount("pvc-" + u.claim, u.path, u.subPath, true) }
  function EarlierClaimMount(u: PvcUse): Mount {
    Mount("pvc-" + u.claim, "/mnt/pvc-" + Decimal.Print(u.index), u.subPath, true)
  }

  function ClaimVolumes(uses: seq<PvcUse>): seq<Volume> {
    seq(|uses|, i requires 0 <= i < |uses| => ClaimVolume(uses[i]))
  }

  function ClaimMounts(uses: seq<PvcUse>): seq<Mount> {
    seq(|uses|, i requires 0 <= i < |uses| => ClaimMount(uses[i]))
  }

  function EarlierClaimMounts(uses: seq<PvcUse>): seq<Mount> {
    seq(|uses|, i requires 0 <= i < |uses| => EarlierClaimMount(uses[i]))
  }

  lemma ClaimsSnoc(uses: seq<PvcUse>, u: PvcUse)
    ensures ClaimVolumes(uses + [u]) == ClaimVolumes(uses) + [ClaimVolume(u)]
    ensures ClaimMounts(uses + [u]) == ClaimMounts(uses) + [ClaimMount(u)]
    ensures EarlierClaimMounts(uses + [u]) == EarlierClaimMounts(uses) + [EarlierClaimMount(u)]
  {
  }

  function TargetConfigMapName(taskName: string): string { taskName + "-targets" }

  predicate UsesNfs(storage: RemoteStorage) { storage.kind == "nfs" && storage.nfs.Some? }

  function FixedVolumes(taskName: string): seq<Volume> {
    [Volume("backup-data", EmptyDir(10)),
     Volume("temp", EmptyDir(5)),
     Volume("backup-config", TargetConfig(TargetConfigMapName(taskName)))]
  }

  const FIXED_MOUNTS: seq<Mount> :=
    [Mount("backup-data", "/backup/data", "", false),
     Mount("temp", "/tmp", "", false),
     Mount("backup-config", "/etc/backup/config", "", true)]

  function NfsVolumes(storage: RemoteStorage): seq<Volume> {
    if UsesNfs(storage)
    then [Volume("nfs-storage", VolumeSource.Nfs(storage.nfs.value.server, storage.nfs.value.path))]
    else []
  }

  function NfsMounts(storage: RemoteStorage): seq<Mount> {
    if UsesNfs(storage) then [Mount("nfs-storage", "/mnt/nfs-backup", "", false)] else []
  }

  function Volumes(taskName: string, spec: TaskSpec): seq<Volume> {
    FixedVolumes(taskName) + ClaimVolumes(PvcUses(spec.targets)) + NfsVolumes(spec.remoteStorage)
  }

  function Mounts(spec: TaskSpec): seq<Mount> {
    FIXED_MOUNTS + NfsMounts(spec.remoteStorage) + ClaimMounts(PvcUses(spec.targets))
  }

  function NumberVar(name: string, n: Option<int32>): seq<EnvVar> {
    if n.Some? then [EnvVar(name, Decimal.Itoa(n.value))] else []
  }

  /** KeepLast fields are plain integers; zero counts as unset. */
  function NonZero(n: int32): Option<int32> {
    if n != 0 then Some(n) else None
  }

  function KeepLastOf(policy: RetentionPolicy): KeepLast {
    if policy.keepLast.Some? then policy.keepLast.value else KeepLast(0, 0, 0, 0)
  }

  /** One variable per number that is set, in order. */
  function NumberVars(vars: seq<(string, Option<int32>)>): seq<EnvVar> {
    if vars == [] then []
    else
      var (front, last) := (vars[..|vars| - 1], vars[|vars| - 1]);
      NumberVars(front) + NumberVar(last.0, last.1)
  }

  function RetentionNumbers(policy: RetentionPolicy): seq<(string, Option<int32>)> {
    var keep := KeepLastOf(policy);
    [("RETENTION_MAX_AGE_DAYS", policy.maxAgeDays),
     ("RETENTION_MAX_BACKUP_COUNT", policy.maxBackupCount),
     ("RETENTION_KEEP_LAST_HOURS", NonZero(keep.hours)),
     ("RETENTION_KEEP_LAST_DAYS", NonZero(keep.days)),
     ("RETENTION_KEEP_LAST_WEEKS", NonZero(keep.weeks)),
     ("RETENTION_KEEP_LAST_MONTHS", NonZero(keep.months))]
  }

  function RetentionEnv(retention: Option<RetentionPolicy>): seq<EnvVar> {
    if retention.None? then [] else NumberVars(RetentionNumbers(retention.value))
  }

  lemma RetentionNumbersAt(policy: RetentionPolicy)
    ensures var (v, keep) := (RetentionNumbers(policy), KeepLastOf(policy));
            && |v| == 6
            && v[0] == ("RETENTION_MAX_AGE_DAYS", policy.maxAgeDays)
            && v[1] == ("RETENTION_MAX_BACKUP_COUNT", policy.maxBackupCount)
            && v[2] == ("RETENTION_KEEP_LAST_HOURS", NonZero(keep.hours))
            && v[3] == ("RETENTION_KEEP_LAST_DAYS", NonZero(keep.days))
            && v[4] == ("RETENTION_KEEP_LAST_WEEKS", NonZero(keep.weeks))
            && v[5] == ("RETENTION_KEEP_LAST_MONTHS", NonZero(keep.months))
  {
  }

  lemma NumberVarsStep(vars: seq<(string, Option<int32>)>, k: nat)
    requires k < |vars|
    ensures NumberVars(vars[..k + 1]) == NumberVars(vars[..k]) + NumberVar(vars[k].0, vars[k].1)
  {
    assert vars[..k + 1][..k] == vars[..k];
  }

  /** The two limits of retentionPolicyToEnv. */
  method LimitVars(policy: RetentionPolicy, ghost v: seq<(string, Option<int32>)>) returns (envs: seq<EnvVar>)
    requires |v| == 6
    requires v[0] == ("RETENTION_MAX_AGE_DAYS", policy.maxAgeDays)
    requires v[1] == ("RETENTION_MAX_BACKUP_COUNT", policy.maxBackupCount)
    ensures envs == NumberVars(v[..2])
  {
    assert NumberVars(v[..0]) == [];
    hide NumberVars, Decimal.Itoa;
    envs := [];
    if policy.maxAgeDays.Some? {
      envs := envs + [EnvVar("RETENTION_MAX_AGE_DAYS", Decimal.Itoa(policy.maxAgeDays.value))];
    }
    NumberVarsStep(v, 0);
    if policy.maxBackupCount.Some? {
      envs := envs + [EnvVar("RETENTION_MAX_BACKUP_COUNT", Decimal.Itoa(policy.maxBackupCount.value))];
    }
    NumberVarsStep(v, 1);
  }

  /** The KeepLast part of retentionPolicyToEnv. */
  method AppendKeepLast(before: seq<EnvVar>, keep: KeepLast, ghost v: seq<(string, Option<int32>)>)
    returns (envs: seq<EnvVar>)
    requires |v| == 6 && before == NumberVars(v[..2])
    requires v[2] == ("RETENTION_KEEP_LAST_HOURS", NonZero(keep.hours))
    requires v[3] == ("RETENTION_KEEP_LAST_DAYS", NonZero(keep.days))
    requires v[4] == ("RETENTION_KEEP_LAST_WEEKS", NonZero(keep.weeks))
    requires v[5] == ("RETENTION_KEEP_LAST_MONTHS", NonZero(keep.months))
    ensures envs == NumberVars(v[..6])
  {
    hide NumberVars, Decimal.Itoa;
    envs := before;
    if keep.hours != 0 {
      envs := envs + [EnvVar("RETENTION_KEEP_LAST_HOURS", Decimal.Itoa(keep.hours))];
    }
    NumberVarsStep(v, 2);
    if keep.days != 0 {
      envs := envs + [EnvVar("RETENTION_KEEP_LAST_DAYS", Decimal.Itoa(keep.days))];
    }
    NumberVarsStep(v, 3);
    if keep.weeks != 0 {
      envs := envs + [EnvVar("RETENTION_KEEP_LAST_WEEKS", Decimal.Itoa(keep.weeks))];
    }
    NumberVarsStep(v, 4);
    if keep.months != 0 {
      envs := envs + [EnvVar("RETENTION_KEEP_LAST_MONTHS", Decimal.Itoa(keep.months))];
    }
    NumberVarsStep(v, 5);
  }

  method RetentionPolicyToEnv(retention: Option<RetentionPolicy>) returns (envs: seq<EnvVar>)
    ensures envs == RetentionEnv(retention)
  {
    if retention.None? {
      return [];
    }
    var policy := retention.value;
    hide RetentionNumbers, NumberVars, Decimal.Itoa;
    ghost var v := RetentionNumbers(policy);
    RetentionNumbersAt(policy);
    assert v[..6] == v;
    envs := LimitVars(policy, v);
    if policy.keepLast.Some? {
      envs := AppendKeepLast(envs, policy.keepLast.value, v);
    } else {
      NumberVarsStep(v, 2);
      NumberVarsStep(v, 3);
      NumberVarsStep(v, 4);
      NumberVarsStep(v, 5);
    }
  }

  function EnvVars(key: Key, spec: TaskSpec): seq<EnvVar> {
    [EnvVar("BACKUP_TASK_NAME", key.name),
     EnvVar("BACKUP_TASK_NAMESPACE", key.ns),
     EnvField("BACKUP_ID", "metadata.uid"),
     EnvField("POD_NAME", "metadata.name")]
    + RetentionEnv(spec.retention)
  }

  const DEFAULT_IMAGE := "backup-agent:latest"
  const DEFAULT_COMMAND := "/backup/scripts/backup.sh"

  function BackupImage(spec: TaskSpec): string {
    if spec.backupImage != "" then spec.backupImage else DEFAULT_IMAGE
  }

  /** The command follows the image: it is the spec's own, even when empty, once an image is given. */
  function BackupCommand(spec: TaskSpec): string {
    if spec.backupImage != "" then spec.backupCmd else DEFAULT_COMMAND
  }

  function BuildPod(key: Key, spec: TaskSpec): PodSpec {
    PodSpec(BackupImage(spec), ["/bin/bash", "-c", BackupCommand(spec)], EnvVars(key, spec),
            Volumes(key.name, spec), Mounts(spec))
  }

  /** The loops over targets and their paths that append a volume per claim. */
  method AppendClaimVolumes(before: seq<Volume>, targets: seq<Target>) returns (volumes: seq<Volume>)
    ensures volumes == before + ClaimVolumes(PvcUses(targets))
  {
    volumes := before;
    ghost var uses := [];
    NoUses([], targets);
    assert before + ClaimVolumes([]) == before;
    hide PathUses, PvcUses, ClaimVolumes;
    for i := 0 to |targets|
      invariant uses == PvcUses(targets[..i])
      invariant volumes == before + ClaimVolumes(uses)
    {
      ghost var earlier := uses;
      if targets[i].directory.Some? {
        var paths := targets[i].directory.value.paths;
        NoUses(paths, targets);
        for j := 0 to |paths|
          invariant uses == earlier + PathUses(paths[..j])
          invariant volumes == before + ClaimVolumes(uses)
        {
          PathUsesStep(paths, j);
          if paths[j].pvcRef.Some? {
            var claim := paths[j].pvcRef.value;
            var volume := Volume("pvc-" + claim, Claim(claim));
            ghost var u := PvcUse(j, claim, paths[j].path, paths[j].subPath);
            assert volume == ClaimVolume(u);
            volumes := volumes + [volume];
            ClaimsSnoc(uses, u);
            uses := uses + [u];
          }
        }
        assert paths[..|paths|] == paths;
      }
      PvcUsesStep(targets, i);
    }
    assert targets[..|targets|] == targets;
  }

  method BuildVolumes(taskName: string, spec: TaskSpec) returns (volumes: seq<Volume>)
    ensures volumes == Volumes(taskName, spec)
  {
    volumes := AppendClaimVolumes(FixedVolumes(taskName), spec.targets);
    hide FixedVolumes, ClaimVolumes, PvcUses;
    if spec.remoteStorage.kind == "nfs" && spec.remoteStorage.nfs.Some? {
      var nfs := spec.remoteStorage.nfs.value;
      volumes := volumes + [Volume("nfs-storage", VolumeSource.Nfs(nfs.server, nfs.path))];
    }
  }

  lemma NoUses(paths: seq<DirectoryPath>, targets: seq<Target>)
    ensures PathUses(paths[..0]) == [] && PvcUses(targets[..0]) == []
  {
  }

  lemma PathUsesStep(paths: seq<DirectoryPath>, j: nat)
    requires j < |paths|
    ensures PathUses(paths[..j + 1]) == PathUses(paths[..j]) +
      if paths[j].pvcRef.Some? then [PvcUse(j, paths[j].pvcRef.value, paths[j].path, paths[j].subPath)] else []
  {
    assert paths[..j + 1][..j] == paths[..j];
  }

  lemma PvcUsesStep(targets: seq<Target>, i: nat)
    requires i < |targets|
    ensures PvcUses(targets[..i + 1]) == PvcUses(targets[..i]) + TargetUses(targets[i])
  {
    assert targets[..i + 1][..i] == targets[..i];
  }

  /** The loops over targets and their paths that append a mount per claim. */
  method AppendClaimMounts(before: seq<Mount>, targets: seq<Target>) returns (mounts: seq<Mount>)
    ensures mounts == before + ClaimMounts(PvcUses(targets))
  {
    mounts := before;
    ghost var uses := [];
    NoUses([], targets);
    assert before + ClaimMounts([]) == before;
    hide PathUses, PvcUses, ClaimMounts;
    for i := 0 to |targets|
      invariant uses == PvcUses(targets[..i])
      invariant mounts == before + ClaimMounts(uses)
    {
      ghost var earlier := uses;
      if targets[i].directory.Some? {
        var paths := targets[i].directory.value.paths;
        NoUses(paths, targets);
        for j := 0 to |paths|
          invariant uses == earlier + PathUses(paths[..j])
          invariant mounts == before + ClaimMounts(uses)
        {
          PathUsesStep(paths, j);
          if paths[j].pvcRef.Some? {
            ghost var u := PvcUse(j, paths[j].pvcRef.value, paths[j].path, paths[j].subPath);
            var mount := Mount("pvc-" + paths[j].pvcRef.value, paths[j].path, paths[j].subPath, true);
            assert mount == ClaimMount(u);
            mounts := mounts + [mount];
            ClaimsSnoc(uses, u);
            uses := uses + [u];
          }
        }
        assert paths[..|paths|] == paths;
      }
      PvcUsesStep(targets, i);
    }
    assert targets[..|targets|] == targets;
  }

  method BuildVolumeMounts(spec: TaskSpec) returns (mounts: seq<Mount>)
    ensures mounts == Mounts(spec)
  {
    hide FIXED_MOUNTS, ClaimMounts, PvcUses;
    mounts := FIXED_MOUNTS;
    if spec.remoteStorage.kind == "nfs" && spec.remoteStorage.nfs.Some? {
      mounts := mounts + [Mount("nfs-storage", "/mnt/nfs-backup", "", false)];
    }
    mounts := AppendClaimMounts(mounts, spec.targets);
    assert FIXED_MOUNTS + [] == FIXED_MOUNTS;
  }
}
